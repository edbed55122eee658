// migrate_object_store.py: copying locked audit artifacts between object stores.
module Migration {
  import opened Prelude

  type Key = string

  datatype Mode = Compliance | Governance | OtherMode(name: string)
  datatype Hold = On | Off

  /** User metadata; `recorded` are the octets whose SHA-256 `payload-sha256` gives, if any.
      Digests are compared by the octets they stand for. */
  datatype Metadata = Metadata(user: map<string, string>, recorded: Option<octets>)

  datatype Object = Object(body: octets, contentType: string, metadata: Metadata,
                           mode: Option<Mode>, until: Option<int>, hold: Option<Hold>)

  datatype Lock = Lock(mode: Option<Mode>, until: Option<int>, hold: Option<Hold>)

  /** How an object's lock can be read: whether the HEAD fields show it, and whether the two
      fallback calls work. */
  datatype LockReads = LockReads(headMode: bool, retentionCall: bool, headHold: bool, holdCall: bool)

  /** A put fails, or stores some object, whatever it is, and may still raise. */
  datatype Put = PutFails | PutStores(o: Object, raises: bool)

  /** What can go wrong with one key. */
  datatype Faults = Faults(sourceRead: bool, destRead: bool, put: Object -> Put, checkRead: bool,
                           sourceLock: LockReads, destLock: LockReads)

  predicate Locking(m: Option<Mode>) { m.Some? && !m.value.OtherMode? }

  // ----- One key ------------------------------------------------------------------

  /** `_lock_state`: the HEAD fields, or the fallback calls, or nothing. */
  function LockState(o: Object, r: LockReads): Lock {
    var (mode, until) :=
      if r.headMode && o.mode.Some? then (o.mode, o.until)
      else if r.retentionCall && o.mode.Some? then (o.mode, o.until)
      else (None, if r.headMode then o.until else None);
    var hold :=
      if r.headHold && o.hold.Some? then o.hold
      else if r.holdCall then o.hold
      else None;
    Lock(mode, until, hold)
  }

  const OCTET_STREAM: string := "application/octet-stream"

  /** The put_object arguments. */
  function PutArgs(o: Object, lock: Lock): Object {
    var keep := Locking(lock.mode) && lock.until.Some?;
    Object(o.body, if o.contentType == "" then OCTET_STREAM else o.contentType, o.metadata,
           if keep then lock.mode else None, if keep then lock.until else None,
           if lock.hold == Some(On) then Some(On) else None)
  }

  datatype Outcome = Copied | Skipped | WouldCopy | Failed

  predicate Intact(o: Object) { o.metadata.recorded.Some? ==> o.metadata.recorded.value == o.body }

  /** Lines 198 to 205: what the copy must show for the key to count as copied. */
  predicate Verified(o: Object, lock: Lock, stored: Object, f: Faults) {
    var copiedLock := LockState(stored, f.destLock);
    && stored.body == o.body
    && (lock.hold == Some(On) ==> copiedLock.hold == Some(On))
    && (Locking(lock.mode) ==> copiedLock.mode == lock.mode)
  }

  /** What the destination is seen to hold: any error counts as absent. */
  function Seen(existing: Option<Object>, f: Faults): Option<Object> { if f.destRead then existing else None }

  /** One turn of the loop: the outcome, and what the destination then holds under the key. */
  function MigrateKey(source: Option<Object>, existing: Option<Object>, execute: bool, f: Faults): (Outcome, Option<Object>) {
    if source.None? || !f.sourceRead || !Intact(source.value) then (Failed, existing)
    else
      var o := source.value;
      if Seen(existing, f).Some? then
        (if existing.value.body == o.body then Skipped else Failed, existing)
      else if !execute then (WouldCopy, existing)
      else
        var lock := LockState(o, f.sourceLock);
        match f.put(PutArgs(o, lock))
        case PutFails => (Failed, existing)
        case PutStores(stored, raises) =>
          (if raises || !f.checkRead || !Verified(o, lock, stored, f) then Failed else Copied, Some(stored))
  }

  // ----- The whole run ---------------------------------------------------------------

  type Objects = map<Key, Object>

  function Get(m: Objects, k: Key): Option<Object> { if k in m then Some(m[k]) else None }

  function Set(m: Objects, k: Key, v: Option<Object>): Objects { if v.Some? then m[k := v.value] else m - {k} }

  datatype Report = Report(copied: seq<Key>, skipped: seq<Key>, wouldCopy: seq<Key>, failed: set<Key>)

  function Note(r: Report, k: Key, o: Outcome): Report {
    match o
    case Copied => r.(copied := r.copied + [k])
    case Skipped => r.(skipped := r.skipped + [k])
    case WouldCopy => r.(wouldCopy := r.wouldCopy + [k])
    case Failed => r.(failed := r.failed + {k})
  }

  function MigrateAll(source: Objects, dest: Objects, keys: seq<Key>, execute: bool, faults: Key -> Faults): (Objects, Report) {
    if keys == [] then (dest, Report([], [], [], {}))
    else
      var (d, r) := MigrateAll(source, dest, keys[..|keys| - 1], execute, faults);
      var k := keys[|keys| - 1];
      var (o, v) := MigrateKey(Get(source, k), Get(d, k), execute, faults(k));
      (Set(d, k, v), Note(r, k, o))
  }

  function Flatten(pages: seq<seq<Key>>): seq<Key> {
    if pages == [] then [] else Flatten(pages[..|pages| - 1]) + pages[|pages| - 1]
  }

  /** A key is listed exactly when some page has it. */
  lemma {:induction false} FlattenHas(pages: seq<seq<Key>>, k: Key)
    ensures k in Flatten(pages) <==> exists page :: page in pages && k in page
  {
    if pages != [] {
      var init, last := pages[..|pages| - 1], pages[|pages| - 1];
      FlattenHas(init, k);
      assert pages == init + [last];
      assert last in pages;
    }
  }

  /** The keys of page `i` stand together, behind those of the pages before it. */
  lemma {:induction false} FlattenInOrder(pages: seq<seq<Key>>, i: nat)
    requires i < |pages|
    ensures Flatten(pages[..i]) + pages[i] <= Flatten(pages)
  {
    var n := |pages| - 1;
    if i < n {
      assert pages[..n][..i] == pages[..i];
      FlattenInOrder(pages[..n], i);
    }
  }

  /** list_keys: page by page until one is not truncated; the token names the next page. */
  method ListKeys(pages: seq<seq<Key>>) returns (keys: seq<Key>)
    requires pages != []
    ensures keys == Flatten(pages)
    ensures forall k :: k in keys <==> exists page :: page in pages && k in page
  {
    forall k ensures k in Flatten(pages) <==> exists page :: page in pages && k in page { FlattenHas(pages, k); }
    keys := [];
    var token := 0;
    while true
      invariant token < |pages| && keys == Flatten(pages[..token])
      decreases |pages| - token
    {
      assert pages[..token + 1][..token] == pages[..token];
      keys := keys + pages[token];
      var truncated := token + 1 < |pages|;
      if !truncated {
        assert pages[..token + 1] == pages;
        return;
      }
      token := token + 1;
    }
  }

  lemma OneMoreKey(source: Objects, dest: Objects, keys: seq<Key>, i: nat, execute: bool, faults: Key -> Faults)
    requires i < |keys|
    ensures var (d, r) := MigrateAll(source, dest, keys[..i], execute, faults);
            var (o, v) := MigrateKey(Get(source, keys[i]), Get(d, keys[i]), execute, faults(keys[i]));
            MigrateAll(source, dest, keys[..i + 1], execute, faults) == (Set(d, keys[i], v), Note(r, keys[i], o))
  {
    assert keys[..i + 1][..i] == keys[..i];
  }

  datatype Bucket = NoBucket | Plain | WithLock

  /** How a get_object_lock_configuration call ends: it answers, or it raises an error that
      bucket_lock_enabled takes for "no usable lock", or one that it passes on. */
  datatype LockQuery = Answers | NoUsableLock | Raises

  /** bucket_lock_enabled; nothing when it raises. */
  function LockEnabled(bucket: Bucket, q: LockQuery): Option<bool> {
    match q
    case Answers => Some(bucket.WithLock?)
    case NoUsableLock => Some(false)
    case Raises => None
  }

  /** A bucket is taken for locked when it is and the query answers. */
  predicate SeenLocked(bucket: Bucket, q: LockQuery) { bucket.WithLock? && q.Answers? }

  /** What can go wrong before the first key: the lock queries of both buckets, head_bucket, a
      needed create_bucket, and the listing. */
  datatype SetupFaults = SetupFaults(sourceQuery: LockQuery, head: bool, destQuery: LockQuery, creates: bool, lists: bool)

  class Destination {
    var bucket: Bucket
    var objects: Objects

    /** ensure_destination_bucket. A bucket whose HEAD fails counts as absent: its lock is not
        looked at, and creating it once more leaves it as it is. */
    method EnsureBucket(requireLock: bool, execute: bool, f: SetupFaults) returns (ok: bool)
      modifies this`bucket
      ensures ok <==> if old(bucket).NoBucket? || !f.head then execute ==> f.creates
                      else requireLock ==> old(bucket).WithLock? && f.destQuery.Answers?
      ensures bucket == if old(bucket).NoBucket? && execute && f.creates
                        then if requireLock then WithLock else Plain else old(bucket)
    {
      var found := !bucket.NoBucket? && f.head;
      if !found {
        if !execute { return true; }
        if !f.creates { return false; }
        if bucket.NoBucket? { bucket := if requireLock then WithLock else Plain; }
      }
      if requireLock && found {
        var enabled := LockEnabled(bucket, f.destQuery);
        if enabled != Some(true) { return false; }
      }
      ok := true;
    }

    /** `migrate`: refuses, or goes through every listed key. A dry run leaves bucket and objects as
        they were. All that a refused run can leave behind is a bucket it created, which happens when
        the listing fails; one whose source's lock query raised leaves none. An executing run for a
        source read as locked ends in a bucket with Object Lock, unless that bucket's HEAD failed. */
    method Migrate(source: Objects, sourceBucket: Bucket, pages: seq<seq<Key>>, execute: bool, f: SetupFaults,
                   faults: Key -> Faults)
      returns (report: Option<Report>)
      requires pages != []
      modifies this
      ensures report.Some? <==>
                && !f.sourceQuery.Raises? && f.lists
                && if old(bucket).NoBucket? || !f.head then execute ==> f.creates
                   else SeenLocked(sourceBucket, f.sourceQuery) ==> SeenLocked(old(bucket), f.destQuery)
      ensures report.None? || !execute ==> objects == old(objects)
      ensures bucket == if !f.sourceQuery.Raises? && old(bucket).NoBucket? && execute && f.creates
                        then if SeenLocked(sourceBucket, f.sourceQuery) then WithLock else Plain
                        else old(bucket)
      ensures report.Some? ==>
                (objects, report.value) == MigrateAll(source, old(objects), Flatten(pages), execute, faults)
      ensures report.Some? && execute && SeenLocked(sourceBucket, f.sourceQuery) ==>
                bucket.WithLock? || (!old(bucket).NoBucket? && !f.head)
    {
      var locked := LockEnabled(sourceBucket, f.sourceQuery);
      if locked.None? { return None; }
      var ok := EnsureBucket(locked.value, execute, f);
      if !ok || !f.lists { return None; }
      var r := CopyAll(source, pages, execute, faults);
      if !execute { DryRunWritesNothing(source, old(objects), Flatten(pages), faults); }
      report := Some(r);
    }

    /** The loop over the listed keys. */
    method CopyAll(source: Objects, pages: seq<seq<Key>>, execute: bool, faults: Key -> Faults) returns (r: Report)
      requires pages != []
      modifies this`objects
      ensures (objects, r) == MigrateAll(source, old(objects), Flatten(pages), execute, faults)
    {
      var keys := ListKeys(pages);
      r := Report([], [], [], {});
      for i := 0 to |keys|
        invariant (objects, r) == MigrateAll(source, old(objects), keys[..i], execute, faults)
      {
        OneMoreKey(source, old(objects), keys, i, execute, faults);
        var (o, v) := MigrateKey(Get(source, keys[i]), Get(objects, keys[i]), execute, faults(keys[i]));
        objects := Set(objects, keys[i], v);
        r := Note(r, keys[i], o);
      }
      assert keys[..|keys|] == keys;
    }
  }

  // ----- Every key, exactly once ---------------------------------------------------------

  ghost predicate Distinct(keys: seq<Key>) { forall i, j :: 0 <= i < j < |keys| ==> keys[i] != keys[j] }

  function OutcomeOf(source: Objects, dest: Objects, k: Key, execute: bool, faults: Key -> Faults): Outcome {
    MigrateKey(Get(source, k), Get(dest, k), execute, faults(k)).0
  }

  function Becomes(source: Objects, dest: Objects, k: Key, execute: bool, faults: Key -> Faults): Option<Object> {
    MigrateKey(Get(source, k), Get(dest, k), execute, faults(k)).1
  }

  /** The report lists a key under exactly this outcome; None: nowhere. */
  predicate ListedAs(r: Report, k: Key, o: Option<Outcome>) {
    && (k in r.copied <==> o == Some(Copied))
    && (k in r.skipped <==> o == Some(Skipped))
    && (k in r.wouldCopy <==> o == Some(WouldCopy))
    && (k in r.failed <==> o == Some(Failed))
  }

  lemma NoteLists(r: Report, last: Key, o: Outcome, k: Key, before: Option<Outcome>)
    requires ListedAs(r, k, before) && (k == last ==> before.None?)
    ensures ListedAs(Note(r, last, o), k, if k == last then Some(o) else before)
  {
  }

  lemma SetGets(m: Objects, last: Key, v: Option<Object>, k: Key)
    ensures Get(Set(m, last, v), k) == if k == last then v else Get(m, k)
  {
  }

  /** Each listed key is treated on its own; no other key is touched. */
  lemma {:induction false} KeyByKey(source: Objects, dest: Objects, keys: seq<Key>, execute: bool, faults: Key -> Faults, k: Key)
    requires Distinct(keys)
    ensures var (d, r) := MigrateAll(source, dest, keys, execute, faults);
            && Get(d, k) == (if k in keys then Becomes(source, dest, k, execute, faults) else Get(dest, k))
            && ListedAs(r, k, if k in keys then Some(OutcomeOf(source, dest, k, execute, faults)) else None)
  {
    if keys != [] {
      var init, last := keys[..|keys| - 1], keys[|keys| - 1];
      assert keys == init + [last] && last !in init;
      var (d, r) := MigrateAll(source, dest, init, execute, faults);
      KeyByKey(source, dest, init, execute, faults, k);
      KeyByKey(source, dest, init, execute, faults, last);
      SetGets(d, last, Becomes(source, dest, last, execute, faults), k);
      NoteLists(r, last, OutcomeOf(source, dest, last, execute, faults), k,
                if k in init then Some(OutcomeOf(source, dest, k, execute, faults)) else None);
    }
  }

  predicate OneOf(a: bool, b: bool, c: bool, d: bool) {
    (a && !b && !c && !d) || (!a && b && !c && !d) || (!a && !b && c && !d) || (!a && !b && !c && d)
  }

  /** The source has the object, it can be read, and its recorded digest, if any, is its body's. */
  predicate Readable(source: Option<Object>, f: Faults) {
    source.Some? && f.sourceRead && (source.value.metadata.recorded.Some? ==> source.value.metadata.recorded.value == source.value.body)
  }

  /** The destination holds an object under the key, and it can be read. */
  predicate Held(existing: Option<Object>, f: Faults) { existing.Some? && f.destRead }

  /** The put stores an object that reads back with the body, and with the hold and the locking mode
      that could be read of the source. */
  predicate StoresAlike(o: Object, f: Faults) {
    var p, r, d := f.put(PutArgs(o, LockState(o, f.sourceLock))), f.sourceLock, f.destLock;
    && p.PutStores? && !p.raises && f.checkRead && p.o.body == o.body
    && (HoldReadable(r) && o.hold == Some(On) ==> HoldReadable(d) && p.o.hold == Some(On))
    && (ModeReadable(r) && Locking(o.mode) ==> ModeReadable(d) && p.o.mode == o.mode)
  }

  /** How each key comes out, and what the destination then holds, said of the key's own data. */
  lemma OutcomeExactlyWhen(source: Option<Object>, existing: Option<Object>, execute: bool, f: Faults)
    ensures var (out, left) := MigrateKey(source, existing, execute, f);
            && (out.Skipped? <==> Readable(source, f) && Held(existing, f) && existing.value.body == source.value.body)
            && (out.WouldCopy? <==> Readable(source, f) && !Held(existing, f) && !execute)
            && (out.Copied? <==> Readable(source, f) && !Held(existing, f) && execute && StoresAlike(source.value, f))
            && left == if Readable(source, f) && !Held(existing, f) && execute
                          && f.put(PutArgs(source.value, LockState(source.value, f.sourceLock))).PutStores?
                       then Some(f.put(PutArgs(source.value, LockState(source.value, f.sourceLock))).o) else existing
  {
    if source.Some? {
      LockStateReadable(source.value, f.sourceLock);
      var p := f.put(PutArgs(source.value, LockState(source.value, f.sourceLock)));
      if p.PutStores? { LockStateReadable(p.o, f.destLock); }
    }
  }

  /** Across all pages, every listed key ends up in exactly one list of the report, and no
      other key in any. */
  lemma ReportPartitions(source: Objects, dest: Objects, keys: seq<Key>, execute: bool, faults: Key -> Faults, k: Key)
    requires Distinct(keys)
    ensures var r := MigrateAll(source, dest, keys, execute, faults).1;
            if k in keys then OneOf(k in r.copied, k in r.skipped, k in r.wouldCopy, k in r.failed)
            else k !in r.copied && k !in r.skipped && k !in r.wouldCopy && k !in r.failed
  {
    KeyByKey(source, dest, keys, execute, faults, k);
  }

  /** A dry run changes nothing and copies nothing. */
  lemma {:induction false} DryRunWritesNothing(source: Objects, dest: Objects, keys: seq<Key>, faults: Key -> Faults)
    ensures var (d, r) := MigrateAll(source, dest, keys, false, faults); d == dest && r.copied == []
  {
    if keys != [] { DryRunWritesNothing(source, dest, keys[..|keys| - 1], faults); }
  }

  lemma SameObjects(a: Objects, b: Objects)
    requires forall k :: Get(a, k) == Get(b, k)
    ensures a == b
  {
    forall k ensures k in a <==> k in b { assert Get(a, k) == Get(b, k); }
    forall k | k in a ensures a[k] == b[k] { assert Get(a, k) == Get(b, k); }
  }

  /** The put is reached: the source reads back intact and the destination looks empty. */
  predicate Puts(source: Option<Object>, existing: Option<Object>, execute: bool, f: Faults) {
    source.Some? && f.sourceRead && Intact(source.value) && Seen(existing, f).None? && execute
  }

  /** The destination holds an object, reading it fails, and the put that follows stores another. */
  predicate Overwrites(source: Option<Object>, existing: Option<Object>, execute: bool, f: Faults) {
    && existing.Some? && !f.destRead && Puts(source, existing, execute, f)
    && var p := f.put(PutArgs(source.value, LockState(source.value, f.sourceLock)));
       p.PutStores? && p.o != existing.value
  }

  /** An object the destination already held is changed exactly when its key is listed, reading it
      failed, and the put that followed stored something else. */
  lemma OverwrittenExactlyWhen(source: Objects, dest: Objects, keys: seq<Key>, execute: bool, faults: Key -> Faults, k: Key)
    requires Distinct(keys) && k in dest
    ensures Get(MigrateAll(source, dest, keys, execute, faults).0, k) != Get(dest, k) <==>
            k in keys && Overwrites(Get(source, k), Get(dest, k), execute, faults(k))
  {
    KeyByKey(source, dest, keys, execute, faults, k);
  }

  // ----- What a copied key has -------------------------------------------------------------

  predicate ModeReadable(r: LockReads) { r.headMode || r.retentionCall }

  predicate HoldReadable(r: LockReads) { r.headHold || r.holdCall }

  /** A store that keeps what it is given. */
  ghost predicate Faithful(f: Faults) {
    forall o :: f.put(o).PutFails? || f.put(o).o == o
  }

  /** What does not protect the object: body and metadata as they were, and the content type, of
      which an object without one gets the general one. */
  predicate SamePayload(c: Object, o: Object) {
    && c.body == o.body && c.metadata == o.metadata
    && c.contentType == (if o.contentType == "" then OCTET_STREAM else o.contentType)
  }

  /** `c` is what the copy of `o` should be: its payload, its retention if it locks until some date,
      its legal hold if it is on, and no other protection. */
  predicate Wanted(c: Object, o: Object) {
    && SamePayload(c, o)
    && (if (o.mode == Some(Compliance) || o.mode == Some(Governance)) && o.until.Some?
        then c.mode == o.mode && c.until == o.until else c.mode == None && c.until == None)
    && (if o.hold == Some(On) then c.hold == Some(On) else c.hold == None)
  }

  lemma WantedIsOne(c: Object, d: Object, o: Object)
    requires Wanted(c, o) && Wanted(d, o)
    ensures c == d
  {
  }

  lemma LockStateReadable(o: Object, r: LockReads)
    ensures LockState(o, r).mode == if ModeReadable(r) then o.mode else None
    ensures LockState(o, r).hold == if HoldReadable(r) then o.hold else None
    ensures ModeReadable(r) && o.mode.Some? ==> LockState(o, r).until == o.until
  {
  }

  /** Whatever the store did, a key counts as copied only if its bytes, its legal hold and its
      retention mode are the source's as read; with a store that keeps what it is given the whole
      object is what was put, and a retention that was read without a date fails. */
  lemma CopiedIsProtected(source: Option<Object>, existing: Option<Object>, execute: bool, f: Faults)
    requires MigrateKey(source, existing, execute, f).0.Copied?
    ensures source.Some? && MigrateKey(source, existing, execute, f).1.Some?
    ensures var o, c, r := source.value, MigrateKey(source, existing, execute, f).1.value, f.sourceLock;
            && c.body == o.body
            && (HoldReadable(r) && o.hold == Some(On) ==> c.hold == Some(On))
            && (ModeReadable(r) && Locking(o.mode) ==> c.mode == o.mode)
            && (Faithful(f) ==> SamePayload(c, o))
            && (Faithful(f) ==> (c.hold == Some(On) <==> HoldReadable(r) && o.hold == Some(On)))
            && (Faithful(f) && ModeReadable(r) && Locking(o.mode) ==> c.until == o.until && o.until.Some?)
            && (Faithful(f) ==> (Wanted(c, o) <==> !LockMissed(o, r)))
  {
    LockStateReadable(source.value, f.sourceLock);
    LockMissedExactlyWhen(source.value, f.sourceLock);
    LockStateReadable(MigrateKey(source, existing, execute, f).1.value, f.destLock);
  }

  /** Neither way of reading a legal hold that is on worked, or neither way of reading a retention
      that locks until some date. */
  predicate LockMissed(o: Object, r: LockReads) {
    || (o.hold == Some(On) && !r.headHold && !r.holdCall)
    || ((o.mode == Some(Compliance) || o.mode == Some(Governance)) && o.until.Some? && !r.headMode && !r.retentionCall)
  }

  /** The put always has the source's payload; it asks for another protection than the source's
      exactly when its lock was missed. */
  lemma LockMissedExactlyWhen(o: Object, r: LockReads)
    ensures SamePayload(PutArgs(o, LockState(o, r)), o)
    ensures !Wanted(PutArgs(o, LockState(o, r)), o) <==> LockMissed(o, r)
  {
  }

  // ----- Resuming ------------------------------------------------------------------------------

  function Clean(): Faults {
    var lockReads := LockReads(true, true, true, true);
    Faults(true, true, (o: Object) => PutStores(o, false), true, lockReads, lockReads)
  }

  /** The faulty first run put a new object without the protection it could not read. */
  ghost predicate Downgraded(source: Option<Object>, existing: Option<Object>, f: Faults) {
    && existing.None? && Puts(source, existing, true, f)
    && f.put(PutArgs(source.value, LockState(source.value, f.sourceLock))).PutStores?
    && LockMissed(source.value, f.sourceLock)
  }

  lemma CleanPut(source: Option<Object>, existing: Option<Object>)
    ensures existing.Some? ==> MigrateKey(source, existing, true, Clean()).1 == existing
    ensures existing.None? ==>
              var copy := MigrateKey(source, existing, true, Clean()).1;
              if source.Some? && Intact(source.value) then copy.Some? && Wanted(copy.value, source.value) else copy.None?
  {
    if source.Some? { LockMissedExactlyWhen(source.value, Clean().sourceLock); }
  }

  /** After a first run with arbitrary faults on a store whose puts are all or nothing, a
      fault-free run leaves a key exactly as one fault-free run would have, except where the
      first run missed the source's lock and stored a copy without it (identical bytes are skipped
      from then on, and the lock is never restored), or overwrote an object it could not read. */
  lemma ResumeKey(source: Option<Object>, existing: Option<Object>, f: Faults)
    requires Faithful(f)
    ensures MigrateKey(source, MigrateKey(source, existing, true, f).1, true, Clean()).1 ==
            MigrateKey(source, existing, true, Clean()).1
            <==> !Downgraded(source, existing, f) && !Overwrites(source, existing, true, f)
  {
    CleanPut(source, existing);
    CleanPut(source, MigrateKey(source, existing, true, f).1);
    if source.Some? {
      LockMissedExactlyWhen(source.value, f.sourceLock);
      LockMissedExactlyWhen(source.value, Clean().sourceLock);
    }
  }

  /** The key after any number of executing runs. */
  function AfterRuns(source: Option<Object>, existing: Option<Object>, runs: seq<Faults>): Option<Object> {
    if runs == [] then existing
    else MigrateKey(source, AfterRuns(source, existing, runs[..|runs| - 1]), true, runs[|runs| - 1]).1
  }

  /** A run that stores a readable object over one the destination holds: it reads the source, cannot
      read the destination, and its put stores. */
  predicate Restores(o: Object, g: Faults) {
    g.sourceRead && !g.destRead && g.put(PutArgs(o, LockState(o, g.sourceLock))).PutStores?
  }

  /** One run that stores over the copy could read the hold, and none after it stores again. */
  ghost predicate HoldPutBack(o: Object, runs: seq<Faults>) {
    exists i :: 0 <= i < |runs| && Restores(o, runs[i]) && HoldReadable(runs[i].sourceLock)
                && forall j :: i < j < |runs| ==> !Restores(o, runs[j])
  }

  lemma RunOverCopy(o: Object, c: Object, g: Faults)
    requires Intact(o) && o.hold == Some(On) && c.body == o.body && Faithful(g)
    ensures var r := MigrateKey(Some(o), Some(c), true, g);
            && r.1.Some? && r.1.value.body == o.body
            && (if Restores(o, g) then r.1.value.hold == Some(On) <==> HoldReadable(g.sourceLock) else r.1 == Some(c))
            && (g.sourceRead && g.destRead ==> r.0.Skipped?)
  {
    LockStateReadable(o, g.sourceLock);
    var put := PutArgs(o, LockState(o, g.sourceLock));
    assert g.put(put).PutFails? || g.put(put).o == put;
  }

  lemma PutBackLast(o: Object, runs: seq<Faults>)
    requires runs != []
    ensures var init, g := runs[..|runs| - 1], runs[|runs| - 1];
            HoldPutBack(o, runs) <==> if Restores(o, g) then HoldReadable(g.sourceLock) else HoldPutBack(o, init)
  {
    var init, g := runs[..|runs| - 1], runs[|runs| - 1];
    if Restores(o, g) {
      if HoldReadable(g.sourceLock) { assert Restores(o, runs[|runs| - 1]); }
    } else {
      PutBackShorter(o, runs);
      if HoldPutBack(o, init) { PutBackLonger(o, runs); }
    }
  }

  /** A run that stores nothing does not matter. */
  lemma PutBackLonger(o: Object, runs: seq<Faults>)
    requires runs != [] && !Restores(o, runs[|runs| - 1]) && HoldPutBack(o, runs[..|runs| - 1])
    ensures HoldPutBack(o, runs)
  {
    var init := runs[..|runs| - 1];
    var i :| 0 <= i < |init| && Restores(o, init[i]) && HoldReadable(init[i].sourceLock)
             && forall j :: i < j < |init| ==> !Restores(o, init[j]);
    assert Restores(o, runs[i]) && HoldReadable(runs[i].sourceLock);
    forall j | i < j < |runs| ensures !Restores(o, runs[j]) {
      if j < |init| { assert !Restores(o, init[j]); }
    }
  }

  lemma PutBackShorter(o: Object, runs: seq<Faults>)
    requires runs != [] && !Restores(o, runs[|runs| - 1])
    ensures HoldPutBack(o, runs) ==> HoldPutBack(o, runs[..|runs| - 1])
  {
    var init := runs[..|runs| - 1];
    if HoldPutBack(o, runs) {
      var i :| 0 <= i < |runs| && Restores(o, runs[i]) && HoldReadable(runs[i].sourceLock)
               && forall j :: i < j < |runs| ==> !Restores(o, runs[j]);
      assert i < |init| && Restores(o, init[i]) && HoldReadable(init[i].sourceLock);
      assert forall j :: i < j < |init| ==> init[j] == runs[j];
    }
  }

  lemma {:induction false} HoldAfterRuns(o: Object, c: Object, runs: seq<Faults>)
    requires Intact(o) && o.hold == Some(On) && c.body == o.body && c.hold != Some(On)
    requires forall g :: g in runs ==> Faithful(g)
    ensures var later := AfterRuns(Some(o), Some(c), runs);
            later.Some? && later.value.body == o.body && (later.value.hold == Some(On) <==> HoldPutBack(o, runs))
  {
    if runs != [] {
      var init, g := runs[..|runs| - 1], runs[|runs| - 1];
      HoldAfterRuns(o, c, init);
      RunOverCopy(o, AfterRuns(Some(o), Some(c), init).value, g);
      PutBackLast(o, runs);
    }
  }

  /** A hold that neither way of reading it showed is missing on the copy, where one fault-free run
      would have put it on. Any later runs, with any faults, leave it on exactly when one of them
      could read source and hold, could not read the copy and stored over it, and none after it
      stored; a run that reads both objects skips the key. */
  lemma HoldLostExactlyUntil(o: Object, f: Faults, runs: seq<Faults>)
    requires Intact(o) && o.hold == Some(On) && f.sourceRead && Faithful(f) && !HoldReadable(f.sourceLock)
    requires f.put(PutArgs(o, LockState(o, f.sourceLock))).PutStores?
    requires forall g :: g in runs ==> Faithful(g)
    ensures var first := MigrateKey(Some(o), None, true, f).1;
            && first.Some? && first.value.hold == None
            && var later := AfterRuns(Some(o), first, runs);
               && later.Some?
               && (later.value.hold == Some(On) <==> HoldPutBack(o, runs))
               && (forall g :: Faithful(g) && g.sourceRead && g.destRead ==> MigrateKey(Some(o), later, true, g).0.Skipped?)
    ensures var direct := MigrateKey(Some(o), None, true, Clean()).1;
            direct.Some? && direct.value.hold == Some(On)
  {
    LockStateReadable(o, f.sourceLock);
    var put := PutArgs(o, LockState(o, f.sourceLock));
    assert f.put(put).o == put;
    HoldAfterRuns(o, put, runs);
    CleanPut(Some(o), None);
  }

  /** The first run's faults left this key other than a fault-free run would. */
  ghost predicate Spoiled(source: Objects, dest: Objects, k: Key, faults: Key -> Faults) {
    || Downgraded(Get(source, k), Get(dest, k), faults(k))
    || Overwrites(Get(source, k), Get(dest, k), true, faults(k))
  }

  /** The same for a whole migration: the resumed destination is the one a single fault-free
      run leaves, exactly when no key was downgraded and none overwritten. */
  lemma ResumeAll(source: Objects, dest: Objects, keys: seq<Key>, faults: Key -> Faults)
    requires Distinct(keys) && forall k :: k in keys ==> Faithful(faults(k))
    ensures var clean := (k: Key) => Clean();
            var first := MigrateAll(source, dest, keys, true, faults).0;
            MigrateAll(source, first, keys, true, clean).0 == MigrateAll(source, dest, keys, true, clean).0
            <==> forall k :: k in keys ==> !Spoiled(source, dest, k, faults)
  {
    var clean := (k: Key) => Clean();
    var first := MigrateAll(source, dest, keys, true, faults).0;
    var resumed, direct := MigrateAll(source, first, keys, true, clean).0, MigrateAll(source, dest, keys, true, clean).0;
    forall k
      ensures Get(resumed, k) == Get(direct, k) <==> (k in keys ==> !Spoiled(source, dest, k, faults))
    {
      KeyByKey(source, dest, keys, true, faults, k);
      KeyByKey(source, first, keys, true, clean, k);
      KeyByKey(source, dest, keys, true, clean, k);
      if k in keys { ResumeKey(Get(source, k), Get(dest, k), faults(k)); }
    }
    if forall k :: k in keys ==> !Spoiled(source, dest, k, faults) { SameObjects(resumed, direct); }
  }

  /** Running once more after a fault-free run writes nothing and copies nothing. */
  lemma RerunWritesNothing(source: Objects, dest: Objects, keys: seq<Key>)
    requires Distinct(keys)
    ensures var clean := (k: Key) => Clean();
            var once := MigrateAll(source, dest, keys, true, clean).0;
            var (d, r) := MigrateAll(source, once, keys, true, clean);
            d == once && forall k :: k !in r.copied
  {
    var clean := (k: Key) => Clean();
    var once := MigrateAll(source, dest, keys, true, clean).0;
    var (d, r) := MigrateAll(source, once, keys, true, clean);
    forall k ensures Get(d, k) == Get(once, k) && k !in r.copied {
      KeyByKey(source, dest, keys, true, clean, k);
      KeyByKey(source, once, keys, true, clean, k);
      CleanPut(Get(source, k), Get(dest, k));
      CleanPut(Get(source, k), Get(once, k));
    }
    SameObjects(d, once);
  }
}
