// atomic_write_bytes as it is written: one call, statement by statement, each statement a
// step of the protocol. Where the operating system decides, the outcome is arbitrary.
module AtomicCall {
  import opened Prelude
  import opened AtomicWrite
  import opened AtomicSafety
  import opened AtomicOrder
  import opened AtomicBackup

  datatype ReplaceOutcome = Replaced | SharingViolation | OtherError

  /** How copying the old file to its backup ends: it works, or reading, opening, or writing it
      raises, the last after some bytes. */
  datatype BackupOutcome = BackupWorks | ReadRaises | OpenRaises | WriteRaises(at: nat)

  /** How the operating system answers one call: does mkstemp work, do write and fsync, how many
      bytes really reach the file, can it be read back, can the destination be looked at, the
      backup, every attempt to replace, and the last unlink. */
  datatype Os = Os(temp: bool, writes: bool, written: nat, readsBack: bool, looks: bool,
                   backup: BackupOutcome, attempts: nat -> ReplaceOutcome, unlinks: bool)

  function Min(a: nat, b: nat): nat { if a < b then a else b }

  /** What reaches the temporary file. */
  function Reached(os: Os, data: octets): octets { data[..Min(os.written, |data|)] }

  /** The call gets as far as its destination's lock. */
  predicate GetsToLock(os: Os, j: Job) {
    os.temp && os.writes && (j.verify ==> os.readsBack && Reached(os, j.data) == j.data)
  }

  /** The first `k` attempts meet sharing violations. */
  ghost predicate Busy(attempts: nat -> ReplaceOutcome, k: nat) {
    forall j: nat :: j < k ==> attempts(j).SharingViolation?
  }

  /** One of ten attempts replaces, and all before it meet sharing violations. */
  ghost predicate Replaceable(attempts: nat -> ReplaceOutcome) {
    exists k: nat :: k < 10 && attempts(k).Replaced? && Busy(attempts, k)
  }

  /** The attempt that ends the loop decides. */
  lemma Decides(attempts: nat -> ReplaceOutcome, k: nat)
    requires k < 10 && Busy(attempts, k)
    ensures !attempts(k).SharingViolation? || k == 9 ==> (Replaceable(attempts) <==> attempts(k).Replaced?)
    ensures attempts(k).SharingViolation? ==> Busy(attempts, k + 1)
  {
  }

  ghost predicate Succeeds(os: Os, j: Job) { GetsToLock(os, j) && os.looks && Replaceable(os.attempts) }

  /** What `.bak` holds after copying `old` into it, where it held `bak` before. */
  function BackupAfter(o: BackupOutcome, prior: octets, bak: Option<octets>): Option<octets> {
    match o
    case BackupWorks => Some(prior)
    case WriteRaises(at) => Some(prior[..Min(at, |prior|)])
    case _ => bak
  }

  /** What the call leaves at `.bak`: a copy is tried exactly when it gets to look at its destination
      and finds it there. */
  function BackupLeft(os: Os, j: Job, dest: Option<octets>, bak: Option<octets>): Option<octets> {
    if GetsToLock(os, j) && os.looks && dest.Some? then BackupAfter(os.backup, dest.value, bak) else bak
  }

  /** A run from `start` that ends in `s`. */
  ghost predicate LeadsTo(start: State, acts: seq<Action>, s: State) { ValidRun(start, acts) && Run(start, acts) == s }

  /** The machine a call runs on. `trace` are the steps taken since `start`. */
  class Machine {
    var state: State
    ghost var start: State
    ghost var trace: seq<Action>

    constructor (s: State)
      ensures state == s && start == s && trace == [] && Valid()
    {
      state := s;
      start := s;
      trace := [];
    }

    /** The machine is where its trace leads. */
    ghost predicate Valid()
      reads this
    {
      LeadsTo(start, trace, state)
    }

    method Do(a: Action)
      requires Valid() && Enabled(state, a)
      modifies this
      ensures Valid() && start == old(start)
      ensures state == Apply(old(state), a) && trace == old(trace) + [a]
    {
      RunSnoc(start, trace, a);
      state := Apply(state, a);
      trace := trace + [a];
    }
  }

  /** The steps added since `before` all belong to call `w`. */
  ghost predicate OnlyBy(before: seq<Action>, after: seq<Action>, w: Writer) {
    before <= after && forall i :: |before| <= i < |after| ==> Actor(after[i]) == Some(w)
  }

  /** The call is known and has its temporary file. */
  predicate At(s: State, w: Writer) { Is(s, w) && Temp(w) in s.disk.vdir && s.disk.vdir[Temp(w)] == TempFile(w) }

  /** The visible disk is as it was but for the call's temporary file. */
  ghost predicate Besides(s: State, t: State, w: Writer) {
    && (forall p :: p != Temp(w) ==>
          (p in t.disk.vdir <==> p in s.disk.vdir) && (p in s.disk.vdir ==> t.disk.vdir[p] == s.disk.vdir[p]))
    && (forall i :: i != TempFile(w) ==> Content(t.disk.vdata, i) == Content(s.disk.vdata, i))
  }

  predicate SameView(s: State, t: State) { t.disk.vdir == s.disk.vdir && t.disk.vdata == s.disk.vdata }

  /** What every part of a call keeps: it is a run in which only `w` moves. */
  twostate predicate Mine(m: Machine, w: Writer)
    reads m
  {
    && m.Valid() && m.start == old(m.start) && OnlyBy(old(m.trace), m.trace, w)
    && m.state.jobs == old(m.state.jobs) && m.state.history.base == old(m.state.history.base) && Is(m.state, w)
  }

  /** Lines 77 to 80: the bytes reach the file in some order of chunks, perhaps not all of them. */
  method WriteData(m: Machine, w: Writer, os: Os)
    requires m.Valid() && At(m.state, w) && m.state.pcs[w].Writing?
    requires Content(m.state.disk.vdata, TempFile(w)) == []
    modifies m
    ensures Mine(m, w) && At(m.state, w) && m.state.pcs[w].Writing? && Besides(old(m.state), m.state, w)
    ensures m.state.locks == old(m.state.locks) && m.state.history == old(m.state.history)
    ensures Content(m.state.disk.vdata, TempFile(w)) == Reached(os, m.state.jobs[w].data)
  {
    var n, limit := 0, Min(os.written, |m.state.jobs[w].data|);
    while n < limit
      invariant Mine(m, w) && At(m.state, w) && m.state.pcs[w].Writing? && Besides(old(m.state), m.state, w)
      invariant m.state.locks == old(m.state.locks) && m.state.history == old(m.state.history)
      invariant n <= limit && Content(m.state.disk.vdata, TempFile(w)) == m.state.jobs[w].data[..n]
    {
      var k: nat :| n < k <= limit;
      assert m.state.jobs[w].data[..n] + m.state.jobs[w].data[n..k] == m.state.jobs[w].data[..k];
      m.Do(Write(w, k));
      n := k;
    }
  }

  /** Lines 80 to 86: fsync and verify. */
  method SyncAndVerify(m: Machine, w: Writer, os: Os) returns (ok: bool)
    requires m.Valid() && At(m.state, w) && m.state.pcs[w].Writing?
    modifies m
    ensures Mine(m, w) && At(m.state, w) && SameView(old(m.state), m.state)
    ensures m.state.locks == old(m.state.locks) && m.state.history.log == old(m.state.history.log)
    ensures if ok then m.state.pcs[w].Ready? else m.state.pcs[w] == Cleanup(false)
    ensures var j := m.state.jobs[w];
            ok <==> os.writes && (j.verify ==> os.readsBack && Content(old(m.state).disk.vdata, TempFile(w)) == j.data)
  {
    if !os.writes {
      m.Do(Fail(w));
      return false;
    }
    m.Do(Sync(w));
    if m.state.jobs[w].verify && !os.readsBack {
      m.Do(Fail(w));
      return false;
    }
    m.Do(Verify(w));
    ok := m.state.pcs[w].Ready?;
  }

  /** The backup is another file than the call's temporary one. */
  predicate Apart(s: State, w: Writer)
    requires w in s.jobs
  {
    BackupInode(s, w) != TempFile(w)
  }

  /** A backup of its own leaves the temporary file alone. */
  predicate TempKept(s: State, t: State, w: Writer)
    requires w in s.jobs && w in t.jobs
  {
    Apart(s, w) ==> Apart(t, w) && Content(t.disk.vdata, TempFile(w)) == Content(s.disk.vdata, TempFile(w))
  }

  predicate SameLocksAndHistory(s: State, t: State) { t.locks == s.locks && t.history == s.history }

  /** The call's backup is open, with `n` bytes of the old file in it; `s` is where copying began. */
  predicate Filled(s: State, t: State, w: Writer, prior: octets, n: nat)
    requires w in s.jobs
  {
    && At(t, w) && TempKept(s, t, w) && SameLocksAndHistory(s, t)
    && n <= |prior| && t.pcs[w] == Saving(prior, BackupInode(t, w), n)
    && Backup(t, w) in t.disk.vdir && Content(t.disk.vdata, BackupInode(t, w)) == prior[..n]
  }

  /** Copying has ended with outcome `o`; the call remembers the old bytes if it copied them all. */
  predicate Copied(s: State, t: State, w: Writer, prior: octets, o: BackupOutcome)
    requires w in s.jobs
  {
    && At(t, w) && TempKept(s, t, w) && SameLocksAndHistory(s, t)
    && t.pcs[w] == Replacing(if o.BackupWorks? then Some(prior) else None, 0)
    && Value(t, BackupName(t.jobs[w].dest)) == BackupAfter(o, prior, None)
  }

  lemma Opened(s: State, w: Writer, prior: octets)
    requires At(s, w) && s.pcs[w] == Copying(prior)
    ensures Enabled(s, OpenBackup(w)) && Filled(s, Apply(s, OpenBackup(w)), w, prior, 0)
  {
    assert prior[..0] == [];
  }

  lemma Chunk(s: State, t: State, w: Writer, prior: octets, n: nat, k: nat)
    requires w in s.jobs && Filled(s, t, w, prior, n) && n < k <= |prior|
    ensures Enabled(t, Save(w, k)) && Filled(s, Apply(t, Save(w, k)), w, prior, k)
  {
    OverlayPrefix(prior, n, k);
  }

  /** How many bytes of the old file get into the backup. */
  function Limit(o: BackupOutcome, prior: octets): nat { if o.WriteRaises? then Min(o.at, |prior|) else |prior| }

  lemma Ended(s: State, t: State, w: Writer, prior: octets, o: BackupOutcome)
    requires w in s.jobs && Filled(s, t, w, prior, Limit(o, prior)) && (o.BackupWorks? || o.WriteRaises?)
    ensures var a := if o.BackupWorks? then SaveDone(w) else NoBackup(w);
            Enabled(t, a) && Copied(s, Apply(t, a), w, prior, o)
  {
    assert prior[..|prior|] == prior;
  }

  /** Line 95: truncate the backup and write the old bytes into it, up to where writing raises. */
  method CopyToBackup(m: Machine, w: Writer, prior: octets, o: BackupOutcome)
    requires m.Valid() && At(m.state, w) && m.state.pcs[w] == Copying(prior) && (o.BackupWorks? || o.WriteRaises?)
    modifies m
    ensures Mine(m, w) && Copied(old(m.state), m.state, w, prior, o)
  {
    ghost var before := m.state;
    Opened(before, w, prior);
    m.Do(OpenBackup(w));
    var n := 0;
    while n < Limit(o, prior)
      invariant Mine(m, w) && n <= Limit(o, prior) && Filled(before, m.state, w, prior, n)
    {
      var k: nat :| n < k <= Limit(o, prior);
      Chunk(before, m.state, w, prior, n, k);
      m.Do(Save(w, k));
      n := k;
    }
    EndCopy(m, before, w, prior, o);
  }

  /** Closing the backup, or leaving it as it is when writing has raised. */
  method EndCopy(m: Machine, ghost s: State, w: Writer, prior: octets, o: BackupOutcome)
    requires m.Valid() && w in s.jobs && Filled(s, m.state, w, prior, Limit(o, prior)) && (o.BackupWorks? || o.WriteRaises?)
    modifies m
    ensures Mine(m, w) && Copied(s, m.state, w, prior, o)
  {
    Ended(s, m.state, w, prior, o);
    if o.BackupWorks? {
      m.Do(SaveDone(w));
    } else {
      m.Do(NoBackup(w));
    }
  }

  /** `.bak` and what the call remembers of the old file after trying a backup. */
  predicate BackedUpAs(s: State, t: State, w: Writer, o: BackupOutcome)
    requires w in s.jobs
  {
    var prior, bak := Value(s, s.jobs[w].dest), Value(s, BackupName(s.jobs[w].dest));
    && At(t, w) && TempKept(s, t, w) && SameLocksAndHistory(s, t)
    && t.pcs[w] == Replacing(if o.BackupWorks? then prior else None, 0)
    && Value(t, BackupName(s.jobs[w].dest)) == (if prior.Some? then BackupAfter(o, prior.value, bak) else bak)
  }

  lemma OldRead(s: State, w: Writer)
    requires At(s, w) && s.pcs[w].Locked? && Dest(s, w) in s.disk.vdir
    ensures Enabled(s, ReadOld(w))
    ensures var t := Apply(s, ReadOld(w));
            && At(t, w) && t.pcs[w] == Copying(Content(s.disk.vdata, s.disk.vdir[Dest(s, w)]))
            && t.jobs == s.jobs && t.disk == s.disk && SameLocksAndHistory(s, t)
  {
  }

  lemma NotOpened(s: State, t: State, w: Writer, prior: octets)
    requires At(t, w) && t.pcs[w] == Copying(prior) && t.jobs == s.jobs && t.disk == s.disk && SameLocksAndHistory(s, t)
    ensures Enabled(t, NoBackup(w)) && BackedUpAs(s, Apply(t, NoBackup(w)), w, OpenRaises)
  {
  }

  lemma CopiedIsBackedUp(s: State, t: State, u: State, w: Writer, o: BackupOutcome)
    requires w in s.jobs && Dest(s, w) in s.disk.vdir && (o.BackupWorks? || o.WriteRaises?)
    requires t.jobs == s.jobs && t.disk == s.disk && SameLocksAndHistory(s, t) && u.jobs == s.jobs
    requires Copied(t, u, w, Content(s.disk.vdata, s.disk.vdir[Dest(s, w)]), o)
    ensures BackedUpAs(s, u, w, o)
  {
  }

  /** Lines 92 to 98: the old file, if there is one, goes to `.bak`; an OSError is swallowed. The call
      remembers the old bytes exactly when it copied them all. */
  method MakeBackup(m: Machine, w: Writer, o: BackupOutcome)
    requires m.Valid() && At(m.state, w) && m.state.pcs[w].Locked?
    modifies m
    ensures Mine(m, w) && BackedUpAs(old(m.state), m.state, w, o)
  {
    if Dest(m.state, w) !in m.state.disk.vdir {
      m.Do(Absent(w));
    } else if o.ReadRaises? {
      m.Do(NoBackup(w));
    } else {
      ReadAndCopy(m, w, o);
    }
  }

  /** Line 95: read the old file, then write it to the backup. */
  method ReadAndCopy(m: Machine, w: Writer, o: BackupOutcome)
    requires m.Valid() && At(m.state, w) && m.state.pcs[w].Locked? && Dest(m.state, w) in m.state.disk.vdir
    requires !o.ReadRaises?
    modifies m
    ensures Mine(m, w) && BackedUpAs(old(m.state), m.state, w, o)
  {
    ghost var before := m.state;
    var prior := Content(m.state.disk.vdata, m.state.disk.vdir[Dest(m.state, w)]);
    OldRead(before, w);
    m.Do(ReadOld(w));
    ghost var read := m.state;
    if o.OpenRaises? {
      NotOpened(before, read, w, prior);
      m.Do(NoBackup(w));
    } else {
      CopyToBackup(m, w, prior, o);
      CopiedIsBackedUp(before, read, m.state, w, o);
    }
  }

  /** Exactly one replacement was added to the log, by `w`, of `bytes`. */
  predicate LoggedOne(s: State, t: State, w: Writer, bytes: octets) {
    && |t.history.log| == |s.history.log| + 1
    && t.history.log[..|s.history.log|] == s.history.log
    && t.history.log[|s.history.log|].w == w && t.history.log[|s.history.log|].bytes == bytes
  }

  /** `k` attempts have failed, and changed nothing but their count. */
  predicate Trying(s: State, t: State, w: Writer, k: nat) {
    At(t, w) && t.pcs[w].Replacing? && t.pcs[w].tries == k && t.disk == s.disk && SameLocksAndHistory(s, t)
  }

  /** All attempts are over: one replaced, or nothing happened. */
  predicate Tried(s: State, t: State, w: Writer, ok: bool) {
    && Is(t, w) && t.pcs[w].Leaving? && t.pcs[w].ok == ok && t.locks == s.locks
    && (if ok then LoggedOne(s, t, w, Content(s.disk.vdata, TempFile(w))) else t.history == s.history && t.disk == s.disk)
    && Value(t, BackupName(t.jobs[w].dest)) == Value(s, BackupName(t.jobs[w].dest))
  }

  lemma ReplacedOnce(s: State, t: State, w: Writer, k: nat)
    requires Trying(s, t, w, k)
    ensures Enabled(t, Replace(w)) && Tried(s, Apply(t, Replace(w)), w, true)
  {
    OnlyRelinked(t, Replace(w), Backup(t, w));
  }

  lemma TriesAgain(s: State, t: State, w: Writer, k: nat)
    requires Trying(s, t, w, k)
    ensures k < 9 ==> Enabled(t, Retry(w)) && Trying(s, Apply(t, Retry(w)), w, k + 1)
    ensures Enabled(t, GiveUp(w)) && Tried(s, Apply(t, GiveUp(w)), w, false)
  {
  }

  /** One turn of the loop; `over`: it returned or raised. */
  method TryReplace(m: Machine, ghost s: State, w: Writer, attempt: nat, outcome: ReplaceOutcome) returns (over: bool)
    requires m.Valid() && Trying(s, m.state, w, attempt) && attempt < 10
    modifies m
    ensures Mine(m, w) && |m.trace| == |old(m.trace)| + 1
    ensures over <==> !outcome.SharingViolation? || attempt == 9
    ensures if over then Tried(s, m.state, w, outcome.Replaced?) else Trying(s, m.state, w, attempt + 1)
  {
    if outcome.Replaced? {
      ReplacedOnce(s, m.state, w, attempt);
      m.Do(Replace(w));
      return true;
    }
    TriesAgain(s, m.state, w, attempt);
    if !outcome.SharingViolation? || attempt == 9 {
      m.Do(GiveUp(w));
      return true;
    }
    m.Do(Retry(w));
    return false;
  }

  /** Lines 42 to 51: at most ten attempts, retrying only sharing violations. */
  method ReplaceWithRetry(m: Machine, w: Writer, attempts: nat -> ReplaceOutcome) returns (ok: bool)
    requires m.Valid() && At(m.state, w) && m.state.pcs[w].Replacing? && m.state.pcs[w].tries == 0
    modifies m
    ensures Mine(m, w) && |m.trace| - |old(m.trace)| <= 10
    ensures (ok <==> Replaceable(attempts)) && Tried(old(m.state), m.state, w, ok)
  {
    ghost var before := m.state;
    for attempt := 0 to 10
      invariant Mine(m, w) && |m.trace| == |old(m.trace)| + attempt
      invariant Trying(before, m.state, w, attempt)
      invariant attempt < 10 && Busy(attempts, attempt)
    {
      var outcome := attempts(attempt);
      Decides(attempts, attempt);
      var over := TryReplace(m, before, w, attempt, outcome);
      if over { return outcome.Replaced?; }
    }
    assert false;
    ok := false;
  }

  lemma LockThenUnlock(locks: map<(Process, string), Writer>, k: (Process, string), w: Writer)
    requires k !in locks
    ensures Without(locks[k := w], k) == locks
  {
  }

  /** What the locked part did: `.bak`, and the replacement if there was one. */
  ghost predicate Swapped(s: State, t: State, w: Writer, os: Os, ok: bool)
    requires w in s.jobs
  {
    var dest, bak := Value(s, s.jobs[w].dest), Value(s, BackupName(s.jobs[w].dest));
    && Value(t, BackupName(s.jobs[w].dest)) ==
       (if os.looks && dest.Some? then BackupAfter(os.backup, dest.value, bak) else bak)
    && (if ok then Apart(s, w) ==> LoggedOne(s, t, w, Content(s.disk.vdata, TempFile(w)))
        else t.history.log == s.history.log)
  }

  /** Lines 91 to 101: what is done while the lock is held. */
  method LookAndReplace(m: Machine, w: Writer, os: Os) returns (ok: bool)
    requires m.Valid() && At(m.state, w) && m.state.pcs[w].Locked?
    modifies m
    ensures Mine(m, w) && m.state.pcs[w].Leaving? && m.state.pcs[w].ok == ok && m.state.locks == old(m.state.locks)
    ensures ok <==> os.looks && Replaceable(os.attempts)
    ensures Swapped(old(m.state), m.state, w, os, ok)
  {
    if !os.looks {
      m.Do(GiveUp(w));
      return false;
    }
    MakeBackup(m, w, os.backup);
    ok := ReplaceWithRetry(m, w, os.attempts);
  }

  lemma LockChangesNoFile(s: State, t: State, u: State, v: State, w: Writer, os: Os, ok: bool)
    requires w in s.jobs && w in t.jobs && t.jobs == s.jobs && Swapped(t, u, w, os, ok)
    requires t.disk == s.disk && t.history.log == s.history.log
    requires v.disk == u.disk && v.history.log == u.history.log
    ensures Swapped(s, v, w, os, ok)
  {
  }

  /** Lines 90 to 101: everything done under the path lock. */
  method BackupAndReplace(m: Machine, w: Writer, os: Os) returns (ok: bool)
    requires m.Valid() && At(m.state, w) && m.state.pcs[w].Ready? && Key(m.state, w) !in m.state.locks
    modifies m
    ensures Mine(m, w) && m.state.pcs[w] == Cleanup(ok) && m.state.locks == old(m.state.locks)
    ensures ok <==> os.looks && Replaceable(os.attempts)
    ensures Swapped(old(m.state), m.state, w, os, ok)
  {
    LockThenUnlock(m.state.locks, Key(m.state, w), w);
    m.Do(Lock(w));
    ghost var locked := m.state;
    ok := LookAndReplace(m, w, os);
    ghost var done := m.state;
    m.Do(Unlock(w));
    LockChangesNoFile(old(m.state), locked, done, m.state, w, os, ok);
  }

  // ----- The whole call ---------------------------------------------------------------------

  /** Neither the destination nor the backup is the call's temporary file. */
  predicate FilesApart(s: State, w: Writer)
    requires w in s.jobs
  {
    && (Dest(s, w) in s.disk.vdir ==> s.disk.vdir[Dest(s, w)] != TempFile(w))
    && Apart(s, w)
  }

  lemma BesidesKeeps(s: State, t: State, w: Writer)
    requires w in s.jobs && t.jobs == s.jobs && Besides(s, t, w) && FilesApart(s, w)
    ensures Apart(t, w)
    ensures Value(t, s.jobs[w].dest) == Value(s, s.jobs[w].dest)
    ensures Value(t, BackupName(s.jobs[w].dest)) == Value(s, BackupName(s.jobs[w].dest))
  {
    assert Dest(s, w) != Temp(w) && Backup(s, w) != Temp(w);
  }

  /** What one call does to its own files and to the log. */
  ghost predicate Wrote(s: State, t: State, w: Writer, os: Os, ok: bool)
    requires w in s.jobs
  {
    var j := s.jobs[w];
    && (if ok then LoggedOne(s, t, w, Reached(os, j.data)) else t.history.log == s.history.log)
    && Value(t, BackupName(j.dest)) == BackupLeft(os, j, Value(s, j.dest), Value(s, BackupName(j.dest)))
  }

  lemma NeverLocked(s: State, t: State, w: Writer, os: Os)
    requires w in s.jobs && t.jobs == s.jobs && FilesApart(s, w) && Besides(s, t, w)
    requires t.history.log == s.history.log && !GetsToLock(os, s.jobs[w])
    ensures Wrote(s, t, w, os, false)
  {
    BesidesKeeps(s, t, w);
  }

  lemma SwappedIsWritten(s: State, t: State, u: State, w: Writer, os: Os, ok: bool)
    requires w in s.jobs && t.jobs == s.jobs && FilesApart(s, w) && Besides(s, t, w)
    requires t.history.log == s.history.log && GetsToLock(os, s.jobs[w])
    requires Content(t.disk.vdata, TempFile(w)) == Reached(os, s.jobs[w].data)
    requires Swapped(t, u, w, os, ok)
    ensures Wrote(s, u, w, os, ok)
  {
    BesidesKeeps(s, t, w);
  }

  /** Lines 68 to 86: make the temporary file, write it, verify it. */
  method WriteTemp(m: Machine, w: Writer, os: Os) returns (ok: bool)
    requires m.Valid() && Is(m.state, w) && m.state.pcs[w].Idle? && Temp(w) !in m.state.disk.vdir && os.temp
    modifies m
    ensures Mine(m, w) && Besides(old(m.state), m.state, w) && m.state.locks == old(m.state.locks)
    ensures m.state.history.log == old(m.state.history.log)
    ensures ok <==> GetsToLock(os, m.state.jobs[w])
    ensures if ok then At(m.state, w) && m.state.pcs[w].Ready? else m.state.pcs[w] == Cleanup(false)
    ensures Content(m.state.disk.vdata, TempFile(w)) == Reached(os, m.state.jobs[w].data)
  {
    m.Do(Begin(w));
    WriteData(m, w, os);
    ok := SyncAndVerify(m, w, os);
  }

  /** Lines 68 to 101: everything between making the temporary file and the final unlink. */
  method WriteAndReplace(m: Machine, w: Writer, os: Os) returns (ok: bool)
    requires m.Valid() && Is(m.state, w) && m.state.pcs[w].Idle? && Temp(w) !in m.state.disk.vdir && os.temp
    requires Key(m.state, w) !in m.state.locks
    modifies m
    ensures Mine(m, w) && m.state.pcs[w] == Cleanup(ok) && m.state.locks == old(m.state.locks)
    ensures ok <==> Succeeds(os, m.state.jobs[w])
    ensures FilesApart(old(m.state), w) ==> Wrote(old(m.state), m.state, w, os, ok)
  {
    ghost var before := m.state;
    ok := WriteTemp(m, w, os);
    ghost var ready := m.state;
    if ok {
      ok := BackupAndReplace(m, w, os);
      if FilesApart(before, w) { SwappedIsWritten(before, ready, m.state, w, os, ok); }
    } else if FilesApart(before, w) {
      NeverLocked(before, ready, w, os);
    }
  }

  /** Lines 102 and 103: the temporary file goes, if it can. */
  method Unlinks(m: Machine, ghost s: State, w: Writer, os: Os, ok: bool)
    requires m.Valid() && Is(m.state, w) && m.state.pcs[w] == Cleanup(ok) && m.state.jobs == s.jobs
    requires FilesApart(s, w) ==> Wrote(s, m.state, w, os, ok)
    modifies m
    ensures Mine(m, w) && m.state.locks == old(m.state.locks) && m.state.pcs[w] == Done(ok, os.unlinks)
    ensures FilesApart(s, w) ==> Wrote(s, m.state, w, os, ok)
  {
    if os.unlinks {
      m.Do(Unlink(w));
    } else {
      m.Do(UnlinkFails(w));
    }
  }

  // ----- On a machine that started quietly -----------------------------------------------------

  /** After `w` returned: its destination holds what it wrote, `.bak` what it backed up, and no other
      destination changed, nor its own if it failed. */
  ghost predicate Installs(s: State, t: State, w: Writer, os: Os, ok: bool)
    requires w in s.jobs
  {
    var j := s.jobs[w];
    && (ok ==> Value(t, j.dest) == Some(Reached(os, j.data)))
    && (forall d :: d in Dests(t.jobs) && !(ok && d == j.dest) ==> Value(t, d) == Value(s, d))
    && Value(t, BackupName(j.dest)) == BackupLeft(os, j, Value(s, j.dest), Value(s, BackupName(j.dest)))
  }

  lemma IdleApart(s0: State, s: State, w: Writer)
    requires LogInv(s0, s) && Is(s, w) && s.pcs[w].Idle?
    ensures FilesApart(s, w)
  {
    assert s.jobs[w].dest in Dests(s.jobs);
    assert PcOkAt(s, w);
    if Dest(s, w) in s.disk.vdir { assert MayStand(s.jobs, s.history.sealed, Dest(s, w), s.disk.vdir[Dest(s, w)]); }
    BackupInodeKind(s0, s, w);
  }

  lemma LatestAfter(s: State, t: State, w: Writer, bytes: octets, d: string)
    requires t.jobs == s.jobs && LoggedOne(s, t, w, bytes) && w in s.jobs
    ensures Latest(t.jobs, t.history.log, s.history.base, d) ==
            if s.jobs[w].dest == d then Some(bytes) else Latest(s.jobs, s.history.log, s.history.base, d)
  {
    assert t.history.log != [];
  }

  lemma WroteInstalls(s: State, t: State, w: Writer, os: Os, ok: bool)
    requires ValuesFollow(s) && ValuesFollow(t) && t.jobs == s.jobs && w in s.jobs && t.history.base == s.history.base
    requires Wrote(s, t, w, os, ok)
    ensures Installs(s, t, w, os, ok)
  {
    assert s.jobs[w].dest in Dests(s.jobs);
    forall d | d in Dests(t.jobs)
      ensures Value(t, d) == if ok && d == s.jobs[w].dest then Some(Reached(os, s.jobs[w].data)) else Value(s, d)
    {
      if ok { LatestAfter(s, t, w, Reached(os, s.jobs[w].data), d); }
    }
  }

  /** Any two states of a machine whose steps since a quiet start are known. */
  lemma CallInstalls(start: State, before: seq<Action>, s: State, after: seq<Action>, t: State, w: Writer, os: Os, ok: bool)
    requires LeadsTo(start, before, s) && LeadsTo(start, after, t)
    requires Is(s, w) && s.pcs[w].Idle? && t.jobs == s.jobs && t.history.base == s.history.base
    requires FilesApart(s, w) ==> Wrote(s, t, w, os, ok)
    ensures Init(start) ==> Installs(s, t, w, os, ok)
  {
    if Init(start) {
      Reachable(start, before);
      Reachable(start, after);
      IdleApart(start, s, w);
      WroteInstalls(s, t, w, os, ok);
    }
  }

  /** Lines 53 to 103. `ok` tells whether it replaced, which `os` decides; a last unlink that fails
      raises even then. The call ends, holds no lock, and everything it did is a run of the protocol
      in which it alone moved. On a machine that started quietly, it leaves at its destination what
      it wrote, at `.bak` what it backed up, and every other destination as it was. */
  method AtomicWriteBytes(m: Machine, w: Writer, os: Os) returns (ok: bool)
    requires m.Valid() && Is(m.state, w) && m.state.pcs[w].Idle? && Temp(w) !in m.state.disk.vdir
    requires Key(m.state, w) !in m.state.locks
    modifies m
    ensures Mine(m, w) && m.state.locks == old(m.state.locks)
    ensures m.state.pcs[w] == Done(ok, !os.temp || os.unlinks) && (ok <==> Succeeds(os, m.state.jobs[w]))
    ensures Init(m.start) ==> Installs(old(m.state), m.state, w, os, ok)
  {
    ghost var before, steps := m.state, m.trace;
    if os.temp {
      ok := WriteAndReplace(m, w, os);
      Unlinks(m, before, w, os, ok);
    } else {
      m.Do(NoTemp(w));
      ok := false;
      if FilesApart(before, w) { NeverLocked(before, m.state, w, os); }
    }
    CallInstalls(m.start, steps, before, m.trace, m.state, w, os, ok);
  }
}
