// atomic_write_bytes as a protocol: any number of calls, in any number of processes,
// interleave their steps with each other, with the kernel writing dirty data and
// directory entries back, and with crashes.
module AtomicWrite {
  import opened Prelude

  type Writer = nat
  type Process = nat

  /** One call of atomic_write_bytes; `dest` is the resolved destination. */
  datatype Job = Job(dest: string, data: octets, verify: bool, process: Process)

  /** mkstemp never hands out a name twice, so a temporary name belongs to one call. */
  datatype Path = File(name: string) | Temp(w: Writer)

  /** A file on disk, called after what created it. */
  datatype Inode = Original(path: Path) | TempFile(w: Writer) | BackupFile(w: Writer)

  function BackupName(dest: string): string { dest + ".bak" }

  datatype Pc =
    | Idle
    | Writing
    | Synced
    | Ready
    | Locked
    | Copying(prior: octets)
    | Saving(prior: octets, inode: Inode, n: nat)
    | Replacing(saved: Option<octets>, tries: nat)
    | Leaving(ok: bool, saved: Option<octets>)
    | Cleanup(ok: bool)
    | Done(ok: bool, clean: bool)
    | Dead

  /** One successful os.replace: what it overwrote and what it installed. */
  datatype Replacement = Replacement(w: Writer, before: Option<octets>, bytes: octets)

  /** `vdir`/`vdata` is what running processes see, `ddir`/`ddata` what a crash leaves. */
  datatype Disk = Disk(vdir: map<Path, Inode>, ddir: map<Path, Inode>,
                       vdata: map<Inode, octets>, ddata: map<Inode, octets>)

  /** The calls that passed step 3, the order of lock acquisitions, and since the last boot
      the replacements made and the files found. */
  datatype History = History(sealed: set<Writer>, tickets: map<Writer, nat>, clock: nat,
                             log: seq<Replacement>, base: map<string, octets>)

  datatype State = State(jobs: map<Writer, Job>, pcs: map<Writer, Pc>, disk: Disk,
                         locks: map<(Process, string), Writer>, history: History)

  datatype Action =
    | Begin(w: Writer) | NoTemp(w: Writer)
    | Write(w: Writer, n: nat) | Sync(w: Writer) | Verify(w: Writer) | Fail(w: Writer)
    | Lock(w: Writer)
    | Absent(w: Writer) | ReadOld(w: Writer) | OpenBackup(w: Writer) | Save(w: Writer, n: nat)
    | SaveDone(w: Writer) | NoBackup(w: Writer)
    | Replace(w: Writer) | Retry(w: Writer) | GiveUp(w: Writer)
    | Unlock(w: Writer) | Unlink(w: Writer) | UnlinkFails(w: Writer)
    | WriteBack(i: Inode, c: octets) | FlushEntry(p: Path) | Crash | Kill(process: Process)

  function Content(data: map<Inode, octets>, i: Inode): octets { if i in data then data[i] else [] }

  function Dest(s: State, w: Writer): Path
    requires w in s.jobs
  {
    File(s.jobs[w].dest)
  }

  function Backup(s: State, w: Writer): Path
    requires w in s.jobs
  {
    File(BackupName(s.jobs[w].dest))
  }

  function Key(s: State, w: Writer): (Process, string)
    requires w in s.jobs
  {
    (s.jobs[w].process, s.jobs[w].dest)
  }

  /** A write of `bs` at offset `at` of an open file. */
  function Overlay(c: octets, at: nat, bs: octets): octets {
    (if at <= |c| then c[..at] else c + seq(at - |c|, i => 0)) + bs
    + (if at + |bs| <= |c| then c[at + |bs|..] else [])
  }

  function Without<K, V>(m: map<K, V>, k: K): map<K, V> { m - {k} }

  predicate HoldsLock(pc: Pc) {
    pc.Locked? || pc.Copying? || pc.Saving? || pc.Replacing? || pc.Leaving?
  }

  /** The call a step belongs to, if any. */
  function Actor(a: Action): Option<Writer> {
    match a
    case WriteBack(_, _) => None
    case FlushEntry(_) => None
    case Crash => None
    case Kill(_) => None
    case _ => Some(a.w)
  }

  // ----- Steps ---------------------------------------------------------------

  predicate Is(s: State, w: Writer) { w in s.jobs && w in s.pcs }

  predicate Enabled(s: State, a: Action) {
    match a
    case Begin(w) => Is(s, w) && s.pcs[w].Idle? && Temp(w) !in s.disk.vdir
    case NoTemp(w) => Is(s, w) && s.pcs[w].Idle?
    case Write(w, n) =>
      Is(s, w) && s.pcs[w].Writing? && |Content(s.disk.vdata, TempFile(w))| <= n <= |s.jobs[w].data|
    case Sync(w) => Is(s, w) && s.pcs[w].Writing?
    case Verify(w) => Is(s, w) && s.pcs[w].Synced?
    case Fail(w) => Is(s, w) && (s.pcs[w].Writing? || s.pcs[w].Synced? || s.pcs[w].Ready?)
    case Lock(w) => Is(s, w) && s.pcs[w].Ready? && Key(s, w) !in s.locks
    case Absent(w) => Is(s, w) && s.pcs[w].Locked? && Dest(s, w) !in s.disk.vdir
    case ReadOld(w) => Is(s, w) && s.pcs[w].Locked? && Dest(s, w) in s.disk.vdir
    case OpenBackup(w) => Is(s, w) && s.pcs[w].Copying?
    case Save(w, n) => Is(s, w) && s.pcs[w].Saving? && s.pcs[w].n <= n <= |s.pcs[w].prior|
    case SaveDone(w) => Is(s, w) && s.pcs[w].Saving? && s.pcs[w].n == |s.pcs[w].prior|
    case NoBackup(w) =>
      Is(s, w) && ((s.pcs[w].Locked? && Dest(s, w) in s.disk.vdir) || s.pcs[w].Copying? || s.pcs[w].Saving?)
    case Replace(w) => Is(s, w) && s.pcs[w].Replacing? && Temp(w) in s.disk.vdir
    case Retry(w) => Is(s, w) && s.pcs[w].Replacing? && s.pcs[w].tries < 9
    case GiveUp(w) => Is(s, w) && (s.pcs[w].Locked? || s.pcs[w].Replacing?)
    case Unlock(w) => Is(s, w) && s.pcs[w].Leaving?
    case Unlink(w) => Is(s, w) && s.pcs[w].Cleanup?
    case UnlinkFails(w) => Is(s, w) && s.pcs[w].Cleanup?
    case WriteBack(i, c) => Content(s.disk.vdata, i) != Content(s.disk.ddata, i)
    case FlushEntry(p) => true
    case Crash => true
    case Kill(p) => true
  }

  function BackupInode(s: State, w: Writer): Inode
    requires w in s.jobs
  {
    if Backup(s, w) in s.disk.vdir then s.disk.vdir[Backup(s, w)] else BackupFile(w)
  }

  /** Step 3: with verification on, the file just synced must hold the data. */
  predicate Passes(s: State, w: Writer)
    requires w in s.jobs
  {
    s.jobs[w].verify ==> Content(s.disk.vdata, TempFile(w)) == s.jobs[w].data
  }

  /** Where the acting call goes next. */
  function PcAfter(s: State, a: Action): Pc
    requires Enabled(s, a) && Actor(a).Some?
  {
    var pc := s.pcs[Actor(a).value];
    match a
    case Begin(w) => Writing
    case NoTemp(w) => Done(false, true)
    case Write(w, n) => Writing
    case Sync(w) => Synced
    case Verify(w) => if Passes(s, w) then Ready else Cleanup(false)
    case Fail(w) => Cleanup(false)
    case Lock(w) => Locked
    case Absent(w) => Replacing(None, 0)
    case ReadOld(w) => Copying(Content(s.disk.vdata, s.disk.vdir[Dest(s, w)]))
    case OpenBackup(w) => Saving(pc.prior, BackupInode(s, w), 0)
    case Save(w, n) => Saving(pc.prior, pc.inode, n)
    case SaveDone(w) => Replacing(Some(pc.prior), 0)
    case NoBackup(w) => Replacing(None, 0)
    case Replace(w) => Leaving(true, pc.saved)
    case Retry(w) => Replacing(pc.saved, pc.tries + 1)
    case GiveUp(w) => Leaving(false, None)
    case Unlock(w) => Cleanup(pc.ok)
    case Unlink(w) => Done(pc.ok, true)
    case UnlinkFails(w) => Done(pc.ok, false)
  }

  function PcsAfter(s: State, a: Action): map<Writer, Pc>
    requires Enabled(s, a)
  {
    match a
    case WriteBack(_, _) => s.pcs
    case FlushEntry(_) => s.pcs
    case Crash => map w | w in s.pcs :: if s.pcs[w].Idle? || s.pcs[w].Done? then s.pcs[w] else Dead
    case Kill(p) =>
      map w | w in s.pcs ::
        if w in s.jobs && s.jobs[w].process == p && !s.pcs[w].Done? then Dead else s.pcs[w]
    case _ => s.pcs[Actor(a).value := PcAfter(s, a)]
  }

  function DiskAfter(s: State, a: Action): Disk
    requires Enabled(s, a)
  {
    var k := s.disk;
    match a
    case Begin(w) => k.(vdir := k.vdir[Temp(w) := TempFile(w)], vdata := k.vdata[TempFile(w) := []])
    case Write(w, n) =>
      var c := Content(k.vdata, TempFile(w));
      k.(vdata := k.vdata[TempFile(w) := c + s.jobs[w].data[|c|..n]])
    case Sync(w) => k.(ddata := k.ddata[TempFile(w) := Content(k.vdata, TempFile(w))])
    case OpenBackup(w) =>
      var i := BackupInode(s, w);
      k.(vdir := k.vdir[Backup(s, w) := i], vdata := k.vdata[i := []])
    case Save(w, n) =>
      var Saving(prior, i, m) := s.pcs[w];
      k.(vdata := k.vdata[i := Overlay(Content(k.vdata, i), m, prior[m..n])])
    case Replace(w) => k.(vdir := Without(k.vdir, Temp(w))[Dest(s, w) := k.vdir[Temp(w)]])
    case Unlink(w) => k.(vdir := Without(k.vdir, Temp(w)))
    case WriteBack(i, c) => k.(ddata := k.ddata[i := c])
    case FlushEntry(p) => k.(ddir := if p in k.vdir then k.ddir[p := k.vdir[p]] else Without(k.ddir, p))
    case Crash => k.(vdir := k.ddir, vdata := k.ddata)
    case _ => k
  }

  function LocksAfter(s: State, a: Action): map<(Process, string), Writer>
    requires Enabled(s, a)
  {
    match a
    case Lock(w) => s.locks[Key(s, w) := w]
    case Unlock(w) => Without(s.locks, Key(s, w))
    case Crash => map[]
    case Kill(p) => map k | k in s.locks && k.0 != p :: s.locks[k]
    case _ => s.locks
  }

  function HistoryAfter(s: State, a: Action): History
    requires Enabled(s, a)
  {
    var h := s.history;
    match a
    case Verify(w) => if Passes(s, w) then h.(sealed := h.sealed + {w}) else h
    case Lock(w) => h.(tickets := h.tickets[w := h.clock], clock := h.clock + 1)
    case Replace(w) =>
      h.(log := h.log + [Replacement(w, Value(s, s.jobs[w].dest), Content(s.disk.vdata, s.disk.vdir[Temp(w)]))])
    case Crash => h.(log := [], base := Files(s.disk.ddir, s.disk.ddata))
    case _ => h
  }

  function Apply(s: State, a: Action): State
    requires Enabled(s, a)
  {
    State(s.jobs, PcsAfter(s, a), DiskAfter(s, a), LocksAfter(s, a), HistoryAfter(s, a))
  }

  // ----- What a reader of a destination sees ---------------------------------

  function View(dir: map<Path, Inode>, data: map<Inode, octets>, name: string): Option<octets> {
    if File(name) in dir then Some(Content(data, dir[File(name)])) else None
  }

  /** The bytes at `name` as running processes see them; None when there is no such file. */
  function Value(s: State, name: string): Option<octets> { View(s.disk.vdir, s.disk.vdata, name) }

  /** The bytes at `name` after a crash now and recovery. */
  function Durable(s: State, name: string): Option<octets> { View(s.disk.ddir, s.disk.ddata, name) }

  function Files(dir: map<Path, Inode>, data: map<Inode, octets>): map<string, octets> {
    map p | p in dir && p.File? :: p.name := Content(data, dir[p])
  }

  predicate ValidRun(s: State, acts: seq<Action>)
    decreases |acts|
  {
    acts == [] || (Enabled(s, acts[0]) && ValidRun(Apply(s, acts[0]), acts[1..]))
  }

  function Run(s: State, acts: seq<Action>): State
    requires ValidRun(s, acts)
    decreases |acts|
  {
    if acts == [] then s else Run(Apply(s, acts[0]), acts[1..])
  }

  lemma OneMore(s: State, a: Action, rest: seq<Action>)
    requires Enabled(s, a) && ValidRun(Apply(s, a), rest)
    ensures ValidRun(s, [a] + rest) && Run(s, [a] + rest) == Run(Apply(s, a), rest)
  {
    assert ([a] + rest)[1..] == rest;
  }

  lemma ConsConcat(s: State, a: Action, rest: seq<Action>, more: seq<Action>)
    requires Enabled(s, a) && ValidRun(Apply(s, a), rest + more)
    ensures ValidRun(s, [a] + rest + more) && Run(s, [a] + rest + more) == Run(Apply(s, a), rest + more)
  {
    assert [a] + rest + more == [a] + (rest + more);
    OneMore(s, a, rest + more);
  }

  lemma {:induction false} RunConcat(s: State, acts: seq<Action>, more: seq<Action>)
    requires ValidRun(s, acts) && ValidRun(Run(s, acts), more)
    ensures ValidRun(s, acts + more) && Run(s, acts + more) == Run(Run(s, acts), more)
    decreases |acts|
  {
    if acts == [] {
      assert acts + more == more;
    } else {
      RunConcat(Apply(s, acts[0]), acts[1..], more);
      ConsConcat(s, acts[0], acts[1..], more);
      assert acts == [acts[0]] + acts[1..];
    }
  }

  lemma RunSnoc(s: State, acts: seq<Action>, a: Action)
    requires ValidRun(s, acts) && Enabled(Run(s, acts), a)
    ensures ValidRun(s, acts + [a]) && Run(s, acts + [a]) == Apply(Run(s, acts), a)
  {
    OneMore(Run(s, acts), a, []);
    assert [a] + [] == [a];
    RunConcat(s, acts, [a]);
  }

  function Dests(jobs: map<Writer, Job>): set<string> { set w | w in jobs :: jobs[w].dest }

  /** No destination is another destination's backup. */
  ghost predicate Separated(jobs: map<Writer, Job>) {
    forall d :: d in Dests(jobs) ==> BackupName(d) !in Dests(jobs)
  }

  /** A quiet machine: every file on disk, no call begun. */
  ghost predicate Init(s: State) {
    && Separated(s.jobs)
    && s.pcs.Keys == s.jobs.Keys && (forall w :: w in s.pcs ==> s.pcs[w] == Idle)
    && (forall p :: p in s.disk.vdir ==> p.File? && s.disk.vdir[p] == Original(p))
    && s.disk.vdir == s.disk.ddir && s.disk.vdata == s.disk.ddata
    && s.locks == map[]
    && s.history == History({}, map[], 0, [], Files(s.disk.vdir, s.disk.vdata))
  }
}
