// Runs that show where the guarantees of the protocol end, and the exact conditions they give.
module AtomicWitness {
  import opened Prelude
  import opened AtomicWrite
  import opened AtomicSafety
  import opened AtomicOrder
  import opened AtomicBackup

  // ----- When replacements are complete ------------------------------------------------

  /** Every replacement in the log installed all of its call's data. */
  ghost predicate LogFull(s: State) {
    forall i :: 0 <= i < |s.history.log| ==>
      s.history.log[i].w in s.jobs && s.history.log[i].bytes == s.jobs[s.history.log[i].w].data
  }

  /** Where the short call stands: its file is empty, nobody has replaced anything. */
  ghost predicate Stage(s0: State, s: State, w: Writer, pc: Pc) {
    && s.jobs == s0.jobs && w in s.jobs && !s.jobs[w].verify
    && w in s.pcs && s.pcs[w] == pc
    && Temp(w) in s.disk.vdir && s.disk.vdir[Temp(w)] == TempFile(w)
    && Content(s.disk.vdata, TempFile(w)) == []
    && (Dest(s, w) in s.disk.vdir <==> Dest(s, w) in s0.disk.vdir)
    && Value(s, s.jobs[w].dest) == Value(s0, s.jobs[w].dest)
    && s.locks.Keys <= {Key(s, w)} && (pc.Ready? ==> s.locks == map[])
    && (pc.Writing? || pc.Synced? ==> s.locks == map[])
    && s.history.log == []
  }

  lemma StageBegin(s0: State, w: Writer)
    requires Init(s0) && w in s0.jobs && !s0.jobs[w].verify
    ensures Enabled(s0, Begin(w)) && Stage(s0, Apply(s0, Begin(w)), w, Writing)
  {
    if Dest(s0, w) in s0.disk.vdir { assert s0.disk.vdir[Dest(s0, w)] == Original(Dest(s0, w)); }
  }

  lemma StageStep(s0: State, s: State, a: Action, w: Writer, pc: Pc)
    requires Stage(s0, s, w, pc) && Enabled(s, a)
    requires a == Sync(w) || a == Verify(w) || a == Lock(w) || a == NoBackup(w) || a == Absent(w)
    ensures Stage(s0, Apply(s, a), w, PcAfter(s, a))
  {
  }

  /** The log of a machine on which `w` alone has replaced, with an empty file. */
  ghost predicate Torn(s0: State, s: State, w: Writer)
    requires w in s0.jobs
  {
    s.jobs == s0.jobs && s.history.log == [Replacement(w, Value(s0, s0.jobs[w].dest), [])]
  }

  lemma StageReplace(s0: State, s: State, w: Writer) returns (acts: seq<Action>)
    requires Stage(s0, s, w, Replacing(None, 0))
    ensures ValidRun(s, acts) && Torn(s0, Run(s, acts), w)
  {
    OneMore(s, Replace(w), []);
    acts := [Replace(w)] + [];
  }

  /** The locked part of a call that makes no backup. */
  lemma StageLock(s0: State, s: State, w: Writer) returns (acts: seq<Action>)
    requires Stage(s0, s, w, Ready)
    ensures ValidRun(s, acts) && Torn(s0, Run(s, acts), w)
  {
    StageStep(s0, s, Lock(w), w, Ready);
    var locked := Apply(s, Lock(w));
    var skip := if Dest(s0, w) in s0.disk.vdir then NoBackup(w) else Absent(w);
    StageStep(s0, locked, skip, w, Locked);
    acts := StageReplace(s0, Apply(locked, skip), w);
    OneMore(locked, skip, acts);
    acts := [skip] + acts;
    OneMore(s, Lock(w), acts);
    acts := [Lock(w)] + acts;
  }

  /** fsync returns although nothing was written, and nobody looks. */
  lemma StageSync(s0: State, s: State, w: Writer) returns (acts: seq<Action>)
    requires Stage(s0, s, w, Writing)
    ensures ValidRun(s, acts) && Torn(s0, Run(s, acts), w)
  {
    StageStep(s0, s, Sync(w), w, Writing);
    var synced := Apply(s, Sync(w));
    StageStep(s0, synced, Verify(w), w, Synced);
    acts := StageLock(s0, Apply(synced, Verify(w)), w);
    OneMore(synced, Verify(w), acts);
    acts := [Verify(w)] + acts;
    OneMore(s, Sync(w), acts);
    acts := [Sync(w)] + acts;
  }

  /** Without verification, a short write that goes unnoticed replaces the destination. */
  lemma ShortWriteReplaces(s0: State, w: Writer) returns (acts: seq<Action>)
    requires Init(s0) && w in s0.jobs && !s0.jobs[w].verify
    ensures ValidRun(s0, acts) && Torn(s0, Run(s0, acts), w)
  {
    StageBegin(s0, w);
    acts := StageSync(s0, Apply(s0, Begin(w)), w);
    OneMore(s0, Begin(w), acts);
    acts := [Begin(w)] + acts;
  }

  ghost predicate AlwaysFull(s0: State) {
    forall acts :: ValidRun(s0, acts) ==> LogFull(Run(s0, acts))
  }

  predicate Safe(j: Job) { j.verify || j.data == [] }

  lemma SafeJobsAreFull(s0: State, acts: seq<Action>)
    requires Init(s0) && ValidRun(s0, acts)
    requires forall w :: w in s0.jobs ==> Safe(s0.jobs[w])
    ensures LogFull(Run(s0, acts))
  {
    Reachable(s0, acts);
    var s := Run(s0, acts);
    forall i | 0 <= i < |s.history.log|
      ensures s.history.log[i].w in s.jobs && s.history.log[i].bytes == s.jobs[s.history.log[i].w].data
    {
      assert Entered(s.jobs, s.pcs, s.history.log[i]);
      assert Safe(s0.jobs[s.history.log[i].w]);
    }
  }

  /** Nothing but complete data is ever installed exactly when every call verifies what it
      wrote or has nothing to write. */
  lemma CompleteIffVerified(s0: State)
    requires Init(s0)
    ensures AlwaysFull(s0) <==> forall w :: w in s0.jobs ==> Safe(s0.jobs[w])
  {
    if forall w :: w in s0.jobs ==> Safe(s0.jobs[w]) {
      forall acts | ValidRun(s0, acts) ensures LogFull(Run(s0, acts)) { SafeJobsAreFull(s0, acts); }
    } else {
      var w :| w in s0.jobs && !Safe(s0.jobs[w]);
      var acts := ShortWriteReplaces(s0, w);
      assert Run(s0, acts).history.log[0].bytes != s0.jobs[w].data;
    }
  }

  // ----- One call among others ------------------------------------------------------------

  /** Where call `x` stands; it has its temporary file once it has begun. */
  ghost predicate Standing(s: State, x: Writer, pc: Pc) {
    x in s.jobs && x in s.pcs && s.pcs[x] == pc && (Temp(x) in s.disk.vdir <==> !pc.Idle?)
  }

  /** Nothing was replaced, and `d` is there if it was. */
  predicate Calm(s: State, t: State, d: string) {
    t.jobs == s.jobs && t.history.log == s.history.log && (File(d) in t.disk.vdir <==> File(d) in s.disk.vdir)
  }

  ghost predicate OthersStand(s: State, t: State, x: Writer) {
    forall y, pc :: y != x && Standing(s, y, pc) ==> Standing(t, y, pc)
  }

  /** Locks and tickets are as they were. */
  predicate SameLocks(s: State, t: State) {
    t.locks == s.locks && t.history.tickets == s.history.tickets && t.history.clock == s.history.clock
  }

  lemma OthersUnmoved(s: State, a: Action, x: Writer)
    requires Enabled(s, a) && Actor(a) == Some(x)
    ensures OthersStand(s, Apply(s, a), x)
  {
    ActorMoves(s, a);
    forall y, pc | y != x && Standing(s, y, pc) ensures Standing(Apply(s, a), y, pc) {
      OnlyRelinked(s, a, Temp(y));
    }
  }

  /** A step of `x` other than its replacement and its cleanup. */
  lemma Moved(s: State, a: Action, x: Writer)
    requires Enabled(s, a) && Actor(a) == Some(x) && (a.Begin? || !AboutTemp(a)) && Standing(s, x, s.pcs[x])
    ensures Standing(Apply(s, a), x, PcAfter(s, a)) && OthersStand(s, Apply(s, a), x)
    ensures Calm(s, Apply(s, a), s.jobs[x].dest)
  {
    ActorMoves(s, a);
    OthersUnmoved(s, a, x);
    LogShape(s, a);
    assert Backup(s, x) != Dest(s, x);
    OnlyRelinked(s, a, Dest(s, x));
    if !a.Begin? { OnlyRelinked(s, a, Temp(x)); }
    MovesOn(s, a);
  }

  lemma MovesOn(s: State, a: Action)
    requires Enabled(s, a) && Actor(a).Some? && (a.Begin? || !AboutTemp(a))
    ensures !PcAfter(s, a).Idle? && (a.Begin? <==> s.pcs[Actor(a).value].Idle?)
  {
  }

  lemma KeepsLocks(s: State, a: Action)
    requires Enabled(s, a) && Actor(a).Some? && !a.Lock? && !a.Unlock?
    ensures SameLocks(s, Apply(s, a))
  {
  }

  /** fsync and verification of a file that holds everything. */
  lemma PassesVerify(s: State, x: Writer) returns (acts: seq<Action>)
    requires Standing(s, x, Writing) && Content(s.disk.vdata, TempFile(x)) == s.jobs[x].data
    ensures ValidRun(s, acts) && Standing(Run(s, acts), x, Ready) && OthersStand(s, Run(s, acts), x)
    ensures Calm(s, Run(s, acts), s.jobs[x].dest) && SameLocks(s, Run(s, acts))
  {
    Moved(s, Sync(x), x);
    KeepsLocks(s, Sync(x));
    var synced := Apply(s, Sync(x));
    Moved(synced, Verify(x), x);
    KeepsLocks(synced, Verify(x));
    OneMore(synced, Verify(x), []);
    acts := [Verify(x)] + [];
    OneMore(s, Sync(x), acts);
    acts := [Sync(x)] + acts;
  }

  lemma WritesAll(s: State, x: Writer) returns (acts: seq<Action>)
    requires Standing(s, x, Writing) && Content(s.disk.vdata, TempFile(x)) == []
    ensures ValidRun(s, acts) && Standing(Run(s, acts), x, Ready) && OthersStand(s, Run(s, acts), x)
    ensures Calm(s, Run(s, acts), s.jobs[x].dest) && SameLocks(s, Run(s, acts))
  {
    var write := Write(x, |s.jobs[x].data|);
    Moved(s, write, x);
    KeepsLocks(s, write);
    assert [] + s.jobs[x].data[0..|s.jobs[x].data|] == s.jobs[x].data;
    acts := PassesVerify(Apply(s, write), x);
    OneMore(s, write, acts);
    acts := [write] + acts;
  }

  /** A call that writes all its data gets ready, whether it verifies or not. */
  lemma GetsReady(s: State, x: Writer) returns (acts: seq<Action>)
    requires Standing(s, x, Idle)
    ensures ValidRun(s, acts) && Standing(Run(s, acts), x, Ready) && OthersStand(s, Run(s, acts), x)
    ensures Calm(s, Run(s, acts), s.jobs[x].dest) && SameLocks(s, Run(s, acts))
  {
    Moved(s, Begin(x), x);
    KeepsLocks(s, Begin(x));
    acts := WritesAll(Apply(s, Begin(x)), x);
    OneMore(s, Begin(x), acts);
    acts := [Begin(x)] + acts;
  }

  /** Inside the lock, a call that makes no backup. */
  lemma SkipsBackup(s: State, x: Writer) returns (acts: seq<Action>)
    requires Standing(s, x, Locked)
    ensures ValidRun(s, acts) && Standing(Run(s, acts), x, Replacing(None, 0)) && OthersStand(s, Run(s, acts), x)
    ensures Calm(s, Run(s, acts), s.jobs[x].dest) && SameLocks(s, Run(s, acts))
  {
    var skip := if Dest(s, x) in s.disk.vdir then NoBackup(x) else Absent(x);
    Moved(s, skip, x);
    KeepsLocks(s, skip);
    OneMore(s, skip, []);
    acts := [skip] + [];
  }

  lemma FillsBackup(s: State, x: Writer, prior: octets, i: Inode) returns (acts: seq<Action>)
    requires Standing(s, x, Saving(prior, i, 0))
    ensures ValidRun(s, acts) && Standing(Run(s, acts), x, Replacing(Some(prior), 0)) && OthersStand(s, Run(s, acts), x)
    ensures Calm(s, Run(s, acts), s.jobs[x].dest) && SameLocks(s, Run(s, acts))
  {
    var save := Save(x, |prior|);
    Moved(s, save, x);
    KeepsLocks(s, save);
    var full := Apply(s, save);
    Moved(full, SaveDone(x), x);
    KeepsLocks(full, SaveDone(x));
    OneMore(full, SaveDone(x), []);
    acts := [SaveDone(x)] + [];
    OneMore(s, save, acts);
    acts := [save] + acts;
  }

  /** Inside the lock, a call that backs the old file up. */
  lemma MakesBackup(s: State, x: Writer) returns (acts: seq<Action>, prior: octets)
    requires Standing(s, x, Locked) && Dest(s, x) in s.disk.vdir
    ensures ValidRun(s, acts) && Standing(Run(s, acts), x, Replacing(Some(prior), 0)) && OthersStand(s, Run(s, acts), x)
    ensures Calm(s, Run(s, acts), s.jobs[x].dest) && SameLocks(s, Run(s, acts))
  {
    Moved(s, ReadOld(x), x);
    KeepsLocks(s, ReadOld(x));
    var read := Apply(s, ReadOld(x));
    prior := Content(s.disk.vdata, s.disk.vdir[Dest(s, x)]);
    var i := BackupInode(read, x);
    Moved(read, OpenBackup(x), x);
    KeepsLocks(read, OpenBackup(x));
    acts := FillsBackup(Apply(read, OpenBackup(x)), x, prior, i);
    OneMore(read, OpenBackup(x), acts);
    acts := [OpenBackup(x)] + acts;
    OneMore(s, ReadOld(x), acts);
    acts := [ReadOld(x)] + acts;
  }

  lemma TakesLock(s: State, x: Writer)
    requires Standing(s, x, Ready) && Key(s, x) !in s.locks
    ensures Enabled(s, Lock(x))
    ensures var t := Apply(s, Lock(x));
            && Standing(t, x, Locked) && OthersStand(s, t, x) && Calm(s, t, s.jobs[x].dest)
            && t.locks == s.locks[Key(s, x) := x]
            && t.history.tickets == s.history.tickets[x := s.history.clock] && t.history.clock == s.history.clock + 1
  {
    Moved(s, Lock(x), x);
  }

  lemma Replaces(s: State, x: Writer, saved: Option<octets>)
    requires Standing(s, x, Replacing(saved, 0))
    ensures Enabled(s, Replace(x))
    ensures var t := Apply(s, Replace(x));
            && t.jobs == s.jobs && t.pcs == s.pcs[x := Leaving(true, saved)] && OthersStand(s, t, x)
            && t.locks == s.locks && t.history.tickets == s.history.tickets
            && |t.history.log| == |s.history.log| + 1 && t.history.log[..|s.history.log|] == s.history.log
            && t.history.log[|s.history.log|].w == x
            && Dest(s, x) in t.disk.vdir
  {
    OthersUnmoved(s, Replace(x), x);
  }

  // ----- Two calls in two processes ---------------------------------------------------------

  /** `v` and `w` are for one destination and do not share its lock. */
  ghost predicate Rivals(jobs: map<Writer, Job>, v: Writer, w: Writer) {
    v in jobs && w in jobs && v != w && jobs[v].dest == jobs[w].dest && jobs[v].process != jobs[w].process
  }

  lemma BothReady(s: State, v: Writer, w: Writer) returns (acts: seq<Action>)
    requires Rivals(s.jobs, v, w) && Standing(s, v, Idle) && Standing(s, w, Idle)
    ensures ValidRun(s, acts) && Standing(Run(s, acts), v, Ready) && Standing(Run(s, acts), w, Ready)
    ensures Calm(s, Run(s, acts), s.jobs[w].dest) && SameLocks(s, Run(s, acts))
  {
    var first := GetsReady(s, v);
    var second := GetsReady(Run(s, first), w);
    RunConcat(s, first, second);
    acts := first + second;
  }

  /** `v` takes its lock first and is about to replace. */
  lemma FirstLocks(s: State, v: Writer, w: Writer) returns (acts: seq<Action>)
    requires Rivals(s.jobs, v, w) && Standing(s, v, Ready) && Standing(s, w, Ready) && Key(s, v) !in s.locks
    ensures ValidRun(s, acts) && Standing(Run(s, acts), v, Replacing(None, 0)) && Standing(Run(s, acts), w, Ready)
    ensures Calm(s, Run(s, acts), s.jobs[w].dest)
    ensures var t := Run(s, acts);
            && t.locks == s.locks[Key(s, v) := v]
            && t.history.tickets == s.history.tickets[v := s.history.clock] && t.history.clock == s.history.clock + 1
  {
    TakesLock(s, v);
    acts := SkipsBackup(Apply(s, Lock(v)), v);
    OneMore(s, Lock(v), acts);
    acts := [Lock(v)] + acts;
  }

  /** `w` takes the lock of its own process, and backs up the file if there is one. */
  lemma SecondLocks(s: State, v: Writer, w: Writer) returns (acts: seq<Action>, saved: Option<octets>)
    requires Rivals(s.jobs, v, w) && Standing(s, v, Replacing(None, 0)) && Standing(s, w, Ready) && Key(s, w) !in s.locks
    ensures ValidRun(s, acts)
    ensures Standing(Run(s, acts), v, Replacing(None, 0)) && Standing(Run(s, acts), w, Replacing(saved, 0))
    ensures saved.Some? <==> Dest(s, w) in s.disk.vdir
    ensures Calm(s, Run(s, acts), s.jobs[w].dest)
    ensures Run(s, acts).history.tickets == s.history.tickets[w := s.history.clock]
  {
    TakesLock(s, w);
    if Dest(s, w) in s.disk.vdir {
      var prior;
      acts, prior := MakesBackup(Apply(s, Lock(w)), w);
      saved := Some(prior);
    } else {
      acts := SkipsBackup(Apply(s, Lock(w)), w);
      saved := None;
    }
    OneMore(s, Lock(w), acts);
    acts := [Lock(w)] + acts;
  }

  /** `w` holds its lock, has replaced, and `v`, whose ticket is older, has replaced after it. */
  ghost predicate Raced(s: State, t: State, v: Writer, w: Writer, saved: Option<octets>) {
    var n, log := |s.history.log|, t.history.log;
    && t.jobs == s.jobs && Releasing(t, w, saved)
    && |log| == n + 2 && log[n].w == w && log[n + 1].w == v
    && v in t.history.tickets && w in t.history.tickets && t.history.tickets[v] < t.history.tickets[w]
  }

  lemma BothReplace(s: State, v: Writer, w: Writer, saved: Option<octets>) returns (acts: seq<Action>)
    requires Rivals(s.jobs, v, w) && Standing(s, v, Replacing(None, 0)) && Standing(s, w, Replacing(saved, 0))
    requires v in s.history.tickets && w in s.history.tickets && s.history.tickets[v] < s.history.tickets[w]
    ensures ValidRun(s, acts) && Raced(s, Run(s, acts), v, w, saved)
  {
    Replaces(s, w, saved);
    var replaced := Apply(s, Replace(w));
    Replaces(replaced, v, None);
    var n := |s.history.log|;
    assert Apply(replaced, Replace(v)).history.log[..n + 1][n] == replaced.history.log[n];
    OneMore(replaced, Replace(v), []);
    acts := [Replace(v)] + [];
    OneMore(s, Replace(w), acts);
    acts := [Replace(w)] + acts;
  }

  /** Two calls that do not share a lock: the one that locked first replaces last, while the other
      still holds its lock, with a backup if there was a file. */
  lemma Race(s: State, v: Writer, w: Writer) returns (acts: seq<Action>, saved: Option<octets>)
    requires Rivals(s.jobs, v, w) && Standing(s, v, Idle) && Standing(s, w, Idle)
    requires Key(s, v) !in s.locks && Key(s, w) !in s.locks
    ensures ValidRun(s, acts) && Raced(s, Run(s, acts), v, w, saved)
    ensures saved.Some? <==> Dest(s, w) in s.disk.vdir
  {
    var ready := BothReady(s, v, w);
    var s1 := Run(s, ready);
    var first := FirstLocks(s1, v, w);
    var s2 := Run(s1, first);
    var second;
    second, saved := SecondLocks(s2, v, w);
    var s3 := Run(s2, second);
    var last := BothReplace(s3, v, w, saved);
    RunConcat(s2, second, last);
    RunConcat(s1, first, second + last);
    RunConcat(s, ready, first + (second + last));
    acts := ready + (first + (second + last));
  }

  /** A third call writes the destination first, and is done with its lock. */
  lemma WritesFirst(s: State, x: Writer) returns (acts: seq<Action>)
    requires Standing(s, x, Idle) && Key(s, x) !in s.locks
    ensures ValidRun(s, acts)
    ensures var t := Run(s, acts);
            t.jobs == s.jobs && t.locks == s.locks && OthersStand(s, t, x) && Dest(s, x) in t.disk.vdir
  {
    acts := GetsReady(s, x);
    var rest := LocksAndReplaces(Run(s, acts), x);
    RunConcat(s, acts, rest);
    acts := acts + rest;
  }

  lemma LocksAndReplaces(s: State, x: Writer) returns (acts: seq<Action>)
    requires Standing(s, x, Ready) && Key(s, x) !in s.locks
    ensures ValidRun(s, acts)
    ensures var t := Run(s, acts);
            t.jobs == s.jobs && t.locks == s.locks && OthersStand(s, t, x) && Dest(s, x) in t.disk.vdir
  {
    TakesLock(s, x);
    var locked := Apply(s, Lock(x));
    acts := SkipsBackup(locked, x);
    var rest := ReplacesAndUnlocks(Run(locked, acts), x);
    RunConcat(locked, acts, rest);
    acts := acts + rest;
    OneMore(s, Lock(x), acts);
    acts := [Lock(x)] + acts;
    assert s.locks[Key(s, x) := x] - {Key(s, x)} == s.locks;
  }

  lemma ReplacesAndUnlocks(s: State, x: Writer) returns (acts: seq<Action>)
    requires Standing(s, x, Replacing(None, 0))
    ensures ValidRun(s, acts)
    ensures var t := Run(s, acts);
            t.jobs == s.jobs && t.locks == s.locks - {Key(s, x)} && OthersStand(s, t, x) && Dest(s, x) in t.disk.vdir
  {
    Replaces(s, x, None);
    var replaced := Apply(s, Replace(x));
    OthersUnmoved(replaced, Unlock(x), x);
    OneMore(replaced, Unlock(x), []);
    acts := [Unlock(x)] + [];
    OneMore(s, Replace(x), acts);
    acts := [Replace(x)] + acts;
  }

  // ----- What one process is needed for ------------------------------------------------------

  lemma RacedIsLast(s: State, t: State, v: Writer, w: Writer, saved: Option<octets>)
    requires Rivals(s.jobs, v, w) && Raced(s, t, v, w, saved)
    ensures !LastIsOwn(t, w)
    ensures !InTicketOrder(t.jobs, t.history.tickets, t.history.log, t.jobs[w].dest)
  {
    var n, log := |s.history.log|, t.history.log;
    assert Targets(t.jobs, log[n].w, t.jobs[w].dest) && Targets(t.jobs, log[n + 1].w, t.jobs[w].dest);
  }

  lemma InitStands(s0: State, x: Writer)
    requires Init(s0) && x in s0.jobs
    ensures Standing(s0, x, Idle)
  {
    assert s0.pcs[x] == Idle;
  }

  lemma RivalOf(jobs: map<Writer, Job>, w: Writer) returns (v: Writer)
    requires w in jobs && !OneProcess(jobs, jobs[w].dest)
    ensures Rivals(jobs, v, w)
  {
    var d := jobs[w].dest;
    var x: Writer, y: Writer :| Targets(jobs, x, d) && Targets(jobs, y, d) && jobs[x].process != jobs[y].process;
    v := if jobs[x].process != jobs[w].process then x else y;
  }

  ghost predicate AlwaysInLockOrder(s0: State, d: string) {
    forall acts :: ValidRun(s0, acts) ==>
      var s := Run(s0, acts); InTicketOrder(s.jobs, s.history.tickets, s.history.log, d)
  }

  /** In every run the replacements of a destination follow the order in which their calls took
      their locks, exactly when all its calls run in one process. */
  lemma LockOrderIffOneProcess(s0: State, d: string)
    requires Init(s0)
    ensures AlwaysInLockOrder(s0, d) <==> OneProcess(s0.jobs, d)
  {
    if OneProcess(s0.jobs, d) {
      forall acts | ValidRun(s0, acts)
        ensures var s := Run(s0, acts); InTicketOrder(s.jobs, s.history.tickets, s.history.log, d)
      {
        ReplacesInLockOrder(s0, acts, d);
      }
    } else {
      var w: Writer :| Targets(s0.jobs, w, d);
      var v := RivalOf(s0.jobs, w);
      InitStands(s0, v);
      InitStands(s0, w);
      var acts, saved := Race(s0, v, w);
      RacedIsLast(s0, Run(s0, acts), v, w, saved);
    }
  }

  ghost predicate AlwaysOwn(s0: State, w: Writer) {
    forall acts, saved :: ValidRun(s0, acts) && Releasing(Run(s0, acts), w, saved) ==> LastIsOwn(Run(s0, acts), w)
  }

  /** A call can count on being the last to have replaced when it releases its lock exactly when
      all calls for its destination run in one process. */
  lemma OwnIffOneProcess(s0: State, w: Writer)
    requires Init(s0) && w in s0.jobs
    ensures AlwaysOwn(s0, w) <==> OneProcess(s0.jobs, s0.jobs[w].dest)
  {
    if OneProcess(s0.jobs, s0.jobs[w].dest) {
      forall acts, saved | ValidRun(s0, acts) && Releasing(Run(s0, acts), w, saved)
        ensures LastIsOwn(Run(s0, acts), w)
      {
        InstalledAtRelease(s0, acts, w, saved);
      }
    } else {
      var v := RivalOf(s0.jobs, w);
      InitStands(s0, v);
      InitStands(s0, w);
      var acts, saved := Race(s0, v, w);
      RacedIsLast(s0, Run(s0, acts), v, w, saved);
    }
  }

  ghost predicate AlwaysBackedUp(s0: State, w: Writer) {
    forall acts, saved :: ValidRun(s0, acts) && Releasing(Run(s0, acts), w, Some(saved)) ==>
      BackedUp(Run(s0, acts), w, saved)
  }

  /** A run in which a call releases a backup and has been overtaken. */
  lemma Overtaken(s0: State, w: Writer) returns (acts: seq<Action>, saved: octets)
    requires Init(s0) && w in s0.jobs && !Guarded(s0, w)
    ensures ValidRun(s0, acts) && Releasing(Run(s0, acts), w, Some(saved))
    ensures !LastIsOwn(Run(s0, acts), w)
  {
    var v := RivalOf(s0.jobs, w);
    InitStands(s0, v);
    InitStands(s0, w);
    var before := [];
    if Dest(s0, w) !in s0.disk.vdir {
      var d := s0.jobs[w].dest;
      var x: Writer, y: Writer :| Targets(s0.jobs, x, d) && Targets(s0.jobs, y, d) && x != w && y != w && x != y;
      var third := if x != v then x else y;
      InitStands(s0, third);
      before := WritesFirst(s0, third);
    }
    var s := Run(s0, before);
    var race, held := Race(s, v, w);
    RacedIsLast(s, Run(s, race), v, w, held);
    RunConcat(s0, before, race);
    acts := before + race;
    saved := held.value;
  }

  /** A call can count on its backup at release exactly when it is guarded: all calls for its
      destination run in one process, or there was no file and it has one rival at most. */
  lemma BackupIffGuarded(s0: State, w: Writer)
    requires Init(s0) && w in s0.jobs
    ensures AlwaysBackedUp(s0, w) <==> Guarded(s0, w)
  {
    if Guarded(s0, w) {
      forall acts, saved | ValidRun(s0, acts) && Releasing(Run(s0, acts), w, Some(saved))
        ensures BackedUp(Run(s0, acts), w, saved)
      {
        BackupAtRelease(s0, acts, w, saved);
      }
    } else {
      var acts, saved := Overtaken(s0, w);
    }
  }
}
