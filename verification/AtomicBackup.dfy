// What a call that holds its destination's lock can rely on: the old bytes it backs up, its own
// replacement, and, when it releases the lock, the destination and its `.bak`.
module AtomicBackup {
  import opened Prelude
  import opened AtomicWrite
  import opened AtomicSafety
  import opened AtomicOrder

  // ----- What a lock holder knows ---------------------------------------------------

  /** A call that has the old bytes in hand or on disk, or that has replaced and still holds a lock
      nobody else could take. */
  predicate Knows(pc: Pc, one: bool) {
    || pc.Copying? || pc.Saving? || (pc.Replacing? && pc.saved.Some?)
    || (pc.Leaving? && pc.ok && (one || pc.saved.Some?))
  }

  /** What a lock holder knows about its destination and its backup; `one`: all calls for the
      destination share its lock. */
  ghost predicate Saved(s: State, w: Writer, one: bool)
    requires w in s.jobs && w in s.pcs
  {
    var d := s.jobs[w].dest;
    match s.pcs[w]
    case Copying(prior) => Value(s, d) == Some(prior)
    case Saving(prior, i, n) =>
      && Value(s, d) == Some(prior) && n <= |prior|
      && Backup(s, w) in s.disk.vdir && s.disk.vdir[Backup(s, w)] == i
      && Content(s.disk.vdata, i) == prior[..n]
    case Replacing(saved, _) =>
      saved.Some? ==> Value(s, d) == saved && Value(s, BackupName(d)) == saved
    case Leaving(ok, saved) =>
      ok && (one || saved.Some?) ==>
        && LastOf(s.jobs, s.history.log, d).Some?
        && LastOf(s.jobs, s.history.log, d).value.w == w
        && (saved.Some? ==> LastOf(s.jobs, s.history.log, d).value.before == saved
                            && Value(s, BackupName(d)) == saved)
    case _ => true
  }

  /** The step, if another call takes it, touches neither `w`'s destination nor its backup. */
  predicate Undisturbed(s: State, a: Action, w: Writer)
    requires Enabled(s, a) && w in s.jobs
  {
    (a.OpenBackup? || a.Save? || a.Replace?) && a.w != w ==> s.jobs[a.w].dest != s.jobs[w].dest
  }

  /** Such steps of other calls leave its backup alone. */
  lemma BackupFrame(s0: State, s: State, a: Action, w: Writer)
    requires CrashInv(s0, s) && Enabled(s, a) && !a.Crash?
    requires w in s.jobs && Actor(a) != Some(w) && Undisturbed(s, a, w)
    ensures var p, dir := Backup(s, w), DiskAfter(s, a).vdir;
            && (p in dir <==> p in s.disk.vdir)
            && (p in dir ==> dir[p] == s.disk.vdir[p])
            && (p in dir ==> Content(DiskAfter(s, a).vdata, dir[p]) == Content(s.disk.vdata, dir[p]))
  {
    BackupEntryFrame(s0, s, a, w);
    if Backup(s, w) in s.disk.vdir { BackupDataFrame(s0, s, a, w); }
  }

  lemma OtherBackup(s: State, a: Action, w: Writer)
    requires Enabled(s, a) && (a.OpenBackup? || a.Save?)
    requires w in s.jobs && a.w != w && Undisturbed(s, a, w)
    ensures Backup(s, w) != Backup(s, a.w)
  {
    SameBackup(s.jobs[w].dest, s.jobs[a.w].dest);
  }

  lemma BackupEntryFrame(s0: State, s: State, a: Action, w: Writer)
    requires CrashInv(s0, s) && Enabled(s, a) && !a.Crash?
    requires w in s.jobs && Actor(a) != Some(w) && Undisturbed(s, a, w)
    ensures var p, dir := Backup(s, w), DiskAfter(s, a).vdir;
            (p in dir <==> p in s.disk.vdir) && (p in dir ==> dir[p] == s.disk.vdir[p])
  {
    BackupNotRelinked(s0, s, a, w);
    OnlyRelinked(s, a, Backup(s, w));
  }

  lemma BackupNotRelinked(s0: State, s: State, a: Action, w: Writer)
    requires CrashInv(s0, s) && Enabled(s, a) && !a.Crash?
    requires w in s.jobs && Actor(a) != Some(w) && Undisturbed(s, a, w)
    ensures Backup(s, w) !in Relinked(s, a)
  {
    if a.OpenBackup? {
      OtherBackup(s, a, w);
    } else if a.Replace? {
      assert s.jobs[w].dest in Dests(s.jobs) && s.jobs[a.w].dest in Dests(s.jobs);
    }
  }

  lemma BackupDataFrame(s0: State, s: State, a: Action, w: Writer)
    requires CrashInv(s0, s) && Enabled(s, a) && !a.Crash?
    requires w in s.jobs && Actor(a) != Some(w) && Undisturbed(s, a, w) && Backup(s, w) in s.disk.vdir
    ensures var i := s.disk.vdir[Backup(s, w)];
            Content(DiskAfter(s, a).vdata, i) == Content(s.disk.vdata, i)
  {
    BackupNotWritten(s0, s, a, w);
    OnlyWritten(s, a, s.disk.vdir[Backup(s, w)]);
  }

  lemma BackupNotWritten(s0: State, s: State, a: Action, w: Writer)
    requires CrashInv(s0, s) && Enabled(s, a) && !a.Crash?
    requires w in s.jobs && Actor(a) != Some(w) && Undisturbed(s, a, w) && Backup(s, w) in s.disk.vdir
    ensures Written(s, a) != Some(s.disk.vdir[Backup(s, w)])
  {
    BackupInodeKind(s0, s, w);
    if a.OpenBackup? {
      OtherBackup(s, a, w);
      BackupInodeKind(s0, s, a.w);
    } else if a.Save? {
      OtherBackup(s, a, w);
      SaveTargetsOwnBackup(s0, s, a.w);
    }
  }

  lemma SaveTargetsOwnBackup(s0: State, s: State, w: Writer)
    requires CrashInv(s0, s) && w in s.pcs && s.pcs[w].Saving?
    ensures var i := s.pcs[w].inode;
            || i == Original(Backup(s, w))
            || (i.BackupFile? && i.w in s.jobs && s.jobs[i.w].dest == s.jobs[w].dest)
  {
    assert PcOkAt(s, w);
  }

  /** The history of a destination does not move while nobody disturbs it. */
  lemma LastFrame(s: State, a: Action, w: Writer)
    requires Enabled(s, a) && !a.Crash?
    requires w in s.jobs && Actor(a) != Some(w) && Undisturbed(s, a, w)
    ensures LastOf(s.jobs, HistoryAfter(s, a).log, s.jobs[w].dest) == LastOf(s.jobs, s.history.log, s.jobs[w].dest)
  {
    LogShape(s, a);
    if a.Replace? {
      var log := s.history.log;
      assert HistoryAfter(s, a).log[..|log|] == log;
    }
  }

  lemma SavedHeld(s0: State, s: State, a: Action, w: Writer, one: bool)
    requires CrashInv(s0, s) && Enabled(s, a) && !a.Crash?
    requires w in s.jobs && w in s.pcs && Saved(s, w, one) && Actor(a) != Some(w) && Undisturbed(s, a, w)
    ensures w in PcsAfter(s, a) && Saved(Apply(s, a), w, one)
  {
    PcsKeys(s, a);
    PcKeptOrDead(s, a, w);
    assert s.jobs[w].dest in Dests(s.jobs);
    LastFrame(s, a, w);
    ValueFrame(s0, s, a, s.jobs[w].dest);
    BackupFrame(s0, s, a, w);
    SavedTransfers(s, Apply(s, a), w, one);
  }

  lemma SavedIdle(s: State, w: Writer, one: bool)
    requires w in s.jobs && w in s.pcs && !Knows(s.pcs[w], one)
    ensures Saved(s, w, one)
  {
  }

  /** What keeps the others away from a call that knows the old bytes: the lock they share, or
      that they have all replaced already. */
  ghost predicate Alone(s: State, w: Writer, one: bool)
    requires w in s.jobs && w in s.pcs
  {
    if one then OneProcess(s.jobs, s.jobs[w].dest)
    else Knows(s.pcs[w], false) ==>
           forall v :: v != w && Targets(s.jobs, v, s.jobs[w].dest) ==> v in s.pcs && Replaced(s.pcs[v])
  }

  lemma AloneIsUndisturbed(s: State, a: Action, w: Writer, one: bool)
    requires Locking(s) && Enabled(s, a) && w in s.jobs && w in s.pcs && Knows(s.pcs[w], one) && Alone(s, w, one)
    ensures Undisturbed(s, a, w)
  {
    if (a.OpenBackup? || a.Save? || a.Replace?) && a.w != w && s.jobs[a.w].dest == s.jobs[w].dest {
      if one {
        assert Holds(s, w) && Holds(s, a.w);
        LockedApart(s, a.w, w);
      } else {
        assert false;
      }
    }
  }

  lemma SavedOther(s0: State, s: State, a: Action, w: Writer, one: bool)
    requires CrashInv(s0, s) && Locking(s) && Enabled(s, a) && Actor(a) != Some(w)
    requires w in s.jobs && w in s.pcs && Saved(s, w, one) && Alone(s, w, one)
    ensures w in PcsAfter(s, a) && Saved(Apply(s, a), w, one)
  {
    PcsKeys(s, a);
    if !a.Crash? && Knows(s.pcs[w], one) {
      AloneIsUndisturbed(s, a, w, one);
      SavedHeld(s0, s, a, w, one);
    } else {
      PcKeptOrDead(s, a, w);
      CrashForgets(s, w, one);
      SavedIdle(Apply(s, a), w, one);
    }
  }

  lemma CrashForgets(s: State, w: Writer, one: bool)
    requires w in s.pcs
    ensures !Knows(PcsAfter(s, Crash)[w], one)
  {
  }

  /** Nothing else matters to a holder's knowledge. */
  lemma SavedTransfers(s: State, t: State, w: Writer, one: bool)
    requires w in s.jobs && w in s.pcs && t.jobs == s.jobs && w in t.pcs && Saved(s, w, one)
    requires t.pcs[w] == s.pcs[w] || t.pcs[w] == Dead
    requires Value(t, s.jobs[w].dest) == Value(s, s.jobs[w].dest)
    requires LastOf(s.jobs, t.history.log, s.jobs[w].dest) == LastOf(s.jobs, s.history.log, s.jobs[w].dest)
    requires Backup(s, w) in t.disk.vdir <==> Backup(s, w) in s.disk.vdir
    requires Backup(s, w) in s.disk.vdir ==>
      && t.disk.vdir[Backup(s, w)] == s.disk.vdir[Backup(s, w)]
      && Content(t.disk.vdata, t.disk.vdir[Backup(s, w)]) == Content(s.disk.vdata, s.disk.vdir[Backup(s, w)])
    ensures Saved(t, w, one)
  {
  }

  lemma OverlayPrefix(prior: octets, m: nat, n: nat)
    requires m <= n <= |prior|
    ensures Overlay(prior[..m], m, prior[m..n]) == prior[..n]
  {
    assert prior[..m][..m] == prior[..m];
    assert prior[..m] + prior[m..n] == prior[..n];
    if m == n { assert prior[..m][n..] == []; }
  }

  /** Opening the backup truncates it; saving appends to it. */
  lemma SavedSelfWrites(s0: State, s: State, a: Action, w: Writer, one: bool)
    requires CrashInv(s0, s) && Enabled(s, a) && (a.OpenBackup? || a.Save?) && a.w == w && Saved(s, w, one)
    ensures Saved(Apply(s, a), w, one)
  {
    var d := s.jobs[w].dest;
    assert d in Dests(s.jobs);
    ValueFrame(s0, s, a, d);
    if a.Save? { OverlayPrefix(s.pcs[w].prior, s.pcs[w].n, a.n); }
  }

  lemma LogAfter(s: State, w: Writer)
    requires Enabled(s, Replace(w))
    ensures var log := HistoryAfter(s, Replace(w)).log;
            LastOf(s.jobs, log, s.jobs[w].dest) ==
            Some(Replacement(w, Value(s, s.jobs[w].dest), Content(s.disk.vdata, s.disk.vdir[Temp(w)])))
  {
    var log := s.history.log;
    var r := Replacement(w, Value(s, s.jobs[w].dest), Content(s.disk.vdata, s.disk.vdir[Temp(w)]));
    assert (log + [r])[|log|] == r;
  }

  lemma SavedSelfReplace(s0: State, s: State, w: Writer, one: bool)
    requires CrashInv(s0, s) && Enabled(s, Replace(w)) && Saved(s, w, one)
    ensures Saved(Apply(s, Replace(w)), w, one)
  {
    assert s.jobs[w].dest in Dests(s.jobs);
    LogAfter(s, w);
    assert Backup(s, w) != Dest(s, w);
    OnlyRelinked(s, Replace(w), Backup(s, w));
  }

  /** The steps of a call that touch neither its destination nor its backup. */
  lemma SavedSelfMoves(s: State, a: Action, w: Writer, one: bool)
    requires Enabled(s, a) && Actor(a) == Some(w) && w in s.jobs && Saved(s, w, one)
    requires !a.OpenBackup? && !a.Save? && !a.Replace? && !BeforeLock(a) && !a.Unlink?
    ensures Saved(Apply(s, a), w, one)
  {
    if a.SaveDone? {
      var prior := s.pcs[w].prior;
      assert prior[..|prior|] == prior;
    }
  }

  lemma SavedEarly(s: State, a: Action, w: Writer, one: bool)
    requires Enabled(s, a) && Actor(a) == Some(w) && w in s.jobs && (BeforeLock(a) || a.Unlink?)
    ensures Saved(Apply(s, a), w, one)
  {
    ActorMoves(s, a);
  }

  lemma SavedSelf(s0: State, s: State, a: Action, w: Writer, one: bool)
    requires CrashInv(s0, s) && Enabled(s, a) && Actor(a) == Some(w) && Saved(s, w, one)
    ensures Saved(Apply(s, a), w, one)
  {
    if a.OpenBackup? || a.Save? {
      SavedSelfWrites(s0, s, a, w, one);
    } else if a.Replace? {
      SavedSelfReplace(s0, s, w, one);
    } else if BeforeLock(a) || a.Unlink? {
      SavedEarly(s, a, w, one);
    } else {
      SavedSelfMoves(s, a, w, one);
    }
  }

  // ----- Who is alone ------------------------------------------------------------------

  /** `w` is not disturbed while it knows the old bytes: every call for its destination shares its
      lock, or there is one other call at most and no file to read before that one has replaced. */
  ghost predicate Guarded(s0: State, w: Writer)
    requires w in s0.jobs
  {
    || OneProcess(s0.jobs, s0.jobs[w].dest)
    || (File(s0.jobs[w].dest) !in s0.disk.vdir && OneOther(s0.jobs, w))
  }

  /** At most one call besides `w` is for its destination. */
  ghost predicate OneOther(jobs: map<Writer, Job>, w: Writer)
    requires w in jobs
  {
    forall u, v :: Targets(jobs, u, jobs[w].dest) && Targets(jobs, v, jobs[w].dest) && u != w && v != w ==> u == v
  }

  lemma KnewBefore(s: State, a: Action, w: Writer)
    requires Enabled(s, a) && w in s.pcs && w in PcsAfter(s, a) && Knows(PcsAfter(s, a)[w], false)
    ensures Knows(s.pcs[w], false) || a == ReadOld(w)
  {
    if Actor(a) == Some(w) {
      ActorMoves(s, a);
    } else {
      PcKeptOrDead(s, a, w);
    }
  }

  /** A file that was not there at the start was put there by a call that has replaced. */
  lemma ReadsTheOther(s0: State, s: State, w: Writer) returns (v: Writer)
    requires LogInv(s0, s) && Enabled(s, ReadOld(w)) && File(s.jobs[w].dest) !in s0.disk.vdir
    ensures v != w && Targets(s.jobs, v, s.jobs[w].dest) && v in s.pcs && Replaced(s.pcs[v])
  {
    var d := s.jobs[w].dest;
    assert d in Dests(s.jobs);
    assert OriginalAt(File(d), s0, s.disk.vdir, s.disk.vdata);
    var i := s.disk.vdir[File(d)];
    assert MayStand(s.jobs, s.history.sealed, File(d), i);
    v := i.w;
  }

  lemma AloneStep(s0: State, s: State, a: Action, w: Writer)
    requires LogInv(s0, s) && Enabled(s, a) && w in s.jobs && w in s.pcs && w in PcsAfter(s, a)
    requires File(s.jobs[w].dest) !in s0.disk.vdir
    requires OneOther(s.jobs, w)
    requires Alone(s, w, false)
    ensures Alone(Apply(s, a), w, false)
  {
    if Knows(PcsAfter(s, a)[w], false) {
      KnewBefore(s, a, w);
      forall v | v != w && Targets(s.jobs, v, s.jobs[w].dest)
        ensures v in PcsAfter(s, a) && Replaced(PcsAfter(s, a)[v])
      {
        if a == ReadOld(w) { var u := ReadsTheOther(s0, s, w); }
        ReplacedStays(s, a, v);
      }
    }
  }

  lemma BackupStep(s0: State, s: State, a: Action, w: Writer, one: bool)
    requires LogInv(s0, s) && Enabled(s, a) && w in s.jobs && w in s.pcs && w in PcsAfter(s, a)
    requires Saved(s, w, one) && Alone(s, w, one)
    ensures Saved(Apply(s, a), w, one)
  {
    if Actor(a) == Some(w) { SavedSelf(s0, s, a, w, one); } else { SavedOther(s0, s, a, w, one); }
  }

  lemma {:induction false} BackupRun(s0: State, s: State, acts: seq<Action>, w: Writer, one: bool)
    requires LogInv(s0, s) && w in s.jobs && w in s.pcs && ValidRun(s, acts)
    requires Saved(s, w, one) && Alone(s, w, one)
    requires !one ==> Guarded(s0, w) && !OneProcess(s0.jobs, s0.jobs[w].dest)
    ensures w in Run(s, acts).jobs && w in Run(s, acts).pcs && Saved(Run(s, acts), w, one)
    decreases |acts|
  {
    if acts != [] {
      var a := acts[0];
      PcsKeys(s, a);
      LogInvStep(s0, s, a);
      BackupStep(s0, s, a, w, one);
      if !one { AloneStep(s0, s, a, w); }
      BackupRun(s0, Apply(s, a), acts[1..], w, one);
    }
  }

  // ----- At release -----------------------------------------------------------------------

  /** The last replacement of `w`'s destination is its own. */
  predicate LastIsOwn(s: State, w: Writer) {
    && w in s.jobs
    && LastOf(s.jobs, s.history.log, s.jobs[w].dest).Some?
    && LastOf(s.jobs, s.history.log, s.jobs[w].dest).value.w == w
  }

  /** `.bak` holds exactly the bytes that `w`'s own replacement, the last one, overwrote. */
  ghost predicate BackedUp(s: State, w: Writer, saved: octets) {
    && w in s.jobs
    && Value(s, BackupName(s.jobs[w].dest)) == Some(saved)
    && LastIsOwn(s, w)
    && LastOf(s.jobs, s.history.log, s.jobs[w].dest).value.before == Some(saved)
  }

  lemma InitSaved(s0: State, w: Writer, one: bool)
    requires Init(s0) && w in s0.jobs
    ensures w in s0.pcs && Saved(s0, w, one) && Alone(s0, w, false)
    ensures OneProcess(s0.jobs, s0.jobs[w].dest) ==> Alone(s0, w, true)
  {
    assert s0.pcs[w] == Idle;
  }

  /** The call has replaced, with this backup, and is about to release its lock. */
  predicate Releasing(s: State, w: Writer, saved: Option<octets>) { w in s.pcs && s.pcs[w] == Leaving(true, saved) }

  /** When a guarded call whose backup was written releases its lock, the destination's last
      replacement is its own and `.bak` holds exactly the bytes that replacement overwrote. */
  lemma BackupAtRelease(s0: State, acts: seq<Action>, w: Writer, saved: octets)
    requires Init(s0) && ValidRun(s0, acts) && w in s0.jobs && Guarded(s0, w)
    ensures Releasing(Run(s0, acts), w, Some(saved)) ==> BackedUp(Run(s0, acts), w, saved)
  {
    InitLogInv(s0);
    var one := OneProcess(s0.jobs, s0.jobs[w].dest);
    InitSaved(s0, w, one);
    BackupRun(s0, s0, acts, w, one);
  }

  /** When a call whose destination is written by its process alone releases its lock, the
      destination's last replacement is its own, and after verification the destination holds all
      of its data. */
  lemma InstalledAtRelease(s0: State, acts: seq<Action>, w: Writer, saved: Option<octets>)
    requires Init(s0) && ValidRun(s0, acts) && w in s0.jobs && OneProcess(s0.jobs, s0.jobs[w].dest)
    ensures var s := Run(s0, acts);
            Releasing(s, w, saved) ==>
              LastIsOwn(s, w) && (s.jobs[w].verify ==> Value(s, s.jobs[w].dest) == Some(s.jobs[w].data))
  {
    InitLogInv(s0);
    InitSaved(s0, w, true);
    BackupRun(s0, s0, acts, w, true);
    Reachable(s0, acts);
    var s := Run(s0, acts);
    if s0.jobs[w].verify && LastIsOwn(s, w) { LastInstalled(s0, s, w); }
  }
}
