// The log of replacements: destinations follow it, one process replaces in lock order, failed
// calls change nothing, and which temporary files are left.
module AtomicOrder {
  import opened Prelude
  import opened AtomicWrite
  import opened AtomicSafety

  predicate Targets(jobs: map<Writer, Job>, w: Writer, d: string) { w in jobs && jobs[w].dest == d }

  /** All calls for destination `d` run in one process, so they share its lock. */
  ghost predicate OneProcess(jobs: map<Writer, Job>, d: string) {
    forall v, w :: Targets(jobs, v, d) && Targets(jobs, w, d) ==> jobs[v].process == jobs[w].process
  }

  // ----- Locks and tickets ------------------------------------------------------

  ghost predicate Locking(s: State) {
    forall w :: w in s.pcs && w in s.jobs && HoldsLock(s.pcs[w]) ==>
      Key(s, w) in s.locks && s.locks[Key(s, w)] == w
  }

  ghost predicate Holds(s: State, w: Writer) { w in s.pcs && w in s.jobs && HoldsLock(s.pcs[w]) }

  lemma LockedApart(s: State, v: Writer, w: Writer)
    requires Locking(s) && Holds(s, v) && Holds(s, w) && v != w && OneProcess(s.jobs, s.jobs[w].dest)
    ensures s.jobs[v].dest != s.jobs[w].dest
  {
    assert s.locks[Key(s, v)] == v && s.locks[Key(s, w)] == w;
  }

  lemma LockingStep(s: State, a: Action)
    requires Locking(s) && Enabled(s, a) && s.pcs.Keys == s.jobs.Keys
    ensures Locking(Apply(s, a))
  {
    var t := Apply(s, a);
    forall w | Holds(t, w) ensures Key(t, w) in t.locks && t.locks[Key(t, w)] == w {
      LockingStepAt(s, a, w);
    }
  }

  /** Nobody takes a lock away from a call that stays inside its locked window. */
  lemma LockKept(s: State, a: Action, w: Writer)
    requires Locking(s) && Enabled(s, a) && Holds(s, w) && w in PcsAfter(s, a) && HoldsLock(PcsAfter(s, a)[w])
    ensures Key(s, w) in LocksAfter(s, a) && LocksAfter(s, a)[Key(s, w)] == w
  {
    if a.Unlock? { assert Holds(s, a.w); }
  }

  lemma LockingStepAt(s: State, a: Action, w: Writer)
    requires Locking(s) && Enabled(s, a) && s.pcs.Keys == s.jobs.Keys
    requires w in PcsAfter(s, a) && w in s.jobs && HoldsLock(PcsAfter(s, a)[w])
    ensures Key(s, w) in LocksAfter(s, a) && LocksAfter(s, a)[Key(s, w)] == w
  {
    HolderBefore(s, a, w);
    if a != Lock(w) { LockKept(s, a, w); }
  }

  lemma HolderBefore(s: State, a: Action, w: Writer)
    requires Enabled(s, a) && w in s.jobs && w in PcsAfter(s, a) && HoldsLock(PcsAfter(s, a)[w])
    ensures Holds(s, w) || a == Lock(w)
  {
  }

  /** Tickets number lock acquisitions. */
  ghost predicate Numbered(s: State) {
    var t := s.history.tickets;
    && (forall w :: w in t ==> w in s.jobs && t[w] < s.history.clock)
    && (forall v, w :: v in t && w in t && v != w ==> t[v] != t[w])
  }

  /** Whoever holds the lock of destination `d` has its latest ticket. */
  ghost predicate HolderIsLatest(s: State, d: string) {
    var t := s.history.tickets;
    forall w :: Holds(s, w) && s.jobs[w].dest == d ==>
      w in t && forall v :: v in t && Targets(s.jobs, v, d) ==> t[v] <= t[w]
  }

  ghost predicate Ticketed(s: State, d: string) { Numbered(s) && HolderIsLatest(s, d) }

  lemma LockIsFree(s: State, v: Writer, w: Writer)
    requires Locking(s) && Enabled(s, Lock(v)) && Holds(s, w) && OneProcess(s.jobs, s.jobs[w].dest)
    ensures s.jobs[v].dest != s.jobs[w].dest
  {
    assert Key(s, w) in s.locks;
  }

  lemma NumberedStep(s: State, a: Action)
    requires Numbered(s) && Enabled(s, a)
    ensures Numbered(Apply(s, a))
  {
  }

  lemma TicketKept(s: State, a: Action, w: Writer)
    requires Enabled(s, a) && a != Lock(w)
    ensures w in HistoryAfter(s, a).tickets <==> w in s.history.tickets
    ensures w in s.history.tickets ==> HistoryAfter(s, a).tickets[w] == s.history.tickets[w]
  {
  }

  lemma LatestStepAt(s: State, a: Action, d: string, v: Writer, w: Writer)
    requires OneProcess(s.jobs, d) && Locking(s) && Ticketed(s, d) && Enabled(s, a)
    requires w in PcsAfter(s, a) && Targets(s.jobs, w, d) && HoldsLock(PcsAfter(s, a)[w])
    ensures var t := HistoryAfter(s, a).tickets;
            w in t && (v in t && Targets(s.jobs, v, d) ==> t[v] <= t[w])
  {
    HolderBefore(s, a, w);
    if a == Lock(w) {
    } else if a == Lock(v) {
      LockIsFree(s, v, w);
    } else {
      TicketKept(s, a, v);
      TicketKept(s, a, w);
    }
  }

  lemma TicketedStep(s: State, a: Action, d: string)
    requires OneProcess(s.jobs, d) && Locking(s) && Ticketed(s, d) && Enabled(s, a) && s.pcs.Keys == s.jobs.Keys
    ensures Ticketed(Apply(s, a), d)
  {
    NumberedStep(s, a);
    var t := Apply(s, a);
    forall v, w | Holds(t, w) && t.jobs[w].dest == d
      ensures w in t.history.tickets
      ensures v in t.history.tickets && Targets(t.jobs, v, d) ==> t.history.tickets[v] <= t.history.tickets[w]
    {
      LatestStepAt(s, a, d, v, w);
    }
  }

  // ----- The log of replacements --------------------------------------------------

  predicate Replaced(pc: Pc) {
    (pc.Leaving? && pc.ok) || (pc.Cleanup? && pc.ok) || (pc.Done? && pc.ok) || pc.Dead?
  }

  /** A logged replacement's call has replaced, and installed what verification let through. */
  ghost predicate Entered(jobs: map<Writer, Job>, pcs: map<Writer, Pc>, r: Replacement) {
    r.w in jobs && r.w in pcs && Replaced(pcs[r.w]) && Complete(jobs[r.w], r.bytes)
  }

  ghost predicate Logged(s: State) {
    forall i :: 0 <= i < |s.history.log| ==> Entered(s.jobs, s.pcs, s.history.log[i])
  }

  /** Replacements of `d` are in ticket order. */
  ghost predicate InTicketOrder(jobs: map<Writer, Job>, tickets: map<Writer, nat>, log: seq<Replacement>, d: string) {
    forall i, j :: 0 <= i < j < |log| && Targets(jobs, log[i].w, d) && Targets(jobs, log[j].w, d) ==>
      log[i].w in tickets && log[j].w in tickets && tickets[log[i].w] < tickets[log[j].w]
  }

  ghost predicate Ordered(s: State, d: string) {
    var log := s.history.log;
    && (forall i :: 0 <= i < |log| && Targets(s.jobs, log[i].w, d) ==> log[i].w in s.history.tickets)
    && InTicketOrder(s.jobs, s.history.tickets, log, d)
  }

  lemma PcKeptOrDead(s: State, a: Action, w: Writer)
    requires Enabled(s, a) && w in s.pcs && Actor(a) != Some(w)
    ensures PcsAfter(s, a)[w] == s.pcs[w] || PcsAfter(s, a)[w] == Dead
  {
  }

  lemma ReplacedMoves(s: State, a: Action)
    requires Enabled(s, a) && Actor(a).Some? && Replaced(s.pcs[Actor(a).value])
    ensures Replaced(PcAfter(s, a)) && !a.Lock?
  {
  }

  lemma ReplacedStays(s: State, a: Action, w: Writer)
    requires Enabled(s, a) && w in s.pcs && Replaced(s.pcs[w])
    ensures w in PcsAfter(s, a) && Replaced(PcsAfter(s, a)[w]) && a != Lock(w)
  {
    PcsKeys(s, a);
    if Actor(a) == Some(w) {
      ReplacedMoves(s, a);
      ActorMoves(s, a);
    } else {
      PcKeptOrDead(s, a, w);
    }
  }

  /** What a replace installs is what verification let through. */
  lemma ReplacesComplete(s0: State, s: State, w: Writer)
    requires CrashInv(s0, s) && Enabled(s, Replace(w))
    ensures s.disk.vdir[Temp(w)] == TempFile(w) && Complete(s.jobs[w], Content(s.disk.vdata, TempFile(w)))
  {
    assert MayStand(s.jobs, s.history.sealed, Temp(w), s.disk.vdir[Temp(w)]);
    assert PcOkAt(s, w);
  }

  /** Whoever replaces took the lock after every call that replaced before. */
  lemma TicketIsNewest(s: State, d: string, w: Writer)
    requires Logged(s) && Ticketed(s, d) && Ordered(s, d) && Enabled(s, Replace(w)) && s.jobs[w].dest == d
    ensures var (t, log) := (s.history.tickets, s.history.log);
            w in t && forall i :: 0 <= i < |log| && Targets(s.jobs, log[i].w, d) ==>
                        log[i].w in t && t[log[i].w] < t[w]
  {
    assert Holds(s, w);
    var log := s.history.log;
    forall i | 0 <= i < |log| && Targets(s.jobs, log[i].w, d)
      ensures log[i].w in s.history.tickets && s.history.tickets[log[i].w] < s.history.tickets[w]
    {
      assert Entered(s.jobs, s.pcs, log[i]);
    }
  }

  lemma LogShape(s: State, a: Action)
    requires Enabled(s, a)
    ensures var log := HistoryAfter(s, a).log;
            || log == s.history.log
            || (a.Crash? && log == [])
            || (a.Replace? && log == s.history.log + [Replacement(a.w, Value(s, s.jobs[a.w].dest),
                                                                  Content(s.disk.vdata, s.disk.vdir[Temp(a.w)]))])
  {
  }

  lemma OrderSnoc(jobs: map<Writer, Job>, tickets: map<Writer, nat>, log: seq<Replacement>, r: Replacement, d: string)
    requires InTicketOrder(jobs, tickets, log, d)
    requires Targets(jobs, r.w, d) ==>
               r.w in tickets && forall i :: 0 <= i < |log| && Targets(jobs, log[i].w, d) ==>
                                   log[i].w in tickets && tickets[log[i].w] < tickets[r.w]
    ensures InTicketOrder(jobs, tickets, log + [r], d)
  {
  }

  lemma LoggedStep(s0: State, s: State, a: Action)
    requires CrashInv(s0, s) && Logged(s) && Enabled(s, a)
    ensures Logged(Apply(s, a))
  {
    LogShape(s, a);
    var log, log' := s.history.log, HistoryAfter(s, a).log;
    forall i | 0 <= i < |log'| ensures Entered(s.jobs, PcsAfter(s, a), log'[i]) {
      if i < |log| {
        assert Entered(s.jobs, s.pcs, log[i]);
        ReplacedStays(s, a, log[i].w);
      } else {
        ReplacesComplete(s0, s, a.w);
        ActorMoves(s, a);
      }
    }
  }

  lemma OrderedReplace(s: State, d: string, w: Writer)
    requires Logged(s) && Ticketed(s, d) && Ordered(s, d) && Enabled(s, Replace(w))
    ensures Ordered(Apply(s, Replace(w)), d)
  {
    var r := Replacement(w, Value(s, s.jobs[w].dest), Content(s.disk.vdata, s.disk.vdir[Temp(w)]));
    if s.jobs[w].dest == d { TicketIsNewest(s, d, w); }
    OrderSnoc(s.jobs, s.history.tickets, s.history.log, r, d);
    assert HistoryAfter(s, Replace(w)).log == s.history.log + [r];
  }

  lemma OrderedStep(s: State, a: Action, d: string)
    requires Logged(s) && Ticketed(s, d) && Ordered(s, d) && Enabled(s, a)
    ensures Ordered(Apply(s, a), d)
  {
    LogShape(s, a);
    if a.Replace? {
      OrderedReplace(s, d, a.w);
    } else {
      var log := s.history.log;
      forall i | 0 <= i < |log|
        ensures log[i].w in HistoryAfter(s, a).tickets <==> log[i].w in s.history.tickets
        ensures log[i].w in s.history.tickets ==> HistoryAfter(s, a).tickets[log[i].w] == s.history.tickets[log[i].w]
      {
        assert Entered(s.jobs, s.pcs, log[i]);
        ReplacedStays(s, a, log[i].w);
        TicketKept(s, a, log[i].w);
      }
    }
  }

  // ----- Values follow the log -----------------------------------------------------

  /** The last replacement of destination `d`, if any since boot. */
  function LastOf(jobs: map<Writer, Job>, log: seq<Replacement>, d: string): Option<Replacement> {
    if log == [] then None
    else
      var r := log[|log| - 1];
      if r.w in jobs && jobs[r.w].dest == d then Some(r) else LastOf(jobs, log[..|log| - 1], d)
  }

  function Latest(jobs: map<Writer, Job>, log: seq<Replacement>, base: map<string, octets>, d: string): Option<octets> {
    match LastOf(jobs, log, d)
    case Some(r) => Some(r.bytes)
    case None => if d in base then Some(base[d]) else None
  }

  ghost predicate ValuesFollow(s: State) {
    forall d :: d in Dests(s.jobs) ==> Value(s, d) == Latest(s.jobs, s.history.log, s.history.base, d)
  }

  /** Each replacement overwrote what the one before it had installed. */
  ghost predicate Chained(s: State) {
    var log := s.history.log;
    forall i :: 0 <= i < |log| && log[i].w in s.jobs ==>
      log[i].before == Latest(s.jobs, log[..i], s.history.base, s.jobs[log[i].w].dest)
  }

  /** A destination's value changes in a replace of it, or in a crash, and nowhere else. */
  lemma ValueFrame(s0: State, s: State, a: Action, d: string)
    requires CrashInv(s0, s) && Enabled(s, a) && d in Dests(s.jobs) && !a.Crash?
    requires !(a.Replace? && s.jobs[a.w].dest == d)
    ensures View(DiskAfter(s, a).vdir, DiskAfter(s, a).vdata, d) == Value(s, d)
  {
    DestEntry(s0, s, a, d);
    var p := File(d);
    if p in s.disk.vdir {
      var i := s.disk.vdir[p];
      assert MayStand(s.jobs, s.history.sealed, p, i);
      if i == Original(p) { VisibleFrame(s0, s, a, i); } else { SealedUntouched(s0, s, a, i.w); }
    }
  }

  lemma ValueReplaced(s0: State, s: State, w: Writer)
    requires CrashInv(s0, s) && Enabled(s, Replace(w))
    ensures View(DiskAfter(s, Replace(w)).vdir, DiskAfter(s, Replace(w)).vdata, s.jobs[w].dest)
            == Some(Content(s.disk.vdata, s.disk.vdir[Temp(w)]))
  {
  }

  lemma BootValues(s: State)
    ensures forall d :: View(s.disk.ddir, s.disk.ddata, d) ==
              if d in Files(s.disk.ddir, s.disk.ddata) then Some(Files(s.disk.ddir, s.disk.ddata)[d]) else None
  {
    var files := Files(s.disk.ddir, s.disk.ddata);
    forall d ensures View(s.disk.ddir, s.disk.ddata, d) == if d in files then Some(files[d]) else None {
      if File(d) in s.disk.ddir { assert File(d).name in files; }
    }
  }

  lemma ValueAfterReplace(s0: State, s: State, w: Writer, d: string)
    requires CrashInv(s0, s) && Enabled(s, Replace(w)) && ValuesFollow(s) && d in Dests(s.jobs)
    ensures var t := Apply(s, Replace(w)); Value(t, d) == Latest(t.jobs, t.history.log, t.history.base, d)
  {
    var log := s.history.log;
    assert HistoryAfter(s, Replace(w)).log[..|log|] == log;
    if s.jobs[w].dest == d { ValueReplaced(s0, s, w); } else { ValueFrame(s0, s, Replace(w), d); }
  }

  lemma ValuesStep(s0: State, s: State, a: Action)
    requires CrashInv(s0, s) && Enabled(s, a) && ValuesFollow(s)
    ensures ValuesFollow(Apply(s, a))
  {
    var t := Apply(s, a);
    LogShape(s, a);
    forall d | d in Dests(s.jobs) ensures Value(t, d) == Latest(t.jobs, t.history.log, t.history.base, d) {
      if a.Crash? {
        BootValues(s);
      } else if a.Replace? {
        ValueAfterReplace(s0, s, a.w, d);
      } else {
        ValueFrame(s0, s, a, d);
      }
    }
  }

  lemma ChainedStep(s: State, a: Action)
    requires Enabled(s, a) && ValuesFollow(s) && Chained(s)
    ensures Chained(Apply(s, a))
  {
    LogShape(s, a);
    var log, log' := s.history.log, HistoryAfter(s, a).log;
    if a.Replace? {
      assert s.jobs[a.w].dest in Dests(s.jobs);
      forall i | 0 <= i < |log'| && log'[i].w in s.jobs
        ensures log'[i].before == Latest(s.jobs, log'[..i], s.history.base, s.jobs[log'[i].w].dest)
      {
        if i < |log| { assert log'[..i] == log[..i]; } else { assert log'[..i] == log; }
      }
    }
  }

  /** The last replacement of a destination is one of the logged ones. */
  lemma {:induction false} LastIsLogged(jobs: map<Writer, Job>, log: seq<Replacement>, d: string)
    ensures var r := LastOf(jobs, log, d);
            r.Some? ==> Targets(jobs, r.value.w, d) && r.value in log
  {
    if log != [] { LastIsLogged(jobs, log[..|log| - 1], d); }
  }

  // ----- Failed calls and temporary files --------------------------------------------

  /** A temporary file that stands at a destination got there by a replace that succeeded. */
  ghost predicate Installed(jobs: map<Writer, Job>, pcs: map<Writer, Pc>, dir: map<Path, Inode>) {
    forall d :: d in Dests(jobs) && File(d) in dir && dir[File(d)].TempFile? ==>
      dir[File(d)].w in pcs && Replaced(pcs[dir[File(d)].w])
  }

  lemma DurableEntry(s: State, a: Action, p: Path)
    requires Enabled(s, a) && p in DiskAfter(s, a).ddir
    ensures || (p in s.disk.ddir && DiskAfter(s, a).ddir[p] == s.disk.ddir[p])
            || (p in s.disk.vdir && DiskAfter(s, a).ddir[p] == s.disk.vdir[p])
  {
  }

  lemma InstalledVisible(s0: State, s: State, a: Action)
    requires CrashInv(s0, s) && Enabled(s, a) && !a.Crash? && Installed(s.jobs, s.pcs, s.disk.vdir)
    ensures Installed(s.jobs, PcsAfter(s, a), DiskAfter(s, a).vdir)
  {
    var dir := DiskAfter(s, a).vdir;
    forall d | d in Dests(s.jobs) && File(d) in dir && dir[File(d)].TempFile?
      ensures dir[File(d)].w in PcsAfter(s, a) && Replaced(PcsAfter(s, a)[dir[File(d)].w])
    {
      DestEntry(s0, s, a, d);
      if !(a.Replace? && s.jobs[a.w].dest == d) { ReplacedStays(s, a, dir[File(d)].w); }
    }
  }

  lemma InstalledDurable(s: State, a: Action)
    requires Enabled(s, a)
    requires Installed(s.jobs, s.pcs, s.disk.vdir) && Installed(s.jobs, s.pcs, s.disk.ddir)
    ensures Installed(s.jobs, PcsAfter(s, a), DiskAfter(s, a).ddir)
  {
    var dir := DiskAfter(s, a).ddir;
    forall d | d in Dests(s.jobs) && File(d) in dir && dir[File(d)].TempFile?
      ensures dir[File(d)].w in PcsAfter(s, a) && Replaced(PcsAfter(s, a)[dir[File(d)].w])
    {
      DurableEntry(s, a, File(d));
      ReplacedStays(s, a, dir[File(d)].w);
    }
  }

  lemma InstalledStep(s0: State, s: State, a: Action)
    requires CrashInv(s0, s) && Enabled(s, a)
    requires Installed(s.jobs, s.pcs, s.disk.vdir) && Installed(s.jobs, s.pcs, s.disk.ddir)
    ensures Installed(s.jobs, PcsAfter(s, a), DiskAfter(s, a).vdir)
    ensures Installed(s.jobs, PcsAfter(s, a), DiskAfter(s, a).ddir)
  {
    InstalledDurable(s, a);
    if !a.Crash? { InstalledVisible(s0, s, a); }
  }

  /** Where a call has its temporary file: from making it to replacing with it or unlinking it. */
  predicate OwnsTemp(pc: Pc) {
    match pc
    case Idle => false
    case Leaving(ok, _) => !ok
    case Cleanup(ok) => !ok
    case Done(ok, clean) => !ok && !clean
    case Dead => false
    case _ => true
  }

  ghost predicate TempOwned(dir: map<Path, Inode>, pcs: map<Writer, Pc>, w: Writer) {
    && (Temp(w) in dir ==> w in pcs && (pcs[w].Dead? || OwnsTemp(pcs[w])))
    && (w in pcs && OwnsTemp(pcs[w]) ==> Temp(w) in dir)
  }

  ghost predicate TempsOwned(s: State) { forall w: Writer :: TempOwned(s.disk.vdir, s.pcs, w) }

  /** The steps that make or lose a temporary file, or the last chance to lose it. */
  predicate AboutTemp(a: Action) { a.Begin? || a.NoTemp? || a.Replace? || a.Unlink? || a.UnlinkFails? }

  lemma TempChanges(s: State, a: Action, w: Writer)
    requires Enabled(s, a) && Actor(a) == Some(w) && AboutTemp(a)
    requires Temp(w) in s.disk.vdir <==> OwnsTemp(s.pcs[w])
    ensures Temp(w) in DiskAfter(s, a).vdir <==> OwnsTemp(PcAfter(s, a))
  {
  }

  lemma StillOwns(s: State, a: Action)
    requires Enabled(s, a) && Actor(a).Some? && !AboutTemp(a)
    ensures OwnsTemp(PcAfter(s, a)) <==> OwnsTemp(s.pcs[Actor(a).value])
  {
  }

  lemma ActorAlive(s: State, a: Action)
    requires Enabled(s, a) && Actor(a).Some?
    ensures Actor(a).value in s.pcs && !s.pcs[Actor(a).value].Dead?
  {
  }

  lemma TempStepSelf(s: State, a: Action, w: Writer)
    requires Enabled(s, a) && Actor(a) == Some(w) && TempOwned(s.disk.vdir, s.pcs, w)
    ensures TempOwned(DiskAfter(s, a).vdir, PcsAfter(s, a), w)
  {
    ActorMoves(s, a);
    ActorAlive(s, a);
    if AboutTemp(a) {
      TempChanges(s, a, w);
    } else {
      StillOwns(s, a);
      OnlyRelinked(s, a, Temp(w));
    }
  }

  lemma TempStepOther(s: State, a: Action, w: Writer)
    requires Enabled(s, a) && Actor(a) != Some(w) && !a.Crash? && TempOwned(s.disk.vdir, s.pcs, w)
    ensures TempOwned(DiskAfter(s, a).vdir, PcsAfter(s, a), w)
  {
    PcsKeys(s, a);
    OnlyRelinked(s, a, Temp(w));
    if w in s.pcs { PcKeptOrDead(s, a, w); }
  }

  lemma TempsStep(s: State, a: Action)
    requires Enabled(s, a) && TempsOwned(s) && !a.Crash?
    ensures TempsOwned(Apply(s, a))
  {
    forall w: Writer ensures TempOwned(DiskAfter(s, a).vdir, PcsAfter(s, a), w) {
      if Actor(a) == Some(w) { TempStepSelf(s, a, w); } else { TempStepOther(s, a, w); }
    }
  }

  // ----- Whole runs ------------------------------------------------------------------

  /** What holds in every reachable state, whichever processes the calls run in. */
  ghost predicate LogInv(s0: State, s: State) {
    && CrashInv(s0, s)
    && Locking(s) && Logged(s) && ValuesFollow(s) && Chained(s)
    && Installed(s.jobs, s.pcs, s.disk.vdir) && Installed(s.jobs, s.pcs, s.disk.ddir)
  }

  lemma InitLogInv(s: State)
    requires Init(s)
    ensures LogInv(s, s)
  {
    InitInv(s);
    BootValues(s);
  }

  lemma LogInvStep(s0: State, s: State, a: Action)
    requires LogInv(s0, s) && Enabled(s, a)
    ensures LogInv(s0, Apply(s, a))
  {
    CrashInvStep(s0, s, a);
    LockingStep(s, a);
    LoggedStep(s0, s, a);
    ValuesStep(s0, s, a);
    ChainedStep(s, a);
    InstalledStep(s0, s, a);
  }

  lemma {:induction false} LogInvRun(s0: State, s: State, acts: seq<Action>)
    requires LogInv(s0, s) && ValidRun(s, acts)
    ensures LogInv(s0, Run(s, acts))
    decreases |acts|
  {
    if acts != [] {
      LogInvStep(s0, s, acts[0]);
      LogInvRun(s0, Apply(s, acts[0]), acts[1..]);
    }
  }

  lemma Reachable(s0: State, acts: seq<Action>)
    requires Init(s0) && ValidRun(s0, acts)
    ensures LogInv(s0, Run(s0, acts))
  {
    InitLogInv(s0);
    LogInvRun(s0, s0, acts);
  }

  /** Mutual exclusion, in every reachable state: two calls of one process inside the locked window
      have different destinations. */
  lemma HoldersDiffer(s0: State, acts: seq<Action>, v: Writer, w: Writer)
    requires Init(s0) && ValidRun(s0, acts) && v != w
    ensures var s := Run(s0, acts);
            Holds(s, v) && Holds(s, w) && s.jobs[v].process == s.jobs[w].process ==> s.jobs[v].dest != s.jobs[w].dest
  {
    Reachable(s0, acts);
    var s := Run(s0, acts);
    if Holds(s, v) && Holds(s, w) {
      assert s.locks[Key(s, v)] == v && s.locks[Key(s, w)] == w;
    }
  }

  /** Whichever processes write it, a destination holds what the last replacement since boot
      installed, and each replacement overwrote exactly what the previous one had installed. */
  lemma ValuesFollowReplacements(s0: State, acts: seq<Action>)
    requires Init(s0) && ValidRun(s0, acts)
    ensures var s := Run(s0, acts);
            var log := s.history.log;
            && (forall d :: d in Dests(s.jobs) ==>
                  Value(s, d) == Latest(s.jobs, log, s.history.base, d))
            && (forall i :: 0 <= i < |log| ==>
                  log[i].w in s.jobs
                  && log[i].before == Latest(s.jobs, log[..i], s.history.base, s.jobs[log[i].w].dest))
  {
    Reachable(s0, acts);
    var s := Run(s0, acts);
    forall i | 0 <= i < |s.history.log| ensures s.history.log[i].w in s.jobs {
      assert Entered(s.jobs, s.pcs, s.history.log[i]);
    }
  }

  /** The last replacement of a verifying call's destination is its own: the destination holds its data. */
  lemma LastInstalled(s0: State, s: State, w: Writer)
    requires LogInv(s0, s) && w in s.jobs && s.jobs[w].verify
    requires LastOf(s.jobs, s.history.log, s.jobs[w].dest).Some?
    requires LastOf(s.jobs, s.history.log, s.jobs[w].dest).value.w == w
    ensures Value(s, s.jobs[w].dest) == Some(s.jobs[w].data)
  {
    LastIsLogged(s.jobs, s.history.log, s.jobs[w].dest);
    var r := LastOf(s.jobs, s.history.log, s.jobs[w].dest).value;
    var i :| 0 <= i < |s.history.log| && s.history.log[i] == r;
    assert Entered(s.jobs, s.pcs, s.history.log[i]);
    assert s.jobs[w].dest in Dests(s.jobs);
  }

  predicate IsNewest(s: State, w: Writer) { s.history.log != [] && s.history.log[|s.history.log| - 1].w == w }

  /** While the newest replacement is a verifying call's, the destination holds all of its data,
      whatever other calls and processes did before. */
  lemma NewestIsInstalled(s0: State, acts: seq<Action>, w: Writer)
    requires Init(s0) && ValidRun(s0, acts) && w in s0.jobs && s0.jobs[w].verify
    ensures var s := Run(s0, acts);
            s.jobs == s0.jobs && (IsNewest(s, w) ==> Value(s, s.jobs[w].dest) == Some(s.jobs[w].data))
  {
    Reachable(s0, acts);
    var s := Run(s0, acts);
    if IsNewest(s, w) { LastInstalled(s0, s, w); }
  }

  /** A call that failed (in verification, in writing, or after its tenth replace) appears in
      no replacement, its file stands at no destination, and it never tried more than ten times. */
  lemma FailureChangesNothing(s0: State, acts: seq<Action>, w: Writer)
    requires Init(s0) && ValidRun(s0, acts) && w in s0.jobs
    ensures var s := Run(s0, acts);
            && w in s.pcs
            && (s.pcs[w].Replacing? ==> s.pcs[w].tries <= 9)
            && (!Replaced(s.pcs[w]) ==>
                  && (forall i :: 0 <= i < |s.history.log| ==> s.history.log[i].w != w)
                  && (forall d :: d in Dests(s.jobs) ==>
                        && (File(d) in s.disk.vdir ==> s.disk.vdir[File(d)] != TempFile(w))
                        && (File(d) in s.disk.ddir ==> s.disk.ddir[File(d)] != TempFile(w))))
  {
    Reachable(s0, acts);
    var s := Run(s0, acts);
    assert PcOkAt(s, w);
    forall i | 0 <= i < |s.history.log| && !Replaced(s.pcs[w]) ensures s.history.log[i].w != w {
      assert Entered(s.jobs, s.pcs, s.history.log[i]);
    }
  }

  // ----- The order of one destination's replacements -----------------------------------

  lemma {:induction false} OrderRun(s0: State, s: State, acts: seq<Action>, d: string)
    requires LogInv(s0, s) && OneProcess(s.jobs, d) && Ticketed(s, d) && Ordered(s, d) && ValidRun(s, acts)
    ensures Ordered(Run(s, acts), d)
    decreases |acts|
  {
    if acts != [] {
      LogInvStep(s0, s, acts[0]);
      TicketedStep(s, acts[0], d);
      OrderedStep(s, acts[0], d);
      OrderRun(s0, Apply(s, acts[0]), acts[1..], d);
    }
  }

  /** Within one process, replacements of a destination happen in the order their calls took its lock. */
  lemma ReplacesInLockOrder(s0: State, acts: seq<Action>, d: string)
    requires Init(s0) && ValidRun(s0, acts) && OneProcess(s0.jobs, d)
    ensures var s := Run(s0, acts); InTicketOrder(s.jobs, s.history.tickets, s.history.log, d)
  {
    InitLogInv(s0);
    OrderRun(s0, s0, acts, d);
  }

  // ----- Temporary files -----------------------------------------------------------------

  lemma {:induction false} TempsRun(s: State, acts: seq<Action>)
    requires TempsOwned(s) && ValidRun(s, acts)
    requires forall i :: 0 <= i < |acts| ==> !acts[i].Crash?
    ensures TempsOwned(Run(s, acts))
    decreases |acts|
  {
    if acts != [] {
      TempsStep(s, acts[0]);
      TempsRun(Apply(s, acts[0]), acts[1..]);
    }
  }

  /** Without a crash, a call that was not killed has its temporary file on disk exactly from
      making it until it replaces with it or unlinks it. So once no call is under way, exactly
      those calls have left one that failed and could not unlink. */
  lemma TempLeftExactlyWhen(s0: State, acts: seq<Action>, w: Writer)
    requires Init(s0) && ValidRun(s0, acts)
    requires forall i :: 0 <= i < |acts| ==> !acts[i].Crash?
    ensures var s := Run(s0, acts);
            && (Temp(w) in s.disk.vdir ==> w in s.pcs)
            && (w in s.pcs && !s.pcs[w].Dead? ==> (Temp(w) in s.disk.vdir <==> OwnsTemp(s.pcs[w])))
            && (w in s.pcs && s.pcs[w].Done? ==>
                  (Temp(w) in s.disk.vdir <==> !s.pcs[w].ok && !s.pcs[w].clean))
  {
    TempsRun(s0, acts);
    var s := Run(s0, acts);
    assert TempOwned(s.disk.vdir, s.pcs, w);
  }
}
