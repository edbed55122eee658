// What a reader of a destination can find, whatever interleaving and whatever crash.
module AtomicSafety {
  import opened Prelude
  import opened AtomicWrite

  // ----- Safety in the presence of crashes ------------------------------------

  /** Which files may stand at a path. */
  ghost predicate MayStand(jobs: map<Writer, Job>, sealed: set<Writer>, p: Path, i: Inode) {
    match p
    case Temp(w) => i == TempFile(w)
    case File(n) =>
      || i == Original(p)
      || (n in Dests(jobs) && i.TempFile? && i.w in sealed && i.w in jobs && jobs[i.w].dest == n)
      || (n !in Dests(jobs) && i.BackupFile? && i.w in jobs && n == BackupName(jobs[i.w].dest))
  }

  ghost predicate Names(jobs: map<Writer, Job>, sealed: set<Writer>, dir: map<Path, Inode>) {
    forall p :: p in dir ==> MayStand(jobs, sealed, p, dir[p])
  }

  /** What a temporary file may hold: a prefix of the data, all of it when verified. */
  predicate Complete(j: Job, c: octets) { c <= j.data && (j.verify ==> c == j.data) }

  ghost predicate SealedOk(jobs: map<Writer, Job>, sealed: set<Writer>,
                           vdata: map<Inode, octets>, ddata: map<Inode, octets>) {
    forall w :: w in sealed ==>
      && w in jobs
      && Content(ddata, TempFile(w)) == Content(vdata, TempFile(w))
      && Complete(jobs[w], Content(vdata, TempFile(w)))
  }

  /** `v` and `d` are the visible and the durable content of the call's temporary file. */
  ghost predicate PcOk(jobs: map<Writer, Job>, w: Writer, pc: Pc, sealed: bool, v: octets, d: octets)
    requires w in jobs
  {
    match pc
    case Idle => !sealed
    case Writing => !sealed && v <= jobs[w].data
    case Synced => !sealed && v == d && v <= jobs[w].data
    case Saving(prior, i, n) =>
      && sealed && n <= |prior|
      && (|| i == Original(File(BackupName(jobs[w].dest)))
          || (i.BackupFile? && i.w in jobs && jobs[i.w].dest == jobs[w].dest))
    case Replacing(_, tries) => sealed && tries <= 9
    case Leaving(ok, _) => ok ==> sealed
    case Cleanup(ok) => true
    case Done(_, _) => true
    case Dead => true
    case _ => sealed
  }

  ghost predicate PcOkAt(s: State, w: Writer)
    requires w in s.jobs && w in s.pcs
  {
    PcOk(s.jobs, w, s.pcs[w], w in s.history.sealed, Content(s.disk.vdata, TempFile(w)), Content(s.disk.ddata, TempFile(w)))
  }

  ghost predicate PcsOk(s: State) {
    s.pcs.Keys == s.jobs.Keys && forall w :: w in s.pcs ==> PcOkAt(s, w)
  }

  /** Destinations' original files are never written, and no destination disappears or
      turns back into an original that was not there. */
  ghost predicate OriginalAt(p: Path, s0: State, dir: map<Path, Inode>, data: map<Inode, octets>) {
    && Content(data, Original(p)) == Content(s0.disk.vdata, Original(p))
    && (p in s0.disk.vdir ==> p in dir)
    && (p in dir && dir[p] == Original(p) ==> p in s0.disk.vdir)
  }

  ghost predicate Originals(s0: State, dir: map<Path, Inode>, data: map<Inode, octets>) {
    forall d :: d in Dests(s0.jobs) ==> OriginalAt(File(d), s0, dir, data)
  }

  ghost predicate CrashInv(s0: State, s: State) {
    && s.jobs == s0.jobs && Separated(s.jobs)
    && Names(s.jobs, s.history.sealed, s.disk.vdir) && Names(s.jobs, s.history.sealed, s.disk.ddir)
    && SealedOk(s.jobs, s.history.sealed, s.disk.vdata, s.disk.ddata) && PcsOk(s)
    && Originals(s0, s.disk.vdir, s.disk.vdata) && Originals(s0, s.disk.ddir, s.disk.ddata)
  }

  lemma SameBackup(d: string, e: string)
    ensures BackupName(d) == BackupName(e) <==> d == e
  {
    assert d == BackupName(d)[..|BackupName(d)| - 4];
    assert e == BackupName(e)[..|BackupName(e)| - 4];
  }

  /** The file a backup is written into is nobody's temporary file and no destination's original. */
  lemma BackupInodeKind(s0: State, s: State, w: Writer)
    requires CrashInv(s0, s) && w in s.jobs
    ensures var i := BackupInode(s, w);
            || i == Original(Backup(s, w))
            || (i.BackupFile? && i.w in s.jobs && s.jobs[i.w].dest == s.jobs[w].dest)
    ensures forall d :: d in Dests(s.jobs) ==> File(d) != Backup(s, w)
  {
    assert s.jobs[w].dest in Dests(s.jobs);
    if Backup(s, w) in s.disk.vdir {
      var i := s.disk.vdir[Backup(s, w)];
      assert MayStand(s.jobs, s.history.sealed, Backup(s, w), i);
      if i.BackupFile? { SameBackup(s.jobs[w].dest, s.jobs[i.w].dest); }
    }
  }

  lemma NamesReplace(s0: State, s: State, w: Writer)
    requires CrashInv(s0, s) && Enabled(s, Replace(w))
    ensures Names(s.jobs, s.history.sealed, DiskAfter(s, Replace(w)).vdir)
  {
    assert MayStand(s.jobs, s.history.sealed, Temp(w), s.disk.vdir[Temp(w)]);
    assert PcOkAt(s, w);
    assert s.jobs[w].dest in Dests(s.jobs);
  }

  lemma NamesOpenBackup(s0: State, s: State, w: Writer)
    requires CrashInv(s0, s) && Enabled(s, OpenBackup(w))
    ensures Names(s.jobs, s.history.sealed, DiskAfter(s, OpenBackup(w)).vdir)
  {
    BackupInodeKind(s0, s, w);
    assert s.jobs[w].dest in Dests(s.jobs);
  }

  lemma NamesGrow(jobs: map<Writer, Job>, small: set<Writer>, big: set<Writer>, dir: map<Path, Inode>)
    requires Names(jobs, small, dir) && small <= big
    ensures Names(jobs, big, dir)
  {
    forall p | p in dir ensures MayStand(jobs, big, p, dir[p]) {
      assert MayStand(jobs, small, p, dir[p]);
    }
  }

  lemma NamesVisible(s0: State, s: State, a: Action)
    requires CrashInv(s0, s) && Enabled(s, a) && !a.Verify?
    ensures Names(s.jobs, s.history.sealed, DiskAfter(s, a).vdir)
  {
    if a.OpenBackup? {
      NamesOpenBackup(s0, s, a.w);
    } else if a.Replace? {
      NamesReplace(s0, s, a.w);
    }
  }

  lemma NamesDurable(s0: State, s: State, a: Action)
    requires CrashInv(s0, s) && Enabled(s, a) && !a.Verify?
    ensures Names(s.jobs, s.history.sealed, DiskAfter(s, a).ddir)
  {
    if a.FlushEntry? && a.p in s.disk.vdir {
      assert MayStand(s.jobs, s.history.sealed, a.p, s.disk.vdir[a.p]);
    }
  }

  lemma NamesStep(s0: State, s: State, a: Action)
    requires CrashInv(s0, s) && Enabled(s, a)
    ensures Names(s.jobs, HistoryAfter(s, a).sealed, DiskAfter(s, a).vdir)
    ensures Names(s.jobs, HistoryAfter(s, a).sealed, DiskAfter(s, a).ddir)
  {
    if a.Verify? {
      NamesGrow(s.jobs, s.history.sealed, HistoryAfter(s, a).sealed, s.disk.vdir);
      NamesGrow(s.jobs, s.history.sealed, HistoryAfter(s, a).sealed, s.disk.ddir);
    } else {
      NamesVisible(s0, s, a);
      NamesDurable(s0, s, a);
    }
  }

  lemma SaveTargetsBackup(s0: State, s: State, w: Writer)
    requires CrashInv(s0, s) && w in s.pcs && s.pcs[w].Saving?
    ensures s.pcs[w].inode.BackupFile? || s.pcs[w].inode == Original(Backup(s, w))
    ensures BackupName(s.jobs[w].dest) !in Dests(s.jobs)
  {
    assert PcOkAt(s, w);
    assert s.jobs[w].dest in Dests(s.jobs);
  }

  /** The file whose visible data a step writes, if any; a crash rewrites them all. */
  function Written(s: State, a: Action): Option<Inode>
    requires Enabled(s, a)
  {
    if a.Begin? || a.Write? then Some(TempFile(a.w))
    else if a.OpenBackup? then Some(BackupInode(s, a.w))
    else if a.Save? then Some(s.pcs[a.w].inode)
    else None
  }

  lemma OnlyWritten(s: State, a: Action, i: Inode)
    requires Enabled(s, a) && !a.Crash? && Written(s, a) != Some(i)
    ensures Content(DiskAfter(s, a).vdata, i) == Content(s.disk.vdata, i)
  {
  }

  /** The visible paths a step changes. */
  function Relinked(s: State, a: Action): set<Path>
    requires Enabled(s, a)
  {
    if a.Begin? || a.Unlink? then {Temp(a.w)}
    else if a.OpenBackup? then {Backup(s, a.w)}
    else if a.Replace? then {Temp(a.w), Dest(s, a.w)}
    else {}
  }

  lemma OnlyRelinked(s: State, a: Action, p: Path)
    requires Enabled(s, a) && !a.Crash? && p !in Relinked(s, a)
    ensures var dir := DiskAfter(s, a).vdir;
            (p in dir <==> p in s.disk.vdir) && (p in dir ==> dir[p] == s.disk.vdir[p])
  {
  }

  /** A step leaves alone every file its call is not writing. */
  lemma VisibleFrame(s0: State, s: State, a: Action, i: Inode)
    requires CrashInv(s0, s) && Enabled(s, a) && !a.Crash?
    requires Actor(a).Some? ==> i != TempFile(Actor(a).value) && !i.BackupFile?
    requires i.Original? ==> i.path.File? && i.path.name in Dests(s.jobs)
    ensures Content(DiskAfter(s, a).vdata, i) == Content(s.disk.vdata, i)
  {
    WritesNoOther(s0, s, a, i);
    OnlyWritten(s, a, i);
  }

  lemma WritesNoOther(s0: State, s: State, a: Action, i: Inode)
    requires CrashInv(s0, s) && Enabled(s, a) && !a.Crash?
    requires Actor(a).Some? ==> i != TempFile(Actor(a).value) && !i.BackupFile?
    requires i.Original? ==> i.path.File? && i.path.name in Dests(s.jobs)
    ensures Written(s, a) != Some(i)
  {
    if a.OpenBackup? {
      BackupInodeKind(s0, s, a.w);
    } else if a.Save? {
      SaveTargetsBackup(s0, s, a.w);
    }
  }

  lemma DurableFrame(s: State, a: Action, i: Inode)
    requires Enabled(s, a)
    requires Actor(a).Some? ==> i != TempFile(Actor(a).value)
    ensures || Content(DiskAfter(s, a).ddata, i) == Content(s.disk.ddata, i)
            || (a.WriteBack? && a.i == i && Content(s.disk.vdata, i) != Content(s.disk.ddata, i))
  {
  }

  /** A sealed file is never written again. */
  lemma SealedUntouched(s0: State, s: State, a: Action, w: Writer)
    requires CrashInv(s0, s) && Enabled(s, a) && w in s.history.sealed
    ensures Content(DiskAfter(s, a).vdata, TempFile(w)) == Content(s.disk.vdata, TempFile(w))
    ensures Content(DiskAfter(s, a).ddata, TempFile(w)) == Content(s.disk.vdata, TempFile(w))
  {
    assert PcOkAt(s, w);
    if a.Crash? {
    } else if Actor(a) == Some(w) {
      if a.OpenBackup? { BackupInodeKind(s0, s, w); }
    } else {
      VisibleFrame(s0, s, a, TempFile(w));
      DurableFrame(s, a, TempFile(w));
    }
  }

  lemma SealedStep(s0: State, s: State, a: Action)
    requires CrashInv(s0, s) && Enabled(s, a)
    ensures SealedOk(s.jobs, HistoryAfter(s, a).sealed, DiskAfter(s, a).vdata, DiskAfter(s, a).ddata)
  {
    var sealed := HistoryAfter(s, a).sealed;
    forall w | w in sealed
      ensures w in s.jobs
      ensures Content(DiskAfter(s, a).ddata, TempFile(w)) == Content(DiskAfter(s, a).vdata, TempFile(w))
      ensures Complete(s.jobs[w], Content(DiskAfter(s, a).vdata, TempFile(w)))
    {
      if w in s.history.sealed {
        SealedUntouched(s0, s, a, w);
      } else {
        assert a == Verify(w);
        assert PcOkAt(s, w);
      }
    }
  }

  lemma SealedChange(s: State, a: Action, w: Writer)
    requires Enabled(s, a)
    ensures w in HistoryAfter(s, a).sealed <==> w in s.history.sealed || (a == Verify(w) && Passes(s, w))
  {
  }

  lemma PcChange(s: State, a: Action, w: Writer)
    requires Enabled(s, a) && w in s.pcs && Actor(a) != Some(w) && !a.Crash?
    ensures PcsAfter(s, a)[w] == s.pcs[w] || PcsAfter(s, a)[w] == Dead
  {
  }

  lemma PcKept(jobs: map<Writer, Job>, w: Writer, pc: Pc, pc': Pc, sealed: bool,
               v: octets, d: octets, d': octets)
    requires w in jobs && PcOk(jobs, w, pc, sealed, v, d)
    requires pc' == pc || pc' == Dead
    requires d' == d || v != d
    ensures PcOk(jobs, w, pc', sealed, v, d')
  {
  }

  lemma PcsStepOther(s0: State, s: State, a: Action, w: Writer)
    requires CrashInv(s0, s) && Enabled(s, a) && w in s.pcs && Actor(a) != Some(w) && !a.Crash?
    ensures PcOk(s.jobs, w, PcsAfter(s, a)[w], w in HistoryAfter(s, a).sealed,
                 Content(DiskAfter(s, a).vdata, TempFile(w)), Content(DiskAfter(s, a).ddata, TempFile(w)))
  {
    assert PcOkAt(s, w);
    SealedChange(s, a, w);
    PcChange(s, a, w);
    VisibleFrame(s0, s, a, TempFile(w));
    DurableFrame(s, a, TempFile(w));
    PcKept(s.jobs, w, s.pcs[w], PcsAfter(s, a)[w], w in s.history.sealed, Content(s.disk.vdata, TempFile(w)),
           Content(s.disk.ddata, TempFile(w)), Content(DiskAfter(s, a).ddata, TempFile(w)));
  }

  lemma PcsStepCrash(s0: State, s: State, w: Writer)
    requires CrashInv(s0, s) && w in s.pcs
    ensures PcOk(s.jobs, w, PcsAfter(s, Crash)[w], w in s.history.sealed,
                 Content(s.disk.ddata, TempFile(w)), Content(s.disk.ddata, TempFile(w)))
  {
    assert PcOkAt(s, w);
  }

  predicate BeforeLock(a: Action) {
    a.Begin? || a.NoTemp? || a.Write? || a.Sync? || a.Verify? || a.Fail? || a.Lock?
  }

  lemma PcsStepEarly(s: State, a: Action, w: Writer)
    requires Enabled(s, a) && Actor(a) == Some(w) && BeforeLock(a) && w in s.jobs && PcOkAt(s, w)
    ensures PcOk(s.jobs, w, PcAfter(s, a), w in HistoryAfter(s, a).sealed,
                 Content(DiskAfter(s, a).vdata, TempFile(w)), Content(DiskAfter(s, a).ddata, TempFile(w)))
  {
  }

  lemma PcsStepOpen(s0: State, s: State, w: Writer)
    requires CrashInv(s0, s) && Enabled(s, OpenBackup(w)) && PcOkAt(s, w)
    ensures PcOk(s.jobs, w, PcAfter(s, OpenBackup(w)), w in HistoryAfter(s, OpenBackup(w)).sealed,
                 Content(DiskAfter(s, OpenBackup(w)).vdata, TempFile(w)),
                 Content(DiskAfter(s, OpenBackup(w)).ddata, TempFile(w)))
  {
    BackupInodeKind(s0, s, w);
  }

  /** Once the lock is taken, neither the file nor its seal matters to where a call may stand. */
  lemma PcsStepLate(s: State, a: Action, w: Writer, v: octets, d: octets)
    requires Enabled(s, a) && Actor(a) == Some(w) && !BeforeLock(a) && !a.OpenBackup? && w in s.jobs && PcOkAt(s, w)
    ensures PcOk(s.jobs, w, PcAfter(s, a), w in HistoryAfter(s, a).sealed, v, d)
  {
  }

  lemma PcsStepSelf(s0: State, s: State, a: Action, w: Writer)
    requires CrashInv(s0, s) && Enabled(s, a) && Actor(a) == Some(w)
    ensures PcOk(s.jobs, w, PcAfter(s, a), w in HistoryAfter(s, a).sealed,
                 Content(DiskAfter(s, a).vdata, TempFile(w)), Content(DiskAfter(s, a).ddata, TempFile(w)))
  {
    assert PcOkAt(s, w);
    if BeforeLock(a) {
      PcsStepEarly(s, a, w);
    } else if a.OpenBackup? {
      PcsStepOpen(s0, s, w);
    } else {
      PcsStepLate(s, a, w, Content(DiskAfter(s, a).vdata, TempFile(w)), Content(DiskAfter(s, a).ddata, TempFile(w)));
    }
  }

  lemma ActorMoves(s: State, a: Action)
    requires Enabled(s, a) && Actor(a).Some?
    ensures PcsAfter(s, a) == s.pcs[Actor(a).value := PcAfter(s, a)]
  {
  }

  lemma PcsStepAt(s0: State, s: State, a: Action, w: Writer)
    requires CrashInv(s0, s) && Enabled(s, a) && w in s.pcs && w in PcsAfter(s, a)
    ensures PcOk(s.jobs, w, PcsAfter(s, a)[w], w in HistoryAfter(s, a).sealed,
                 Content(DiskAfter(s, a).vdata, TempFile(w)), Content(DiskAfter(s, a).ddata, TempFile(w)))
  {
    if Actor(a) == Some(w) {
      PcsStepSelf(s0, s, a, w);
      ActorMoves(s, a);
    } else if a.Crash? {
      PcsStepCrash(s0, s, w);
    } else {
      PcsStepOther(s0, s, a, w);
    }
  }

  lemma PcsKeys(s: State, a: Action)
    requires Enabled(s, a)
    ensures PcsAfter(s, a).Keys == s.pcs.Keys
  {
  }

  lemma PcsStep(s0: State, s: State, a: Action)
    requires CrashInv(s0, s) && Enabled(s, a)
    ensures PcsOk(Apply(s, a))
  {
    PcsKeys(s, a);
    forall w | w in PcsAfter(s, a) ensures PcOkAt(Apply(s, a), w) {
      PcsStepAt(s0, s, a, w);
    }
  }

  lemma OriginalsStep(s0: State, s: State, a: Action)
    requires CrashInv(s0, s) && Enabled(s, a)
    ensures Originals(s0, DiskAfter(s, a).vdir, DiskAfter(s, a).vdata)
    ensures Originals(s0, DiskAfter(s, a).ddir, DiskAfter(s, a).ddata)
  {
    var k := DiskAfter(s, a);
    forall d | d in Dests(s.jobs)
      ensures OriginalAt(File(d), s0, k.vdir, k.vdata) && OriginalAt(File(d), s0, k.ddir, k.ddata)
    {
      OriginalVisible(s0, s, a, d);
      OriginalDurable(s0, s, a, d);
    }
  }

  /** Only a replace or a crash changes what stands at a destination. */
  lemma DestEntry(s0: State, s: State, a: Action, d: string)
    requires CrashInv(s0, s) && Enabled(s, a) && d in Dests(s.jobs) && !a.Crash?
    ensures var p, dir := File(d), DiskAfter(s, a).vdir;
            if a.Replace? && s.jobs[a.w].dest == d then p in dir && dir[p] == TempFile(a.w)
            else (p in dir <==> p in s.disk.vdir) && (p in dir ==> dir[p] == s.disk.vdir[p])
  {
    if a.Replace? && s.jobs[a.w].dest == d {
      assert MayStand(s.jobs, s.history.sealed, Temp(a.w), s.disk.vdir[Temp(a.w)]);
    } else {
      if a.OpenBackup? { BackupInodeKind(s0, s, a.w); }
      OnlyRelinked(s, a, File(d));
    }
  }

  lemma OriginalVisible(s0: State, s: State, a: Action, d: string)
    requires CrashInv(s0, s) && Enabled(s, a) && d in Dests(s.jobs)
    ensures OriginalAt(File(d), s0, DiskAfter(s, a).vdir, DiskAfter(s, a).vdata)
  {
    var p := File(d);
    assert OriginalAt(p, s0, s.disk.vdir, s.disk.vdata) && OriginalAt(p, s0, s.disk.ddir, s.disk.ddata);
    if !a.Crash? {
      VisibleFrame(s0, s, a, Original(p));
      DestEntry(s0, s, a, d);
    }
  }

  lemma OriginalDurable(s0: State, s: State, a: Action, d: string)
    requires CrashInv(s0, s) && Enabled(s, a) && d in Dests(s.jobs)
    ensures OriginalAt(File(d), s0, DiskAfter(s, a).ddir, DiskAfter(s, a).ddata)
  {
    var p := File(d);
    assert OriginalAt(p, s0, s.disk.vdir, s.disk.vdata) && OriginalAt(p, s0, s.disk.ddir, s.disk.ddata);
    if !a.Crash? { DurableFrame(s, a, Original(p)); }
  }

  lemma CrashInvStep(s0: State, s: State, a: Action)
    requires CrashInv(s0, s) && Enabled(s, a)
    ensures CrashInv(s0, Apply(s, a))
  {
    NamesStep(s0, s, a);
    SealedStep(s0, s, a);
    PcsStep(s0, s, a);
    OriginalsStep(s0, s, a);
  }

  // ----- Old content or complete new content ------------------------------------

  lemma InitInv(s: State)
    requires Init(s)
    ensures CrashInv(s, s)
  {
  }

  lemma {:induction false} RunInv(s0: State, s: State, acts: seq<Action>)
    requires CrashInv(s0, s) && ValidRun(s, acts)
    ensures CrashInv(s0, Run(s, acts))
    decreases |acts|
  {
    if acts != [] {
      CrashInvStep(s0, s, acts[0]);
      RunInv(s0, Apply(s, acts[0]), acts[1..]);
    }
  }

  /** The initial content (or absence), or what one call for this destination wrote. */
  ghost predicate OldOrNew(s0: State, d: string, v: Option<octets>) {
    || v == Value(s0, d)
    || (v.Some? && exists w :: w in s0.jobs && s0.jobs[w].dest == d && Complete(s0.jobs[w], v.value))
  }

  lemma ViewOldOrNew(s0: State, s: State, d: string, dir: map<Path, Inode>, data: map<Inode, octets>)
    requires CrashInv(s0, s) && d in Dests(s.jobs) && Names(s.jobs, s.history.sealed, dir)
    requires OriginalAt(File(d), s0, dir, data)
    requires (dir == s.disk.vdir && data == s.disk.vdata) || (dir == s.disk.ddir && data == s.disk.ddata)
    requires forall p :: p in s0.disk.vdir ==> s0.disk.vdir[p] == Original(p)
    ensures OldOrNew(s0, d, View(dir, data, d))
  {
    var p := File(d);
    if p in dir {
      assert MayStand(s.jobs, s.history.sealed, p, dir[p]);
      if dir[p] != Original(p) {
        var w := dir[p].w;
        assert w in s0.jobs && s0.jobs[w].dest == d && Complete(s0.jobs[w], View(dir, data, d).value);
      }
    }
  }

  /** However calls, write-back and crashes interleave, each destination holds its initial
      content or the content of one call, both now and after a crash at this point. */
  lemma AtomicThroughCrashes(s0: State, acts: seq<Action>, d: string)
    requires Init(s0) && ValidRun(s0, acts) && d in Dests(s0.jobs)
    ensures OldOrNew(s0, d, Value(Run(s0, acts), d))
    ensures OldOrNew(s0, d, Durable(Run(s0, acts), d))
  {
    InitInv(s0);
    RunInv(s0, s0, acts);
    var s := Run(s0, acts);
    ViewOldOrNew(s0, s, d, s.disk.vdir, s.disk.vdata);
    ViewOldOrNew(s0, s, d, s.disk.ddir, s.disk.ddata);
  }
}
