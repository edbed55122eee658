// Which payloads on file a suite's runs come from, which are ignored, and which count twice.
module EvidenceRuns {
  import opened Prelude
  import opened PythonJson
  import IsoTime
  import opened Qualification
  import opened QualificationSummary
  import Sorting

  // ----- Ignored payloads -----------------------------------------------------------

  predicate BoolAt(d: Fields, key: string) { GetOr(d, key, Null).Bool? }

  /** An outcome is a boolean under one of two keys, or a summary's `all_passed`. */
  predicate HasOutcome(p: Fields) {
    || BoolAt(p, "pass") || BoolAt(p, "passed")
    || (GetOr(p, "summary", Null).Obj? && BoolAt(GetOr(p, "summary", Null).fields, "all_passed"))
  }

  /** The first truthy timestamp field is a text that names an instant. */
  predicate HasTime(lib: Library, p: Fields) { ParseTimestamp(lib, RawTimestamp(p)).Some? }

  predicate Readable(lib: Library, p: Fields) { HasOutcome(p) && HasTime(lib, p) }

  lemma IgnoredExactlyWhen(lib: Library, p: Fields, source: string)
    ensures NormalizeRun(lib, p, source).None? <==> !Readable(lib, p)
  {
  }

  // ----- What a run says ---------------------------------------------------------------

  /** The first of the three keys that holds a boolean decides; the third stands in the summary. */
  function OutcomeOf(p: Fields): bool
    requires HasOutcome(p)
  {
    if BoolAt(p, "pass") then GetOr(p, "pass", Null).flag
    else if BoolAt(p, "passed") then GetOr(p, "passed", Null).flag
    else GetOr(GetOr(p, "summary", Null).fields, "all_passed", Null).flag
  }

  /** A run carries its payload's outcome, the isoformat of its time, its own output file or else the
      file it stands in, and exactly the failure reasons that are not blank, or, where no reasons are
      listed, one that names the failed languages if there are any. */
  lemma RunSays(lib: Library, p: Fields, source: string)
    requires Readable(lib, p)
    ensures NormalizeRun(lib, p, source).Some?
    ensures var r := NormalizeRun(lib, p, source).value;
            var output, given := lib.strip(Text(lib, GetOr(p, "output_file", Str("")))), GetOr(p, "failure_reasons", Null);
            && r.passed == OutcomeOf(p) && r.timestamp == IsoTime.Iso(TimeOfPayload(lib, p)) && r.source == source
            && r.output == (if output != "" then output else source)
            && (given.Arr? ==>
                  forall x :: x in r.reasons <==> exists j :: j in given.items && Text(lib, j) == x && lib.strip(x) != "")
            && (!given.Arr? ==> |r.reasons| <= 1 && (r.reasons != [] <==> FailedLanguages(p) != []))
  {
    var given := GetOr(p, "failure_reasons", Null);
    if given.Arr? {
      forall x ensures x in NonBlank(lib, given.items) <==> exists j :: j in given.items && Text(lib, j) == x && lib.strip(x) != "" {
        NonBlankHas(lib, given.items, x);
      }
    }
  }

  /** The summary's list of failed languages, empty where there is none. */
  function FailedLanguages(p: Fields): seq<Json> {
    var summary := GetOr(p, "summary", Null);
    if summary.Obj? && GetOr(summary.fields, "failed_languages", Null).Arr?
    then GetOr(summary.fields, "failed_languages", Null).items
    else []
  }

  lemma {:induction false} NonBlankHas(lib: Library, items: seq<Json>, x: string)
    ensures x in NonBlank(lib, items) <==> exists j :: j in items && Text(lib, j) == x && lib.strip(x) != ""
  {
    if items != [] {
      NonBlankHas(lib, items[1..], x);
      assert items == [items[0]] + items[1..];
    }
  }

  function TimeOfPayload(lib: Library, p: Fields): IsoTime.UtcStamp
    requires HasTime(lib, p)
  {
    ParseTimestamp(lib, RawTimestamp(p)).value
  }

  /** The time is read from the first of three fields that says anything. */
  lemma TimeFields(lib: Library, p: Fields)
    ensures var run, generated := GetOr(p, "run_timestamp_utc", Null), GetOr(p, "generated_at", Null);
            && (Truthy(run) ==> RawTimestamp(p) == run)
            && (!Truthy(run) && Truthy(generated) ==> RawTimestamp(p) == generated)
            && (!Truthy(run) && !Truthy(generated) ==> RawTimestamp(p) == GetOr(p, "evaluated_at", Null))
  {
  }

  /** A text ending in Z is read as the same text with an offset of zero; any other as it is. */
  lemma ZuluIsUtc(lib: Library, raw: string, c: string)
    requires lib.strip(raw) == c && c != ""
    ensures c[|c| - 1] != 'Z' ==> ParseTimestamp(lib, Str(raw)) == lib.instant(c)
    ensures forall text :: c == text + "Z" ==> ParseTimestamp(lib, Str(raw)) == lib.instant(text + "+00:00")
  {
    forall text | c == text + "Z" ensures ParseTimestamp(lib, Str(raw)) == lib.instant(text + "+00:00") {
      assert c[..|c| - 1] == text;
    }
  }

  // ----- Where runs come from ----------------------------------------------------------

  /** A payload as the collection reads it, with the file it stands in. */
  predicate OnFile(lib: Library, evidence: Evidence, config: Fields, p: Fields, source: string) {
    || (source == HistoryFile(lib, config) && p in evidence.history(source))
    || (source == LatestFile(lib, config) && p == evidence.latest(source) && p != [])
  }

  /** What a readable payload's run is told apart by. */
  function KeyFrom(lib: Library, p: Fields, source: string): Key
    requires Readable(lib, p)
  {
    IgnoredExactlyWhen(lib, p, source);
    KeyOf(NormalizeRun(lib, p, source).value)
  }

  ghost predicate Stems(lib: Library, evidence: Evidence, config: Fields, key: Key, p: Fields, source: string) {
    OnFile(lib, evidence, config, p, source) && Readable(lib, p) && KeyFrom(lib, p, source) == key
  }

  /** Two files give one payload the same key exactly when it names its output file. */
  lemma KeyAcrossFiles(lib: Library, p: Fields, h: string, l: string)
    requires Readable(lib, p)
    ensures KeyFrom(lib, p, h) == KeyFrom(lib, p, l) <==> Stripped(lib, p, "output_file") != "" || h == l
  {
  }

  ghost predicate Yields(lib: Library, payloads: seq<Fields>, source: string, r: Run) {
    exists p :: p in payloads && NormalizeRun(lib, p, source) == Some(r)
  }

  lemma YieldsSnoc(lib: Library, init: seq<Fields>, last: Fields, source: string, r: Run)
    ensures Yields(lib, init + [last], source, r) <==>
            Yields(lib, init, source, r) || NormalizeRun(lib, last, source) == Some(r)
  {
    assert last in init + [last];
  }

  lemma NormalizedSnoc(lib: Library, init: seq<Fields>, last: Fields, source: string, r: Run)
    ensures r in Normalized(lib, init + [last], source) <==>
            r in Normalized(lib, init, source) || NormalizeRun(lib, last, source) == Some(r)
  {
    assert (init + [last])[..|init|] == init;
  }

  lemma {:induction false} NormalizedComesFrom(lib: Library, payloads: seq<Fields>, source: string, r: Run)
    ensures r in Normalized(lib, payloads, source) <==> Yields(lib, payloads, source, r)
  {
    if payloads != [] {
      var init, last := payloads[..|payloads| - 1], payloads[|payloads| - 1];
      assert payloads == init + [last];
      NormalizedComesFrom(lib, init, source, r);
      YieldsSnoc(lib, init, last, source, r);
      NormalizedSnoc(lib, init, last, source, r);
    }
  }

  lemma OfferedComesFrom(lib: Library, evidence: Evidence, config: Fields, r: Run)
    ensures r in Offered(lib, evidence, config) <==>
            exists p, source :: OnFile(lib, evidence, config, p, source) && NormalizeRun(lib, p, source) == Some(r)
  {
    var h, l := HistoryFile(lib, config), LatestFile(lib, config);
    var latest := evidence.latest(l);
    NormalizedComesFrom(lib, evidence.history(h), h, r);
    NormalizedComesFrom(lib, if latest != [] then [latest] else [], l, r);
    if Yields(lib, evidence.history(h), h, r) {
      var p :| p in evidence.history(h) && NormalizeRun(lib, p, h) == Some(r);
      assert OnFile(lib, evidence, config, p, h);
    }
    if latest != [] && NormalizeRun(lib, latest, l) == Some(r) {
      assert OnFile(lib, evidence, config, latest, l);
    }
  }

  /** A run stands for a key exactly when a readable payload on file has it: unreadable payloads
      are ignored, every other one counts. */
  lemma RunsComeFrom(lib: Library, evidence: Evidence, config: Fields, key: Key)
    requires Lawful(lib)
    ensures HasKey(SuiteRuns(lib, evidence, config), key) <==>
            exists p, source :: Stems(lib, evidence, config, key, p, source)
  {
    var offered, runs := Offered(lib, evidence, config), SuiteRuns(lib, evidence, config);
    SuiteRunsAreChronicle(lib, evidence, config);
    if HasKey(runs, key) {
      var i :| 0 <= i < |runs| && KeyOf(runs[i]) == key;
      OfferedComesFrom(lib, evidence, config, runs[i]);
      var p, source :| OnFile(lib, evidence, config, p, source) && NormalizeRun(lib, p, source) == Some(runs[i]);
      IgnoredExactlyWhen(lib, p, source);
      assert Stems(lib, evidence, config, key, p, source);
    }
    if p, source :| Stems(lib, evidence, config, key, p, source) {
      IgnoredExactlyWhen(lib, p, source);
      var r := NormalizeRun(lib, p, source).value;
      OfferedComesFrom(lib, evidence, config, r);
      assert r in offered;
    }
  }

  // ----- Counted twice ---------------------------------------------------------------------

  /** The latest payload is readable, names no output file, and stands in another file's history. */
  predicate RepeatsLatest(lib: Library, evidence: Evidence, config: Fields) {
    var h, l := HistoryFile(lib, config), LatestFile(lib, config);
    var latest := evidence.latest(l);
    && h != l && latest in evidence.history(h)
    && Readable(lib, latest) && Stripped(lib, latest, "output_file") == ""
  }

  /** Two runs of a suite that come from one payload. */
  ghost predicate Twice(lib: Library, evidence: Evidence, config: Fields, i: int, j: int, p: Fields, s: string, t: string) {
    var runs := SuiteRuns(lib, evidence, config);
    && 0 <= i < j < |runs|
    && Stems(lib, evidence, config, KeyOf(runs[i]), p, s) && Stems(lib, evidence, config, KeyOf(runs[j]), p, t)
  }

  lemma OnlyLatestTwice(lib: Library, evidence: Evidence, config: Fields, a: Key, b: Key, p: Fields, s: string, t: string)
    requires Stems(lib, evidence, config, a, p, s) && Stems(lib, evidence, config, b, p, t) && a != b
    ensures RepeatsLatest(lib, evidence, config) && p == evidence.latest(LatestFile(lib, config))
  {
    KeyAcrossFiles(lib, p, s, t);
  }

  lemma KeysDiffer(lib: Library, evidence: Evidence, config: Fields, i: nat, j: nat)
    requires Lawful(lib) && i < j < |SuiteRuns(lib, evidence, config)|
    ensures KeyOf(SuiteRuns(lib, evidence, config)[i]) != KeyOf(SuiteRuns(lib, evidence, config)[j])
  {
    SuiteRunsAreChronicle(lib, evidence, config);
  }

  lemma TwiceMeansLatest(lib: Library, evidence: Evidence, config: Fields, i: int, j: int, p: Fields, s: string, t: string)
    requires Lawful(lib) && Twice(lib, evidence, config, i, j, p, s, t)
    ensures RepeatsLatest(lib, evidence, config) && p == evidence.latest(LatestFile(lib, config))
  {
    KeysDiffer(lib, evidence, config, i, j);
    var runs := SuiteRuns(lib, evidence, config);
    OnlyLatestTwice(lib, evidence, config, KeyOf(runs[i]), KeyOf(runs[j]), p, s, t);
  }

  /** One payload counts twice exactly when the latest one is in the history, names no output file
      and the two files differ; and then it is that payload. */
  lemma CountsTwiceExactlyWhen(lib: Library, evidence: Evidence, config: Fields)
    requires Lawful(lib)
    ensures (exists i, j, p, s, t :: Twice(lib, evidence, config, i, j, p, s, t)) <==> RepeatsLatest(lib, evidence, config)
    ensures forall i, j, p, s, t :: Twice(lib, evidence, config, i, j, p, s, t) ==>
              p == evidence.latest(LatestFile(lib, config))
  {
    forall i, j, p, s, t | Twice(lib, evidence, config, i, j, p, s, t)
      ensures RepeatsLatest(lib, evidence, config) && p == evidence.latest(LatestFile(lib, config))
    {
      TwiceMeansLatest(lib, evidence, config, i, j, p, s, t);
    }
    if RepeatsLatest(lib, evidence, config) { LatestTwice(lib, evidence, config); }
  }

  lemma RunAt(lib: Library, evidence: Evidence, config: Fields, p: Fields, source: string) returns (i: nat)
    requires Lawful(lib) && OnFile(lib, evidence, config, p, source) && Readable(lib, p)
    ensures i < |SuiteRuns(lib, evidence, config)|
    ensures Stems(lib, evidence, config, KeyOf(SuiteRuns(lib, evidence, config)[i]), p, source)
  {
    var key, runs := KeyFrom(lib, p, source), SuiteRuns(lib, evidence, config);
    assert Stems(lib, evidence, config, key, p, source);
    RunsComeFrom(lib, evidence, config, key);
    i :| 0 <= i < |runs| && KeyOf(runs[i]) == key;
  }

  lemma LatestTwice(lib: Library, evidence: Evidence, config: Fields)
    requires Lawful(lib) && RepeatsLatest(lib, evidence, config)
    ensures exists i, j, p, s, t :: Twice(lib, evidence, config, i, j, p, s, t)
  {
    var h, l := HistoryFile(lib, config), LatestFile(lib, config);
    var p := evidence.latest(l);
    ReadableIsNotEmpty(lib, p);
    var i := RunAt(lib, evidence, config, p, h);
    var j := RunAt(lib, evidence, config, p, l);
    KeyAcrossFiles(lib, p, h, l);
    assert i != j;
    assert i < j ==> Twice(lib, evidence, config, i, j, p, h, l);
    assert j < i ==> Twice(lib, evidence, config, j, i, p, l, h);
  }

  lemma ReadableIsNotEmpty(lib: Library, p: Fields)
    requires Readable(lib, p)
    ensures p != []
  {
  }

  /** The payload is on file and its run has this key. */
  ghost predicate ComesFrom(lib: Library, evidence: Evidence, config: Fields, key: Key, p: Fields) {
    exists source :: Stems(lib, evidence, config, key, p, source)
  }

  ghost predicate HasSource(lib: Library, evidence: Evidence, config: Fields, key: Key) {
    exists p :: ComesFrom(lib, evidence, config, key, p)
  }

  /** Every run has a payload it comes from. */
  ghost predicate Sourced(lib: Library, evidence: Evidence, config: Fields, runs: seq<Run>) {
    forall r :: r in runs ==> HasSource(lib, evidence, config, KeyOf(r))
  }

  lemma RunHasSource(lib: Library, evidence: Evidence, config: Fields, runs: seq<Run>, r: Run)
    requires Lawful(lib) && runs == SuiteRuns(lib, evidence, config) && r in runs
    ensures HasSource(lib, evidence, config, KeyOf(r))
  {
    assert HasKey(runs, KeyOf(r));
    RunsComeFrom(lib, evidence, config, KeyOf(r));
    var p, source :| Stems(lib, evidence, config, KeyOf(r), p, source);
    assert ComesFrom(lib, evidence, config, KeyOf(r), p);
  }

  lemma SuiteRunsAreSourced(lib: Library, evidence: Evidence, config: Fields, runs: seq<Run>)
    requires Lawful(lib) && runs == SuiteRuns(lib, evidence, config)
    ensures Sourced(lib, evidence, config, runs) && Sorting.DistinctBy(KeyOf, runs)
  {
    SuiteRunsAreChronicle(lib, evidence, config);
    forall r | r in runs ensures HasSource(lib, evidence, config, KeyOf(r)) {
      RunHasSource(lib, evidence, config, runs, r);
    }
  }

  ghost predicate PassingOnFile(lib: Library, evidence: Evidence, config: Fields, p: Fields) {
    && HasOutcome(p) && OutcomeOf(p) && HasTime(lib, p)
    && exists source :: OnFile(lib, evidence, config, p, source)
  }

  lemma StemPasses(lib: Library, evidence: Evidence, config: Fields, r: Run, p: Fields)
    requires ComesFrom(lib, evidence, config, KeyOf(r), p) && r.passed
    ensures PassingOnFile(lib, evidence, config, p)
  {
    var source :| Stems(lib, evidence, config, KeyOf(r), p, source);
    IgnoredExactlyWhen(lib, p, source);
  }

  lemma SamePayload(lib: Library, evidence: Evidence, config: Fields, a: Run, b: Run, p: Fields)
    requires ComesFrom(lib, evidence, config, KeyOf(a), p) && ComesFrom(lib, evidence, config, KeyOf(b), p)
    requires KeyOf(a) != KeyOf(b)
    ensures RepeatsLatest(lib, evidence, config)
  {
    var s :| Stems(lib, evidence, config, KeyOf(a), p, s);
    var t :| Stems(lib, evidence, config, KeyOf(b), p, t);
    OnlyLatestTwice(lib, evidence, config, KeyOf(a), KeyOf(b), p, s, t);
  }

  ghost predicate AllDifferent(ps: seq<Fields>) { forall i, j :: 0 <= i < j < |ps| ==> ps[i] != ps[j] }

  ghost predicate Related(rel: (Key, Fields) -> bool, runs: seq<Run>, ps: seq<Fields>) {
    |ps| == |runs| && forall i :: 0 <= i < |runs| ==> rel(KeyOf(runs[i]), ps[i])
  }

  /** One payload for each run. */
  lemma {:induction false} ChooseEach(rel: (Key, Fields) -> bool, runs: seq<Run>) returns (ps: seq<Fields>)
    requires forall r :: r in runs ==> exists p :: rel(KeyOf(r), p)
    ensures Related(rel, runs, ps)
  {
    if runs == [] {
      ps := [];
    } else {
      forall r | r in runs[1..] ensures exists p :: rel(KeyOf(r), p) { assert r in runs; }
      var rest := ChooseEach(rel, runs[1..]);
      assert runs[0] in runs;
      var p :| rel(KeyOf(runs[0]), p);
      ps := [p] + rest;
    }
  }

  lemma OriginsOf(lib: Library, evidence: Evidence, config: Fields, runs: seq<Run>) returns (ps: seq<Fields>)
    requires Sourced(lib, evidence, config, runs)
    ensures |ps| == |runs| && forall i :: 0 <= i < |runs| ==> ComesFrom(lib, evidence, config, KeyOf(runs[i]), ps[i])
  {
    ghost var rel := (key: Key, p: Fields) => ComesFrom(lib, evidence, config, key, p);
    forall r | r in runs ensures exists p :: rel(KeyOf(r), p) {
      var p := OneOrigin(lib, evidence, config, KeyOf(r));
      assert rel(KeyOf(r), p);
    }
    ps := ChooseEach(rel, runs);
    forall i | 0 <= i < |runs| ensures ComesFrom(lib, evidence, config, KeyOf(runs[i]), ps[i]) {
      assert rel(KeyOf(runs[i]), ps[i]);
    }
  }

  lemma OneOrigin(lib: Library, evidence: Evidence, config: Fields, key: Key) returns (p: Fields)
    requires HasSource(lib, evidence, config, key)
    ensures ComesFrom(lib, evidence, config, key, p)
  {
    p :| ComesFrom(lib, evidence, config, key, p);
  }

  /** Runs that passed come from as many payloads that passed, all different unless the latest
      counts twice. */
  lemma PassingPayloads(lib: Library, evidence: Evidence, config: Fields, runs: seq<Run>) returns (ps: seq<Fields>)
    requires Sourced(lib, evidence, config, runs) && Sorting.DistinctBy(KeyOf, runs)
    requires forall i :: 0 <= i < |runs| ==> runs[i].passed
    ensures |ps| == |runs| && forall i :: 0 <= i < |ps| ==> PassingOnFile(lib, evidence, config, ps[i])
    ensures !RepeatsLatest(lib, evidence, config) ==> AllDifferent(ps)
  {
    ps := OriginsOf(lib, evidence, config, runs);
    forall i | 0 <= i < |ps| ensures PassingOnFile(lib, evidence, config, ps[i]) {
      StemPasses(lib, evidence, config, runs[i], ps[i]);
    }
    forall i, j | 0 <= i < j < |ps| && !RepeatsLatest(lib, evidence, config) ensures ps[i] != ps[j] {
      if ps[i] == ps[j] { SamePayload(lib, evidence, config, runs[i], runs[j], ps[i]); }
    }
  }

  lemma NewestOf(runs: seq<Run>, k: nat)
    requires Sorting.DistinctBy(KeyOf, runs) && NewestPassed(runs, k)
    ensures var newest := runs[|runs| - k..];
            |newest| == k && Sorting.DistinctBy(KeyOf, newest) && forall i :: 0 <= i < k ==> newest[i].passed
  {
    var at, newest := |runs| - k, runs[|runs| - k..];
    assert forall i :: 0 <= i < k ==> newest[i] == runs[at + i];
    forall i, j | 0 <= i < j < k ensures KeyOf(newest[i]) != KeyOf(newest[j]) {
      assert KeyOf(runs[at + i]) != KeyOf(runs[at + j]);
    }
  }

  /** When a suite's newest `k` runs passed, that many payloads on file passed, all different unless
      the latest counts twice. */
  lemma NewestPayloads(lib: Library, evidence: Evidence, config: Fields, k: nat) returns (ps: seq<Fields>)
    requires Lawful(lib) && NewestPassed(SuiteRuns(lib, evidence, config), k)
    ensures |ps| == k && forall i :: 0 <= i < k ==> PassingOnFile(lib, evidence, config, ps[i])
    ensures !RepeatsLatest(lib, evidence, config) ==> AllDifferent(ps)
  {
    var runs := SuiteRuns(lib, evidence, config);
    SuiteRunsAreSourced(lib, evidence, config, runs);
    NewestOf(runs, k);
    ps := PassingPayloads(lib, evidence, config, runs[|runs| - k..]);
  }

  lemma NormalizedOne(lib: Library, p: Fields, source: string)
    requires NormalizeRun(lib, p, source).Some?
    ensures Normalized(lib, [p], source) == [NormalizeRun(lib, p, source).value]
  {
    assert [p][..0] == [];
  }

  lemma BothOffered(lib: Library, evidence: Evidence, config: Fields, p: Fields)
    requires evidence.history(HistoryFile(lib, config)) == [p] && evidence.latest(LatestFile(lib, config)) == p
    requires Readable(lib, p)
    ensures NormalizeRun(lib, p, HistoryFile(lib, config)).Some? && NormalizeRun(lib, p, LatestFile(lib, config)).Some?
    ensures Offered(lib, evidence, config) ==
            [NormalizeRun(lib, p, HistoryFile(lib, config)).value] + [NormalizeRun(lib, p, LatestFile(lib, config)).value]
  {
    ReadableIsNotEmpty(lib, p);
    NormalizedOne(lib, p, HistoryFile(lib, config));
    NormalizedOne(lib, p, LatestFile(lib, config));
  }

  /** One run on file, in the history and as the latest, passes for two. */
  lemma OneRunPassesForTwo(lib: Library, evidence: Evidence, config: Fields, p: Fields)
    requires evidence.history(HistoryFile(lib, config)) == [p] && evidence.latest(LatestFile(lib, config)) == p
    requires HistoryFile(lib, config) != LatestFile(lib, config)
    requires HasTime(lib, p) && ResolvePassFlag(p) == Some(true) && Stripped(lib, p, "output_file") == ""
    ensures NewestPassed(SuiteRuns(lib, evidence, config), 2)
  {
    var h, l := HistoryFile(lib, config), LatestFile(lib, config);
    BothOffered(lib, evidence, config, p);
    KeyAcrossFiles(lib, p, h, l);
    TwoRunsPass(NormalizeRun(lib, p, h).value, NormalizeRun(lib, p, l).value);
  }

  lemma TwoRunsPass(a: Run, b: Run)
    requires KeyOf(a) != KeyOf(b) && a.passed && b.passed
    ensures NewestPassed(Sorting.StableSort(EarlierRun, FirstOfEachKey([a] + [b])), 2)
  {
    assert ([a] + [b])[..1] == [a] && [a][..0] == [];
    assert FirstOfEachKey([a]) == [a];
    assert FirstOfEachKey([a] + [b]) == [a, b];
    RunsAreKeyed();
    Sorting.SortKeepsElements(EarlierRun, [a, b]);
    var runs := Sorting.StableSort(EarlierRun, [a, b]);
    forall i | 0 <= i < |runs| ensures runs[i].passed { assert runs[i] in [a, b]; }
  }
}
