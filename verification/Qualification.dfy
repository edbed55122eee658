// The qualification summary: runs collected from evidence files, judged against a policy.
module Qualification {
  import opened Prelude
  import opened PythonJson
  import opened IsoTime
  import opened TextOrder
  import Sorting

  /** One evidence run; `timestamp` is UTC isoformat. */
  datatype Run = Run(timestamp: string, passed: bool, reasons: seq<string>, source: string, output: string)

  /** What the evidence files hold: parsed history lines that are objects, and the latest object
      (empty when the file is missing, malformed or no object). */
  datatype Evidence = Evidence(history: string -> seq<Fields>, latest: string -> Fields)

  /** Texts produced by isoformat parse back. */
  ghost predicate Lawful(lib: Library) {
    forall s :: Valid(s) ==> lib.strip(Iso(s)) == Iso(s) && lib.instant(Iso(s)) == Some(s)
  }

  // ----- One payload --------------------------------------------------------------

  function ParseTimestamp(lib: Library, raw: Json): Option<UtcStamp> {
    if !raw.Str? || lib.strip(raw.text) == "" then None
    else
      var candidate := lib.strip(raw.text);
      lib.instant(if candidate[|candidate| - 1] == 'Z' then candidate[..|candidate| - 1] + "+00:00" else candidate)
  }

  function Flag(d: Fields, key: string): Option<bool> {
    var value := GetOr(d, key, Null);
    if value.Bool? then Some(value.flag) else None
  }

  function ResolvePassFlag(payload: Fields): Option<bool> {
    if Flag(payload, "pass").Some? then Flag(payload, "pass")
    else if Flag(payload, "passed").Some? then Flag(payload, "passed")
    else
      var summary := GetOr(payload, "summary", Null);
      if summary.Obj? then Flag(summary.fields, "all_passed") else None
  }

  function NonBlank(lib: Library, items: seq<Json>): seq<string> {
    if items == [] then []
    else (if lib.strip(Text(lib, items[0])) != "" then [Text(lib, items[0])] else []) + NonBlank(lib, items[1..])
  }

  function Joined(lib: Library, items: seq<Json>): string {
    if items == [] then ""
    else if |items| == 1 then Text(lib, items[0])
    else Text(lib, items[0]) + ", " + Joined(lib, items[1..])
  }

  function ExtractFailureReasons(lib: Library, payload: Fields): seq<string> {
    var value := GetOr(payload, "failure_reasons", Null);
    if value.Arr? then NonBlank(lib, value.items)
    else
      var summary := GetOr(payload, "summary", Null);
      var languages := if summary.Obj? then GetOr(summary.fields, "failed_languages", Null) else Null;
      if languages.Arr? && languages.items != [] then ["failed languages: " + Joined(lib, languages.items)] else []
  }

  /** `a or b or c` over the three timestamp fields. */
  function RawTimestamp(payload: Fields): Json {
    var run, generated := GetOr(payload, "run_timestamp_utc", Null), GetOr(payload, "generated_at", Null);
    if Truthy(run) then run
    else if Truthy(generated) then generated
    else GetOr(payload, "evaluated_at", Null)
  }

  function NormalizeRun(lib: Library, payload: Fields, source: string): Option<Run> {
    var passed := ResolvePassFlag(payload);
    var time := ParseTimestamp(lib, RawTimestamp(payload));
    if passed.None? || time.None? then None
    else
      var output := Stripped(lib, payload, "output_file");
      Some(Run(Iso(time.value), passed.value, ExtractFailureReasons(lib, payload), source,
               if output != "" then output else source))
  }

  // ----- The runs of a suite ---------------------------------------------------------

  type Key = (string, bool, string)

  function KeyOf(r: Run): Key { (r.timestamp, r.passed, r.output) }

  predicate HasKey(runs: seq<Run>, key: Key) { exists i :: 0 <= i < |runs| && KeyOf(runs[i]) == key }

  predicate EarlierRun(a: Run, b: Run) { Before(a.timestamp, b.timestamp) }

  function Normalized(lib: Library, payloads: seq<Fields>, source: string): seq<Run> {
    if payloads == [] then []
    else
      var last := NormalizeRun(lib, payloads[|payloads| - 1], source);
      Normalized(lib, payloads[..|payloads| - 1], source) + (if last.Some? then [last.value] else [])
  }

  function FirstOfEachKey(runs: seq<Run>): seq<Run> {
    if runs == [] then []
    else
      var kept, last := FirstOfEachKey(runs[..|runs| - 1]), runs[|runs| - 1];
      if HasKey(kept, KeyOf(last)) then kept else kept + [last]
  }

  function HistoryFile(lib: Library, config: Fields): string { lib.path(Stripped(lib, config, "history_file")) }

  function LatestFile(lib: Library, config: Fields): string { lib.path(Stripped(lib, config, "latest_file")) }

  /** Every run on file for a suite, history first. */
  function Offered(lib: Library, evidence: Evidence, config: Fields): seq<Run> {
    var latest := evidence.latest(LatestFile(lib, config));
    Normalized(lib, evidence.history(HistoryFile(lib, config)), HistoryFile(lib, config))
    + Normalized(lib, if latest != [] then [latest] else [], LatestFile(lib, config))
  }

  function SuiteRuns(lib: Library, evidence: Evidence, config: Fields): seq<Run> {
    Sorting.StableSort(EarlierRun, FirstOfEachKey(Offered(lib, evidence, config)))
  }

  lemma {:induction false} FirstOfEachKeyProperties(runs: seq<Run>)
    ensures var kept := FirstOfEachKey(runs);
            && Sorting.DistinctBy(KeyOf, kept)
            && (forall r :: r in kept ==> r in runs)
            && (forall r :: r in runs ==> HasKey(kept, KeyOf(r)))
  {
    if runs != [] {
      var init, last := runs[..|runs| - 1], runs[|runs| - 1];
      FirstOfEachKeyProperties(init);
      var before, kept := FirstOfEachKey(init), FirstOfEachKey(runs);
      forall r | r in runs ensures HasKey(kept, KeyOf(r)) {
        if r in init {
          var i :| 0 <= i < |before| && KeyOf(before[i]) == KeyOf(r);
          assert kept[i] == before[i];
        } else {
          assert r == last;
          assert HasKey(before, KeyOf(last)) || kept[|before|] == last;
        }
      }
    }
  }

  /** One more payload: its run joins when it normalizes and its key is new. */
  function WithRun(runs: seq<Run>, normalized: Option<Run>): seq<Run> {
    if normalized.None? || HasKey(runs, KeyOf(normalized.value)) then runs else runs + [normalized.value]
  }

  lemma OfferOne(before: seq<Run>, normalized: Option<Run>)
    ensures FirstOfEachKey(before + (if normalized.Some? then [normalized.value] else []))
            == WithRun(FirstOfEachKey(before), normalized)
  {
    if normalized.Some? {
      assert (before + [normalized.value])[..|before|] == before;
    } else {
      assert before + [] == before;
    }
  }

  lemma NormalizeOne(lib: Library, payloads: seq<Fields>, source: string, i: nat)
    requires i < |payloads|
    ensures FirstOfEachKey(Normalized(lib, payloads[..i + 1], source))
            == WithRun(FirstOfEachKey(Normalized(lib, payloads[..i], source)), NormalizeRun(lib, payloads[i], source))
  {
    assert payloads[..i + 1][..i] == payloads[..i];
    OfferOne(Normalized(lib, payloads[..i], source), NormalizeRun(lib, payloads[i], source));
  }

  lemma OfferLatest(lib: Library, before: seq<Run>, latest: Fields, source: string)
    ensures FirstOfEachKey(before + Normalized(lib, if latest != [] then [latest] else [], source))
            == if latest == [] then FirstOfEachKey(before)
               else WithRun(FirstOfEachKey(before), NormalizeRun(lib, latest, source))
  {
    if latest == [] {
      assert before + [] == before;
    } else {
      assert [latest][..0] == [];
      OfferOne(before, NormalizeRun(lib, latest, source));
    }
  }

  lemma HasKeySnoc(runs: seq<Run>, r: Run)
    ensures forall key :: HasKey(runs + [r], key) <==> HasKey(runs, key) || key == KeyOf(r)
  {
    forall key ensures HasKey(runs + [r], key) <==> HasKey(runs, key) || key == KeyOf(r) {
      assert (runs + [r])[|runs|] == r;
      if HasKey(runs, key) {
        var i :| 0 <= i < |runs| && KeyOf(runs[i]) == key;
        assert (runs + [r])[i] == runs[i];
      }
    }
  }

  /** The history loop, with the set of keys seen so far. */
  method CollectHistory(lib: Library, payloads: seq<Fields>, source: string) returns (runs: seq<Run>, seen: set<Key>)
    ensures runs == FirstOfEachKey(Normalized(lib, payloads, source))
    ensures forall key :: key in seen <==> HasKey(runs, key)
  {
    runs, seen := [], {};
    for i := 0 to |payloads|
      invariant runs == FirstOfEachKey(Normalized(lib, payloads[..i], source))
      invariant forall key :: key in seen <==> HasKey(runs, key)
    {
      var normalized := NormalizeRun(lib, payloads[i], source);
      NormalizeOne(lib, payloads, source, i);
      if normalized.None? || KeyOf(normalized.value) in seen {
        continue;
      }
      HasKeySnoc(runs, normalized.value);
      seen := seen + {KeyOf(normalized.value)};
      runs := runs + [normalized.value];
    }
    assert payloads[..|payloads|] == payloads;
  }

  /** The history, then the latest file, then the sort. */
  method CollectSuiteRuns(lib: Library, evidence: Evidence, config: Fields) returns (runs: seq<Run>)
    ensures runs == SuiteRuns(lib, evidence, config)
  {
    var historyFile, latestFile := HistoryFile(lib, config), LatestFile(lib, config);
    var payloads := evidence.history(historyFile);
    var seen;
    runs, seen := CollectHistory(lib, payloads, historyFile);
    var latest := evidence.latest(latestFile);
    OfferLatest(lib, Normalized(lib, payloads, historyFile), latest, latestFile);
    if latest != [] {
      var normalized := NormalizeRun(lib, latest, latestFile);
      if normalized.Some? && KeyOf(normalized.value) !in seen {
        runs := runs + [normalized.value];
      }
    }
    runs := Sorting.StableSort(EarlierRun, runs);
  }

  // ----- Order ------------------------------------------------------------------------

  lemma RunsAreKeyed()
    ensures Sorting.ByKey(EarlierRun)
  {
    forall a: Run, b: Run ensures EarlierRun(a, b) ==> !EarlierRun(b, a) {
      BeforeIsOrder(a.timestamp, b.timestamp, "");
    }
    forall a: Run, b: Run, c: Run ensures !EarlierRun(b, a) && !EarlierRun(c, b) ==> !EarlierRun(c, a) {
      BeforeIsOrder(a.timestamp, b.timestamp, c.timestamp);
    }
  }

  /** The instant a run's timestamp names. */
  function TimeOf(lib: Library, r: Run): Option<UtcStamp> {
    ParseTimestamp(lib, Str(r.timestamp))
  }

  ghost predicate Timed(lib: Library, r: Run) {
    && TimeOf(lib, r).Some?
    && r.timestamp == Iso(TimeOf(lib, r).value)
  }

  function When(lib: Library, r: Run): int
    requires Timed(lib, r)
  {
    Instant(TimeOf(lib, r).value)
  }

  lemma NormalizedIsTimed(lib: Library, payload: Fields, source: string)
    requires Lawful(lib) && NormalizeRun(lib, payload, source).Some?
    ensures Timed(lib, NormalizeRun(lib, payload, source).value)
  {
    var s := ParseTimestamp(lib, RawTimestamp(payload)).value;
    assert Valid(s);
    var text := Iso(s);
    assert lib.strip(text) == text && lib.instant(text) == Some(s);
    assert text[|text| - 1] == '0';
  }

  lemma {:induction false} AllTimed(lib: Library, payloads: seq<Fields>, source: string)
    requires Lawful(lib)
    ensures forall r :: r in Normalized(lib, payloads, source) ==> Timed(lib, r)
  {
    if payloads != [] {
      AllTimed(lib, payloads[..|payloads| - 1], source);
      var last := NormalizeRun(lib, payloads[|payloads| - 1], source);
      if last.Some? { NormalizedIsTimed(lib, payloads[|payloads| - 1], source); }
    }
  }

  /** A suite's runs are what is on file, once per key, oldest first in real time. */
  ghost predicate Chronicle(lib: Library, offered: seq<Run>, runs: seq<Run>) {
    && (forall r :: r in runs ==> r in offered && Timed(lib, r))
    && (forall r :: r in offered ==> Timed(lib, r) && HasKey(runs, KeyOf(r)))
    && Sorting.DistinctBy(KeyOf, runs)
    && (forall i, j :: 0 <= i < j < |runs| ==> When(lib, runs[i]) <= When(lib, runs[j]))
  }

  lemma OfferedIsTimed(lib: Library, evidence: Evidence, config: Fields)
    requires Lawful(lib)
    ensures forall r :: r in Offered(lib, evidence, config) ==> Timed(lib, r)
  {
    var latest := evidence.latest(LatestFile(lib, config));
    AllTimed(lib, evidence.history(HistoryFile(lib, config)), HistoryFile(lib, config));
    AllTimed(lib, if latest != [] then [latest] else [], LatestFile(lib, config));
  }

  lemma TimedOrder(lib: Library, a: Run, b: Run)
    requires Timed(lib, a) && Timed(lib, b)
    ensures EarlierRun(a, b) <==> When(lib, a) < When(lib, b)
  {
    IsoOrderIsTimeOrder(TimeOf(lib, a).value, TimeOf(lib, b).value);
  }

  lemma SuiteRunsAreChronicle(lib: Library, evidence: Evidence, config: Fields)
    requires Lawful(lib)
    ensures Chronicle(lib, Offered(lib, evidence, config), SuiteRuns(lib, evidence, config))
  {
    var offered := Offered(lib, evidence, config);
    OfferedIsTimed(lib, evidence, config);
    SortedChronicle(lib, offered);
  }

  lemma SortedChronicle(lib: Library, offered: seq<Run>)
    requires forall r :: r in offered ==> Timed(lib, r)
    ensures Chronicle(lib, offered, Sorting.StableSort(EarlierRun, FirstOfEachKey(offered)))
  {
    var kept := FirstOfEachKey(offered);
    var runs := Sorting.StableSort(EarlierRun, kept);
    FirstOfEachKeyProperties(offered);
    RunsAreKeyed();
    Sorting.SortKeepsElements(EarlierRun, kept);
    Sorting.SortKeepsDistinct(EarlierRun, KeyOf, kept);
    KeysKept(offered, kept, runs);
    InTimeOrder(lib, runs);
  }

  lemma KeysKept(offered: seq<Run>, kept: seq<Run>, runs: seq<Run>)
    requires forall r :: r in offered ==> HasKey(kept, KeyOf(r))
    requires forall r :: r in kept ==> r in runs
    ensures forall r :: r in offered ==> HasKey(runs, KeyOf(r))
  {
    forall r | r in offered ensures HasKey(runs, KeyOf(r)) {
      var i :| 0 <= i < |kept| && KeyOf(kept[i]) == KeyOf(r);
      assert kept[i] in runs;
    }
  }

  lemma InTimeOrder(lib: Library, runs: seq<Run>)
    requires Sorting.Sorted(EarlierRun, runs) && forall r :: r in runs ==> Timed(lib, r)
    ensures forall i, j :: 0 <= i < j < |runs| ==> When(lib, runs[i]) <= When(lib, runs[j])
  {
    forall i, j | 0 <= i < j < |runs| ensures When(lib, runs[i]) <= When(lib, runs[j]) {
      TimedOrder(lib, runs[j], runs[i]);
    }
  }
}
