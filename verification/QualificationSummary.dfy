// Judging each suite's runs, and the summary over all suites of a policy.
module QualificationSummary {
  import opened Prelude
  import opened PythonJson
  import opened IsoTime
  import opened Qualification

  /** One suite's report; `latestAge` is in days. */
  datatype Report = Report(
    required: bool,
    passed: bool,
    latestTimestamp: Option<string>,
    latestAge: Option<real>,
    latestOutput: Option<string>,
    latestPassed: bool,
    consecutive: nat,
    minConsecutive: int,
    maxAge: real,
    historyPoints: nat,
    reasons: seq<string>)

  /** The three thresholds of a suite's configuration. */
  datatype Thresholds = Thresholds(required: bool, minConsecutive: int, maxAge: real)

  function Max(a: int, b: int): int { if a >= b then a else b }

  /** Nothing when a threshold does not convert: the script raises. */
  function Convert(lib: Library, required: bool, minimum: Json, maxAge: Json): Option<Thresholds> {
    var m :- AsInt(lib, minimum);
    var a :- AsFloat(lib, maxAge);
    Some(Thresholds(required, Max(1, m), a))
  }

  function ThresholdsOf(lib: Library, config: Fields): Option<Thresholds> {
    Convert(lib, GetBool(config, "required", false), GetOr(config, "min_consecutive_passes", Num(1.0)),
            GetOr(config, "max_age_days", Num(8.0)))
  }

  /** A configuration's thresholds: its minimum, but at least one pass, its age limit, and whether it is
      required; none when a number does not convert. */
  lemma ThresholdsRead(lib: Library, config: Fields)
    ensures var m := AsInt(lib, GetOr(config, "min_consecutive_passes", Num(1.0)));
            var a := AsFloat(lib, GetOr(config, "max_age_days", Num(8.0)));
            var t := ThresholdsOf(lib, config);
            && (t.Some? <==> m.Some? && a.Some?)
            && (t.Some? ==>
                  && t.value.minConsecutive == (if m.value >= 1 then m.value else 1)
                  && t.value.maxAge == a.value
                  && t.value.required == GetBool(config, "required", false))
  {
  }

  // ----- Rounding ---------------------------------------------------------------------

  /** `round(x, 3)`, ties to even. */
  function Round3(x: real): real {
    var scaled := x * 1000.0;
    var low := scaled.Floor;
    var rest := scaled - low as real;
    var nearest := if rest < 0.5 || (rest == 0.5 && low % 2 == 0) then low else low + 1;
    nearest as real / 1000.0
  }

  /** The result is a number of thousandths, the nearest one, and in a tie the even one. */
  lemma Round3IsClose(x: real) returns (k: int)
    ensures Round3(x) == k as real / 1000.0
    ensures -0.5 <= x * 1000.0 - k as real <= 0.5
    ensures x * 1000.0 - k as real == 0.5 || x * 1000.0 - k as real == -0.5 ==> k % 2 == 0
    ensures x - 0.0005 <= Round3(x) <= x + 0.0005
  {
    var scaled := x * 1000.0;
    var low := scaled.Floor;
    k := if Round3(x) == low as real / 1000.0 then low else low + 1;
  }

  function AgeInDays(now: UtcStamp, latest: UtcStamp): real
  {
    Round3((Instant(now) - Instant(latest)) as real / 86_400_000_000.0)
  }

  // ----- One suite -----------------------------------------------------------------------

  function TrailingPasses(runs: seq<Run>): nat {
    if runs == [] || !runs[|runs| - 1].passed then 0 else 1 + TrailingPasses(runs[..|runs| - 1])
  }

  function LatestAge(lib: Library, now: UtcStamp, runs: seq<Run>): Option<real>
    requires runs != []
  {
    var time :- TimeOf(lib, runs[|runs| - 1]);
    Some(AgeInDays(now, time))
  }

  function Number(lib: Library, x: real): string { lib.text(Num(x)) }

  function AgeReasons(lib: Library, age: Option<real>, maxAge: real): seq<string> {
    if age.Some? && age.value > maxAge
    then ["latest evidence age " + Number(lib, age.value) + "d exceeds " + Number(lib, maxAge) + "d"]
    else []
  }

  function LatestReasons(latest: Run): seq<string> {
    if latest.passed then []
    else if latest.reasons != [] then latest.reasons
    else ["latest qualification failed"]
  }

  function PassReasons(lib: Library, passes: nat, minimum: int): seq<string> {
    if passes < minimum
    then ["consecutive passes " + Number(lib, passes as real) + " below required " + Number(lib, minimum as real)]
    else []
  }

  function SuiteReasons(lib: Library, now: UtcStamp, runs: seq<Run>, t: Thresholds): seq<string>
  {
    if runs == [] then if t.required then ["missing qualification evidence"] else []
    else
      AgeReasons(lib, LatestAge(lib, now, runs), t.maxAge) + LatestReasons(runs[|runs| - 1])
      + PassReasons(lib, TrailingPasses(runs), t.minConsecutive)
  }

  function ReportOn(lib: Library, now: UtcStamp, runs: seq<Run>, t: Thresholds): Report
  {
    var reasons := SuiteReasons(lib, now, runs, t);
    var n := |runs|;
    Report(
      t.required, reasons == [],
      if n > 0 then Some(runs[n - 1].timestamp) else None,
      if n > 0 then LatestAge(lib, now, runs) else None,
      if n > 0 then Some(runs[n - 1].output) else None,
      n > 0 && runs[n - 1].passed,
      TrailingPasses(runs), t.minConsecutive, t.maxAge, n, reasons)
  }

  /** A suite's report; nothing when the script raises. */
  function SummaryOf(lib: Library, evidence: Evidence, config: Fields, now: UtcStamp): Option<Report>
  {
    var thresholds :- ThresholdsOf(lib, config);
    Some(ReportOn(lib, now, SuiteRuns(lib, evidence, config), thresholds))
  }

  /** The walk back from the newest run to the first failure. */
  method ConsecutivePasses(runs: seq<Run>) returns (passes: nat)
    ensures passes <= |runs|
    ensures forall i :: |runs| - passes <= i < |runs| ==> runs[i].passed
    ensures passes < |runs| ==> !runs[|runs| - passes - 1].passed
    ensures passes == TrailingPasses(runs)
  {
    passes := 0;
    assert runs[..|runs|] == runs;
    while passes < |runs| && runs[|runs| - passes - 1].passed
      invariant passes <= |runs|
      invariant forall i :: |runs| - passes <= i < |runs| ==> runs[i].passed
      invariant TrailingPasses(runs) == passes + TrailingPasses(runs[..|runs| - passes])
    {
      assert runs[..|runs| - passes][..|runs| - passes - 1] == runs[..|runs| - passes - 1];
      passes := passes + 1;
    }
  }

  /** The reasons, appended in turn. */
  method Judge(lib: Library, now: UtcStamp, runs: seq<Run>, t: Thresholds, passes: nat)
    returns (age: Option<real>, reasons: seq<string>)
    requires passes == TrailingPasses(runs)
    ensures age == if runs == [] then None else LatestAge(lib, now, runs)
    ensures reasons == SuiteReasons(lib, now, runs, t)
  {
    age, reasons := None, [];
    if runs == [] {
      if t.required { reasons := reasons + ["missing qualification evidence"]; }
      return;
    }
    var latest := runs[|runs| - 1];
    var time := TimeOf(lib, latest);
    if time.Some? {
      age := Some(AgeInDays(now, time.value));
      if age.value > t.maxAge { reasons := reasons + AgeReasons(lib, age, t.maxAge); }
    }
    assert reasons == AgeReasons(lib, age, t.maxAge);
    if !latest.passed {
      reasons := reasons + (if latest.reasons != [] then latest.reasons else ["latest qualification failed"]);
    }
    assert reasons == AgeReasons(lib, age, t.maxAge) + LatestReasons(latest);
    if passes < t.minConsecutive {
      reasons := reasons + PassReasons(lib, passes, t.minConsecutive);
    }
    assert reasons == AgeReasons(lib, age, t.maxAge) + LatestReasons(latest) + PassReasons(lib, passes, t.minConsecutive);
  }

  method SummarizeSuite(lib: Library, evidence: Evidence, config: Fields, now: UtcStamp) returns (report: Option<Report>)
    ensures report == SummaryOf(lib, evidence, config, now)
  {
    var runs := CollectSuiteRuns(lib, evidence, config);
    var thresholds := ThresholdsOf(lib, config);
    if thresholds.None? { return None; }
    var t := thresholds.value;
    var passes := ConsecutivePasses(runs);
    var age, reasons := Judge(lib, now, runs, t, passes);
    var latest := if runs != [] then Some(runs[|runs| - 1]) else None;
    report := Some(Report(
      t.required, reasons == [],
      if latest.Some? then Some(latest.value.timestamp) else None,
      age,
      if latest.Some? then Some(latest.value.output) else None,
      latest.Some? && latest.value.passed,
      passes, t.minConsecutive, t.maxAge, |runs|, reasons));
  }

  /** The newest `k` runs exist and all passed. */
  predicate NewestPassed(runs: seq<Run>, k: int) {
    0 <= k <= |runs| && forall i :: |runs| - k <= i < |runs| ==> runs[i].passed
  }

  lemma {:induction false} TrailingPassesCount(runs: seq<Run>, k: nat)
    ensures k <= TrailingPasses(runs) <==> NewestPassed(runs, k)
  {
    if k > 0 && runs != [] {
      var init := runs[..|runs| - 1];
      TrailingPassesCount(init, k - 1);
      assert forall i :: 0 <= i < |init| ==> init[i] == runs[i];
    }
  }

  predicate RecentEnough(lib: Library, now: UtcStamp, runs: seq<Run>, maxAge: real) {
    runs != [] && LatestAge(lib, now, runs).Some? && LatestAge(lib, now, runs).value <= maxAge
  }

  /** A suite passes exactly when its newest runs, as many as required, all passed and the newest
      is recent enough; a suite without runs, exactly when it is not required. */
  lemma SuitePassesExactlyWhen(lib: Library, now: UtcStamp, runs: seq<Run>, t: Thresholds)
    requires t.minConsecutive >= 1
    requires forall r :: r in runs ==> Timed(lib, r)
    ensures ReportOn(lib, now, runs, t).passed <==>
            if runs == [] then !t.required
            else NewestPassed(runs, t.minConsecutive) && RecentEnough(lib, now, runs, t.maxAge)
  {
    if runs != [] {
      var latest := runs[|runs| - 1];
      assert Timed(lib, latest);
      TrailingPassesCount(runs, t.minConsecutive);
      TrailingPassesCount(runs, 1);
    }
  }

  /** What the report says of the runs besides its verdict. */
  lemma ReportSays(lib: Library, now: UtcStamp, runs: seq<Run>, t: Thresholds)
    ensures var r := ReportOn(lib, now, runs, t);
            && r.required == t.required && r.minConsecutive == t.minConsecutive && r.maxAge == t.maxAge
            && r.historyPoints == |runs| && (r.passed <==> r.reasons == [])
            && NewestPassed(runs, r.consecutive) && !NewestPassed(runs, r.consecutive + 1)
            && if runs == [] then r.latestTimestamp == None && r.latestOutput == None && r.latestAge == None && !r.latestPassed
               else
                 var newest := runs[|runs| - 1];
                 && r.latestTimestamp == Some(newest.timestamp) && r.latestOutput == Some(newest.output)
                 && r.latestAge == LatestAge(lib, now, runs) && r.latestPassed == newest.passed
                 && (!newest.passed ==> forall x :: x in newest.reasons ==> x in r.reasons)
  {
    TrailingPassesCount(runs, TrailingPasses(runs));
    TrailingPassesCount(runs, TrailingPasses(runs) + 1);
  }

  // ----- All suites ------------------------------------------------------------------------

  datatype Summary = Summary(
    generatedAt: string, version: int, passed: bool, reasons: seq<string>, suites: seq<(string, Report)>)

  const EVIDENCE: string := "docs/evidence/"

  function Files(stem: string): Fields {
    [("latest_file", Str(EVIDENCE + stem + "_latest.json")), ("history_file", Str(EVIDENCE + stem + "_history.jsonl"))]
  }

  const DEFAULT_SUITES: seq<string> := [
    "operator_route_oidc_matrix", "dedicated_agent_canary_trend",
    "langgraph_v2_prototype_matrix", "mission_artifact_qualification"]

  function Defaults(name: string): Fields { if name in DEFAULT_SUITES then Files(name) else [] }

  function DefaultConfig(name: string): (string, Fields) {
    (name, [("required", Bool(true)), ("min_consecutive_passes", Num(1.0)), ("max_age_days", Num(8.0))] + Files(name))
  }

  function DefaultSuites(): seq<(string, Fields)> {
    [DefaultConfig(DEFAULT_SUITES[0]), DefaultConfig(DEFAULT_SUITES[1]),
     DefaultConfig(DEFAULT_SUITES[2]), DefaultConfig(DEFAULT_SUITES[3])]
  }

  /** The dict comprehension: configurations that are dicts, over their defaults. */
  function Configured(suites: Fields): seq<(string, Fields)> {
    if suites == [] then []
    else
      var (name, config) := suites[0];
      (if config.Obj? then [(name, config.fields + Defaults(name))] else []) + Configured(suites[1..])
  }

  /** The policy's suites; nothing when the script raises. */
  function PolicySuites(policy: Json): Option<Fields> {
    var requirements := if policy.Obj? then GetOr(policy.fields, "requirements", Obj([])) else Obj([]);
    if !requirements.Obj? then None
    else
      var gates := GetOr(requirements.fields, "qualification_gates", Obj([]));
      var suites := if gates.Obj? then GetOr(gates.fields, "suites", Obj([])) else Obj([]);
      if suites.Obj? then Some(suites.fields) else None
  }

  function SuitesToReport(suites: Fields): seq<(string, Fields)> {
    if Configured(suites) == [] then DefaultSuites() else Configured(suites)
  }

  /** What each suite comes to: a report, or nothing where the script raises. */
  type Outcome = (string, Option<Report>)

  function Outcomes(lib: Library, evidence: Evidence, suites: seq<(string, Fields)>, now: UtcStamp): seq<Outcome> {
    seq(|suites|, i requires 0 <= i < |suites| => (suites[i].0, SummaryOf(lib, evidence, suites[i].1, now)))
  }

  /** Reports in order; suite names are dict keys, so each assignment adds an entry. The first
      suite that raises stops the script. */
  function Gather(outcomes: seq<Outcome>): Option<seq<(string, Report)>> {
    if outcomes == [] then Some([])
    else
      var (name, outcome) := outcomes[|outcomes| - 1];
      var before :- Gather(outcomes[..|outcomes| - 1]);
      var report :- outcome;
      Some(before + [(name, report)])
  }

  function Prefixed(name: string, reasons: seq<string>): seq<string> {
    seq(|reasons|, i requires 0 <= i < |reasons| => name + ": " + reasons[i])
  }

  function AllReasons(reports: seq<(string, Report)>): seq<string> {
    if reports == [] then []
    else
      var (name, report) := reports[|reports| - 1];
      AllReasons(reports[..|reports| - 1]) + Prefixed(name, report.reasons)
  }

  function SummaryFor(lib: Library, evidence: Evidence, policy: Json, now: UtcStamp): Option<Summary>
  {
    var suites :- PolicySuites(policy);
    var reports :- Gather(Outcomes(lib, evidence, SuitesToReport(suites), now));
    var version :- if policy.Obj? then AsInt(lib, GetOr(policy.fields, "version", Num(0.0))) else Some(0);
    Some(Summary(Iso(now), version, AllReasons(reports) == [], AllReasons(reports), reports))
  }

  lemma {:induction false} RaisingStops(outcomes: seq<Outcome>, i: nat)
    requires i < |outcomes| && outcomes[i].1.None?
    ensures Gather(outcomes).None?
  {
    if i < |outcomes| - 1 { RaisingStops(outcomes[..|outcomes| - 1], i); }
  }

  lemma GatherSnoc(outcomes: seq<Outcome>, i: nat)
    requires i < |outcomes| && Gather(outcomes[..i]).Some? && outcomes[i].1.Some?
    ensures Gather(outcomes[..i + 1]) == Some(Gather(outcomes[..i]).value + [(outcomes[i].0, outcomes[i].1.value)])
  {
    assert outcomes[..i + 1][..i] == outcomes[..i];
  }

  lemma ReasonsSnoc(reports: seq<(string, Report)>, name: string, report: Report)
    ensures AllReasons(reports + [(name, report)]) == AllReasons(reports) + Prefixed(name, report.reasons)
  {
    assert (reports + [(name, report)])[..|reports|] == reports;
  }

  method BuildSummary(lib: Library, evidence: Evidence, policy: Json, now: UtcStamp) returns (summary: Option<Summary>)
    ensures summary == SummaryFor(lib, evidence, policy, now)
  {
    var configured := PolicySuites(policy);
    if configured.None? { return None; }
    var suites := SuitesToReport(configured.value);
    var reports: seq<(string, Report)> := [];
    var reasons: seq<string> := [];
    ghost var outcomes := Outcomes(lib, evidence, suites, now);
    for i := 0 to |suites|
      invariant Gather(outcomes[..i]) == Some(reports)
      invariant reasons == AllReasons(reports)
    {
      var (name, config) := suites[i];
      var report := SummarizeSuite(lib, evidence, config, now);
      assert outcomes[i] == (name, report);
      if report.None? {
        RaisingStops(outcomes, i);
        return None;
      }
      GatherSnoc(outcomes, i);
      ReasonsSnoc(reports, name, report.value);
      reports := reports + [(name, report.value)];
      reasons := reasons + Prefixed(name, report.value.reasons);
    }
    assert outcomes[..|suites|] == outcomes;
    var version := if policy.Obj? then AsInt(lib, GetOr(policy.fields, "version", Num(0.0))) else Some(0);
    if version.None? { return None; }
    return Some(Summary(Iso(now), version.value, reasons == [], reasons, reports));
  }

  /** The summary passes exactly when every suite's report does. */
  lemma {:induction false} PassesExactlyWhenAllDo(reports: seq<(string, Report)>)
    requires forall i :: 0 <= i < |reports| ==> (reports[i].1.passed <==> reports[i].1.reasons == [])
    ensures AllReasons(reports) == [] <==> forall i :: 0 <= i < |reports| ==> reports[i].1.passed
  {
    if reports != [] {
      var init := reports[..|reports| - 1];
      PassesExactlyWhenAllDo(init);
      assert forall i :: 0 <= i < |init| ==> init[i] == reports[i];
    }
  }

  /** Reports are one per suite, in order, each the suite's own. */
  lemma {:induction false} ReportsMatch(outcomes: seq<Outcome>)
    requires Gather(outcomes).Some?
    ensures |Gather(outcomes).value| == |outcomes|
    ensures forall i :: 0 <= i < |outcomes| ==>
              outcomes[i] == (Gather(outcomes).value[i].0, Some(Gather(outcomes).value[i].1))
  {
    if outcomes != [] {
      var init := outcomes[..|outcomes| - 1];
      ReportsMatch(init);
      assert forall i :: 0 <= i < |init| ==> outcomes[i] == init[i];
    }
  }
}
