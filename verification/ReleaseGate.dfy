// The two scripts end to end: a summary built from a policy, read back by the promotion gate.
module ReleaseGate {
  import opened Prelude
  import opened PythonJson
  import opened IsoTime
  import opened Qualification
  import opened QualificationSummary
  import opened EvidenceRuns
  import opened Promotion

  // ----- The summary file ------------------------------------------------------------

  function Optional(text: Option<string>): Json { if text.Some? then Str(text.value) else Null }

  function Texts(items: seq<string>): Json { Arr(seq(|items|, i requires 0 <= i < |items| => Str(items[i]))) }

  function ReportFields(r: Report): Fields {
    [("required", Bool(r.required)), ("passed", Bool(r.passed)),
     ("latest_run_timestamp_utc", Optional(r.latestTimestamp)),
     ("latest_age_days", if r.latestAge.Some? then Num(r.latestAge.value) else Null),
     ("latest_output_file", Optional(r.latestOutput)), ("latest_passed", Bool(r.latestPassed)),
     ("consecutive_passes", Num(r.consecutive as real)), ("min_consecutive_passes", Num(r.minConsecutive as real)),
     ("max_age_days", Num(r.maxAge)), ("history_points", Num(r.historyPoints as real)),
     ("failure_reasons", Texts(r.reasons))]
  }

  function SuitesObject(reports: seq<(string, Report)>): Fields {
    seq(|reports|, i requires 0 <= i < |reports| => (reports[i].0, Obj(ReportFields(reports[i].1))))
  }

  function SummaryFields(s: Summary): Fields {
    [("generated_at", Str(s.generatedAt)), ("policy_version", Num(s.version as real)), ("passed", Bool(s.passed)),
     ("failure_reasons", Texts(s.reasons)), ("suites", Obj(SuitesObject(s.suites)))]
  }

  lemma SecondField(d: Fields)
    requires |d| >= 2 && d[0].0 != d[1].0
    ensures Get(d, d[1].0) == Some(d[1].1)
  {
    assert d[1..][0] == d[1];
  }

  lemma ReportPassed(r: Report)
    ensures GetBool(ReportFields(r), "passed", false) == r.passed
  {
    SecondField(ReportFields(r));
  }

  lemma SummaryRead(s: Summary)
    ensures GetBool(SummaryFields(s), "passed", false) == s.passed
    ensures GetOr(SummaryFields(s), "suites", Null) == Obj(SuitesObject(s.suites))
  {
    var d := SummaryFields(s);
    GetAt(d, 2);
    GetAt(d, 4);
  }

  // ----- Both scripts read the same suites ----------------------------------------------

  lemma SameDict(d: Fields, key: string)
    requires GetOr(d, key, Obj([])).Obj?
    ensures GetOrEmpty(d, key) == GetOr(d, key, Obj([]))
  {
  }

  /** Gates that are a non-empty dict list the suites the summary was built from. */
  lemma SameSuites(policy: Fields, suites: Fields)
    requires PolicySuites(Obj(policy)) == Some(suites)
    requires Section(policy, "qualification_gates").Some? && Configures(Section(policy, "qualification_gates").value)
    ensures GetOrEmpty(Section(policy, "qualification_gates").value.fields, "suites") == Obj(suites)
  {
    SameDict(policy, "requirements");
    var requirements := GetOrEmpty(policy, "requirements").fields;
    var gates := Section(policy, "qualification_gates").value;
    assert gates == GetOr(requirements, "qualification_gates", Obj([]));
    SameDict(gates.fields, "suites");
  }

  predicate DistinctNames(suites: seq<(string, Fields)>) { forall i, j :: 0 <= i < j < |suites| ==> suites[i].0 != suites[j].0 }

  lemma {:induction false} ConfiguredAt(suites: Fields, p: nat) returns (q: nat)
    requires p < |suites| && suites[p].1.Obj?
    ensures q < |Configured(suites)|
    ensures Configured(suites)[q] == (suites[p].0, suites[p].1.fields + Defaults(suites[p].0))
  {
    if p == 0 {
      q := 0;
    } else {
      var rest := ConfiguredAt(suites[1..], p - 1);
      q := rest + (if suites[0].1.Obj? then 1 else 0);
    }
  }

  predicate Named<T>(entries: seq<(string, T)>, name: string) {
    exists i :: 0 <= i < |entries| && entries[i].0 == name
  }

  lemma {:induction false} ConfiguredNames(suites: Fields)
    requires IsDict(suites)
    ensures DistinctNames(Configured(suites))
    ensures forall name :: Named(Configured(suites), name) ==> Named(suites, name)
  {
    if suites != [] {
      var tail := suites[1..];
      ConfiguredNames(tail);
      forall name | Named(Configured(suites), name) ensures Named(suites, name) {
        if name != suites[0].0 {
          assert Named(Configured(tail), name) by { NamedTail(suites, name); }
          var i :| 0 <= i < |tail| && tail[i].0 == name;
          assert suites[i + 1] == tail[i];
        }
      }
      assert forall i :: 0 <= i < |tail| ==> tail[i] == suites[i + 1];
      assert !Named(Configured(tail), suites[0].0);
    }
  }

  lemma NamedTail(suites: Fields, name: string)
    requires suites != [] && Named(Configured(suites), name) && name != suites[0].0
    ensures Named(Configured(suites[1..]), name)
  {
    var rest := Configured(suites[1..]);
    if suites[0].1.Obj? {
      NamedCons(suites[0].0, suites[0].1.fields + Defaults(suites[0].0), rest, name);
    } else {
      assert [] + rest == rest;
    }
  }

  lemma NamedCons(first: string, config: Fields, rest: seq<(string, Fields)>, name: string)
    requires Named([(first, config)] + rest, name) && name != first
    ensures Named(rest, name)
  {
    var q :| 0 <= q < |[(first, config)] + rest| && ([(first, config)] + rest)[q].0 == name;
    assert rest[q - 1].0 == name;
  }

  /** A suite's own report is what its name finds in the summary. */
  lemma ReportFound(reports: seq<(string, Report)>, q: nat)
    requires q < |reports| && forall i, j :: 0 <= i < j < |reports| ==> reports[i].0 != reports[j].0
    ensures ReportedPassing(SuitesObject(reports), reports[q].0) == reports[q].1.passed
  {
    var d := SuitesObject(reports);
    assert d[q] == (reports[q].0, Obj(ReportFields(reports[q].1)));
    GetAt(d, q);
    ReportPassed(reports[q].1);
  }

  // ----- The gate -------------------------------------------------------------------------------

  /** Everything the theorems are about: a policy whose gates are a non-empty dict, and the summary
      built from it at `now`. */
  ghost predicate Built(lib: Library, evidence: Evidence, policy: Fields, now: UtcStamp, suites: Fields, summary: Summary) {
    && PolicySuites(Obj(policy)) == Some(suites) && IsDict(suites)
    && SummaryFor(lib, evidence, Obj(policy), now) == Some(summary)
    && Section(policy, "qualification_gates").Some?
    && Configures(Section(policy, "qualification_gates").value)
  }

  lemma GatheredVerdict(outcomes: seq<Outcome>)
    requires Gather(outcomes).Some?
    requires forall i :: 0 <= i < |outcomes| && outcomes[i].1.Some? ==>
               (outcomes[i].1.value.passed <==> outcomes[i].1.value.reasons == [])
    ensures var reports := Gather(outcomes).value;
            && |reports| == |outcomes|
            && (forall i :: 0 <= i < |outcomes| ==> outcomes[i] == (reports[i].0, Some(reports[i].1)))
            && (AllReasons(reports) == [] <==> forall i :: 0 <= i < |reports| ==> reports[i].1.passed)
  {
    ReportsMatch(outcomes);
    PassesExactlyWhenAllDo(Gather(outcomes).value);
  }

  lemma OutcomesAreJudged(lib: Library, evidence: Evidence, suites: seq<(string, Fields)>, now: UtcStamp)
    ensures var outcomes := Outcomes(lib, evidence, suites, now);
            forall i :: 0 <= i < |outcomes| && outcomes[i].1.Some? ==>
              (outcomes[i].1.value.passed <==> outcomes[i].1.value.reasons == [])
  {
    forall i | 0 <= i < |suites| && SummaryOf(lib, evidence, suites[i].1, now).Some?
      ensures var r := SummaryOf(lib, evidence, suites[i].1, now).value; r.passed <==> r.reasons == []
    {
    }
  }

  /** The reports, one per suite, and the verdict over them. */
  lemma BuiltReports(lib: Library, evidence: Evidence, policy: Fields, now: UtcStamp, suites: Fields, summary: Summary)
    requires Built(lib, evidence, policy, now, suites, summary)
    ensures var outcomes := Outcomes(lib, evidence, SuitesToReport(suites), now);
            && |summary.suites| == |outcomes|
            && forall i :: 0 <= i < |outcomes| ==> outcomes[i] == (summary.suites[i].0, Some(summary.suites[i].1))
    ensures summary.passed <==> forall i :: 0 <= i < |summary.suites| ==> summary.suites[i].1.passed
  {
    OutcomesAreJudged(lib, evidence, SuitesToReport(suites), now);
    GatheredVerdict(Outcomes(lib, evidence, SuitesToReport(suites), now));
  }

  /** A required suite has its report in the summary, under its own name only. */
  lemma RequiredReport(lib: Library, evidence: Evidence, policy: Fields, now: UtcStamp, suites: Fields, summary: Summary,
                       p: nat)
    returns (q: nat)
    requires Built(lib, evidence, policy, now, suites, summary) && p < |suites| && suites[p].1.Obj?
    ensures q < |summary.suites| && summary.suites[q].0 == suites[p].0
    ensures SummaryOf(lib, evidence, suites[p].1.fields + Defaults(suites[p].0), now) == Some(summary.suites[q].1)
    ensures ReportedPassing(SuitesObject(summary.suites), suites[p].0) == summary.suites[q].1.passed
  {
    q := ConfiguredAt(suites, p);
    ConfiguredNames(suites);
    BuiltReports(lib, evidence, policy, now, suites, summary);
    var outcomes := Outcomes(lib, evidence, SuitesToReport(suites), now);
    assert outcomes[q] == (summary.suites[q].0, Some(summary.suites[q].1));
    forall i, j | 0 <= i < j < |summary.suites| ensures summary.suites[i].0 != summary.suites[j].0 {
      assert outcomes[i].0 == Configured(suites)[i].0 && outcomes[j].0 == Configured(suites)[j].0;
    }
    ReportFound(summary.suites, q);
  }

  /** With a summary built from the same policy, the qualification gate opens exactly when every
      suite of the summary passed, required or not. */
  lemma GateOpensExactlyWhenAllPass(lib: Library, evidence: Evidence, policy: Fields, now: UtcStamp, suites: Fields,
                                    summary: Summary)
    requires Built(lib, evidence, policy, now, suites, summary)
    ensures QualificationReasons(lib, policy, Some(SummaryFields(summary))) == Some([]) <==>
            forall i :: 0 <= i < |summary.suites| ==> summary.suites[i].1.passed
  {
    QualificationClears(lib, policy, Some(SummaryFields(summary)));
    SummaryRead(summary);
    SameSuites(policy, suites);
    BuiltReports(lib, evidence, policy, now, suites, summary);
    if summary.passed {
      forall s | s in suites && IsRequired(s.1) ensures ReportedPassing(SuitesObject(summary.suites), s.0) {
        var p :| 0 <= p < |suites| && suites[p] == s;
        var q := RequiredReport(lib, evidence, policy, now, suites, summary, p);
      }
    }
  }

  // ----- What a promotion guarantees ------------------------------------------------------------

  const DAY_REAL: real := 86_400_000_000.0

  /** The newest `k` runs on file all passed, nothing on file newer than the oldest of them failed,
      and the newest is at most `maxAge` days old, up to the rounding of the reported age. */
  ghost predicate Qualified(lib: Library, now: UtcStamp, offered: seq<Run>, runs: seq<Run>, k: int, maxAge: real) {
    && Chronicle(lib, offered, runs)
    && 1 <= k && NewestPassed(runs, k)
    && (forall r :: r in offered && When(lib, r) > When(lib, runs[|runs| - k]) ==> r.passed)
    && (Instant(now) - When(lib, runs[|runs| - 1])) as real <= (maxAge + 0.0005) * DAY_REAL
  }

  lemma SameTimestamp(lib: Library, a: Run, b: Run)
    requires Timed(lib, a) && Timed(lib, b) && a.timestamp == b.timestamp
    ensures When(lib, a) == When(lib, b)
  {
  }

  /** A run newer than one at `at` stands behind it, as far as its key goes. */
  lemma NewerStandsBehind(lib: Library, offered: seq<Run>, runs: seq<Run>, at: nat, r: Run) returns (i: nat)
    requires Chronicle(lib, offered, runs) && at < |runs| && r in offered
    requires When(lib, r) > When(lib, runs[at])
    ensures at < i < |runs| && runs[i].passed == r.passed
  {
    assert HasKey(runs, KeyOf(r));
    i :| 0 <= i < |runs| && KeyOf(runs[i]) == KeyOf(r);
    SameTimestamp(lib, runs[i], r);
    var when, other := When(lib, runs[i]), When(lib, runs[at]);
    assert i < at ==> when <= other;
  }

  lemma NewerPassed(lib: Library, offered: seq<Run>, runs: seq<Run>, at: nat, r: Run)
    requires Chronicle(lib, offered, runs) && at < |runs| && r in offered
    requires forall i :: at < i < |runs| ==> runs[i].passed
    ensures When(lib, r) > When(lib, runs[at]) ==> r.passed
  {
    if When(lib, r) > When(lib, runs[at]) { var i := NewerStandsBehind(lib, offered, runs, at, r); }
  }

  lemma NewerAllPassed(lib: Library, offered: seq<Run>, runs: seq<Run>, at: nat)
    requires Chronicle(lib, offered, runs) && at < |runs|
    requires forall i :: at < i < |runs| ==> runs[i].passed
    ensures forall r :: r in offered && When(lib, r) > When(lib, runs[at]) ==> r.passed
  {
    forall r | r in offered ensures When(lib, r) > When(lib, runs[at]) ==> r.passed {
      NewerPassed(lib, offered, runs, at, r);
    }
  }

  lemma NothingNewerFailed(lib: Library, offered: seq<Run>, runs: seq<Run>, k: int)
    requires Chronicle(lib, offered, runs) && 1 <= k && NewestPassed(runs, k)
    ensures forall r :: r in offered && When(lib, r) > When(lib, runs[|runs| - k]) ==> r.passed
  {
    NewerAllPassed(lib, offered, runs, |runs| - k);
  }

  lemma AgeBound(lib: Library, now: UtcStamp, runs: seq<Run>, maxAge: real)
    requires runs != [] && Timed(lib, runs[|runs| - 1]) && RecentEnough(lib, now, runs, maxAge)
    ensures (Instant(now) - When(lib, runs[|runs| - 1])) as real <= (maxAge + 0.0005) * DAY_REAL
  {
    var microseconds := Instant(now) - When(lib, runs[|runs| - 1]);
    var thousandths := Round3IsClose(microseconds as real / DAY_REAL);
    assert microseconds as real / DAY_REAL <= maxAge + 0.0005;
  }

  lemma RunsQualify(lib: Library, now: UtcStamp, offered: seq<Run>, runs: seq<Run>, k: int, maxAge: real)
    requires Chronicle(lib, offered, runs) && 1 <= k && NewestPassed(runs, k) && RecentEnough(lib, now, runs, maxAge)
    ensures Qualified(lib, now, offered, runs, k, maxAge)
  {
    NothingNewerFailed(lib, offered, runs, k);
    assert runs[|runs| - 1] in runs;
    AgeBound(lib, now, runs, maxAge);
  }

  lemma MinimumAtLeastOne(lib: Library, config: Fields)
    ensures ThresholdsOf(lib, config).Some? ==>
              && ThresholdsOf(lib, config).value.minConsecutive >= 1
              && ThresholdsOf(lib, config).value.required == GetBool(config, "required", false)
  {
  }

  /** A required suite's report that passed says the suite is qualified. */
  lemma PassedMeansQualified(lib: Library, evidence: Evidence, now: UtcStamp, config: Fields, report: Report)
    requires Lawful(lib) && SummaryOf(lib, evidence, config, now) == Some(report)
    requires GetBool(config, "required", false) && report.passed
    ensures ThresholdsOf(lib, config).Some?
    ensures var t := ThresholdsOf(lib, config).value;
            Qualified(lib, now, Offered(lib, evidence, config), SuiteRuns(lib, evidence, config), t.minConsecutive, t.maxAge)
  {
    SuiteRunsAreChronicle(lib, evidence, config);
    MinimumAtLeastOne(lib, config);
    var t, runs := ThresholdsOf(lib, config).value, SuiteRuns(lib, evidence, config);
    SuitePassesExactlyWhen(lib, now, runs, t);
    RunsQualify(lib, now, Offered(lib, evidence, config), runs, t.minConsecutive, t.maxAge);
  }

  lemma DefaultsNameFilesOnly(config: Fields, name: string, key: string)
    requires key != "latest_file" && key != "history_file"
    ensures Get(config + Defaults(name), key) == Get(config, key)
  {
    GetAppend(config, Defaults(name), key);
    var files := Files(name);
    assert files[1..] == [files[1]] && files[1..][1..] == [];
    assert Get(files, key) == Get(files[1..], key) == None;
  }

  /** Where a suite's evidence is read: where its policy says, or, for the known suites, under their
      own names. */
  lemma FilesRead(lib: Library, config: Fields, name: string, file: string)
    ensures Get(config, "history_file") == Some(Str(file)) ==>
              HistoryFile(lib, config + Defaults(name)) == lib.path(lib.strip(file))
    ensures Get(config, "latest_file") == Some(Str(file)) ==>
              LatestFile(lib, config + Defaults(name)) == lib.path(lib.strip(file))
    ensures Get(config, "history_file").None? && name in DEFAULT_SUITES ==>
              HistoryFile(lib, config + Defaults(name)) == lib.path(lib.strip("docs/evidence/" + name + "_history.jsonl"))
    ensures Get(config, "latest_file").None? && name in DEFAULT_SUITES ==>
              LatestFile(lib, config + Defaults(name)) == lib.path(lib.strip("docs/evidence/" + name + "_latest.json"))
  {
    GetAppend(config, Defaults(name), "history_file");
    GetAppend(config, Defaults(name), "latest_file");
    var files := Files(name);
    assert files[1..] == [files[1]] && files[1..][1..] == [];
    assert Get(files, "history_file") == Get(files[1..], "history_file");
  }

  lemma ThresholdsAreThePolicys(lib: Library, config: Fields, name: string)
    ensures ThresholdsOf(lib, config + Defaults(name)) == ThresholdsOf(lib, config)
    ensures GetBool(config + Defaults(name), "required", false) == GetBool(config, "required", false)
  {
    var full := config + Defaults(name);
    DefaultsNameFilesOnly(config, name, "required");
    DefaultsNameFilesOnly(config, name, "min_consecutive_passes");
    DefaultsNameFilesOnly(config, name, "max_age_days");
    assert GetOr(full, "min_consecutive_passes", Num(1.0)) == GetOr(config, "min_consecutive_passes", Num(1.0));
    assert GetOr(full, "max_age_days", Num(8.0)) == GetOr(config, "max_age_days", Num(8.0));
    assert GetOr(full, "required", Bool(false)) == GetOr(config, "required", Bool(false));
  }

  /** An allowed request, under `fail_closed` with gates required, came with the summary, which passed. */
  lemma AllowedMeansSummaryPassed(lib: Library, policy: Fields, request: Request, summary: Summary)
    requires request.summary.Some? ==> request.summary == Some(SummaryFields(summary))
    requires GetBool(policy, "fail_closed", true)
    requires Section(policy, "qualification_gates").Some?
    requires Configures(Section(policy, "qualification_gates").value)
    requires GetBool(Section(policy, "qualification_gates").value.fields, "required", false)
    requires DecisionFor(lib, policy, request).Some? && DecisionFor(lib, policy, request).value.allowed
    ensures request.summary.Some? && QualificationReasons(lib, policy, request.summary) == Some([])
  {
    NoReasonExactlyWhenClear(lib, policy, request);
    QualificationClears(lib, policy, request.summary);
  }

  /** Under `fail_closed`, with qualification gates required and the summary, if one is given, built
      from the same policy, an allowed promotion came with that summary, and each suite the policy
      requires is qualified by its own thresholds. */
  lemma PromotedMeansQualified(lib: Library, evidence: Evidence, policy: Fields, now: UtcStamp, suites: Fields,
                               summary: Summary, request: Request, p: nat)
    requires Lawful(lib) && Built(lib, evidence, policy, now, suites, summary)
    requires request.summary.Some? ==> request.summary == Some(SummaryFields(summary))
    requires GetBool(policy, "fail_closed", true)
    requires GetBool(Section(policy, "qualification_gates").value.fields, "required", false)
    requires DecisionFor(lib, policy, request).Some? && DecisionFor(lib, policy, request).value.allowed
    requires p < |suites| && IsRequired(suites[p].1)
    ensures request.summary.Some? && ThresholdsOf(lib, suites[p].1.fields).Some?
    ensures var config, t := suites[p].1.fields + Defaults(suites[p].0), ThresholdsOf(lib, suites[p].1.fields).value;
            Qualified(lib, now, Offered(lib, evidence, config), SuiteRuns(lib, evidence, config), t.minConsecutive, t.maxAge)
  {
    AllowedMeansSummaryPassed(lib, policy, request, summary);
    RequiredSuiteQualified(lib, evidence, policy, now, suites, summary, p);
  }

  lemma RequiredSuiteQualified(lib: Library, evidence: Evidence, policy: Fields, now: UtcStamp, suites: Fields,
                               summary: Summary, p: nat)
    requires Lawful(lib) && Built(lib, evidence, policy, now, suites, summary)
    requires QualificationReasons(lib, policy, Some(SummaryFields(summary))) == Some([])
    requires p < |suites| && IsRequired(suites[p].1)
    ensures ThresholdsOf(lib, suites[p].1.fields).Some?
    ensures var config, t := suites[p].1.fields + Defaults(suites[p].0), ThresholdsOf(lib, suites[p].1.fields).value;
            Qualified(lib, now, Offered(lib, evidence, config), SuiteRuns(lib, evidence, config), t.minConsecutive, t.maxAge)
  {
    var q := RequiredReport(lib, evidence, policy, now, suites, summary, p);
    GateOpensExactlyWhenAllPass(lib, evidence, policy, now, suites, summary);
    ThresholdsAreThePolicys(lib, suites[p].1.fields, suites[p].0);
    PassedMeansQualified(lib, evidence, now, suites[p].1.fields + Defaults(suites[p].0), summary.suites[q].1);
  }

  /** The same hypotheses in terms of evidence: as many payloads on file passed as the policy wants
      passes, all of them different unless the suite's latest payload counts twice. */
  lemma PromotedMeansPayloads(lib: Library, evidence: Evidence, policy: Fields, now: UtcStamp, suites: Fields,
                              summary: Summary, request: Request, p: nat)
    returns (ps: seq<Fields>)
    requires Lawful(lib) && Built(lib, evidence, policy, now, suites, summary)
    requires request.summary.Some? ==> request.summary == Some(SummaryFields(summary))
    requires GetBool(policy, "fail_closed", true)
    requires GetBool(Section(policy, "qualification_gates").value.fields, "required", false)
    requires DecisionFor(lib, policy, request).Some? && DecisionFor(lib, policy, request).value.allowed
    requires p < |suites| && IsRequired(suites[p].1)
    ensures ThresholdsOf(lib, suites[p].1.fields).Some?
    ensures |ps| == ThresholdsOf(lib, suites[p].1.fields).value.minConsecutive
    ensures var config := suites[p].1.fields + Defaults(suites[p].0);
            && (forall i :: 0 <= i < |ps| ==> PassingOnFile(lib, evidence, config, ps[i]))
            && (!RepeatsLatest(lib, evidence, config) ==> AllDifferent(ps))
  {
    PromotedMeansQualified(lib, evidence, policy, now, suites, summary, request, p);
    ps := NewestPayloads(lib, evidence, suites[p].1.fields + Defaults(suites[p].0),
                         ThresholdsOf(lib, suites[p].1.fields).value.minConsecutive);
  }
}
