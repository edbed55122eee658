// The promotion decision: model governance, the qualification summary, and the other requirements.
module Promotion {
  import opened Prelude
  import opened PythonJson
  import opened IsoTime
  import opened Qualification
  import opened QualificationSummary

  /** `(policy.get("requirements") or {}).get(key) or {}`; nothing when the script raises. */
  function Section(policy: Fields, key: string): Option<Json> {
    var requirements := GetOrEmpty(policy, "requirements");
    if requirements.Obj? then Some(GetOrEmpty(requirements.fields, key)) else None
  }

  /** A section that is no dict, or an empty one, is not evaluated at all. */
  predicate Configures(section: Json) { section.Obj? && section.fields != [] }

  // ----- Model governance ------------------------------------------------------------

  /** The non-blank items of a policy list, trimmed and in lower case. */
  function NameSet(lib: Library, items: seq<Json>): set<string> {
    set j | j in items && lib.strip(Text(lib, j)) != "" :: lib.lower(lib.strip(Text(lib, j)))
  }

  datatype Governance = Governance(blocked: set<string>, allowlist: set<string>)

  /** One route of an agent. */
  datatype Route = Route(model: string, lifecycle: string, approved: bool)

  function Primary(lib: Library, agent: Fields): Route {
    Route(Stripped(lib, agent, "model"), lib.lower(Stripped(lib, agent, "lifecycle")),
          GetBool(agent, "production_approved", false))
  }

  function Fallback(lib: Library, agent: Fields): Route {
    Route(Stripped(lib, agent, "fallback_model"), lib.lower(Stripped(lib, agent, "fallback_lifecycle")),
          GetBool(agent, "fallback_production_approved", true))
  }

  predicate Permitted(lib: Library, g: Governance, route: Route) {
    || route.model == ""
    || lib.lower(route.model) in g.allowlist
    || (route.lifecycle !in g.blocked && route.approved)
  }

  function AgentName(lib: Library, agent: Fields): string {
    var id := Stripped(lib, agent, "agent_id");
    if id != "" then id else "unknown-agent"
  }

  function RouteReason(lib: Library, agent: Fields, kind: string, route: Route): string {
    AgentName(lib, agent) + " " + kind + " route " + route.model + " is not production approved"
  }

  function AgentReasons(lib: Library, g: Governance, agent: Json): seq<string> {
    if !agent.Obj? then []
    else
      var d := agent.fields;
      (if Permitted(lib, g, Primary(lib, d)) then [] else [RouteReason(lib, d, "primary", Primary(lib, d))])
      + (if Permitted(lib, g, Fallback(lib, d)) then [] else [RouteReason(lib, d, "fallback", Fallback(lib, d))])
  }

  function AgentsReasons(lib: Library, g: Governance, agents: seq<Json>): seq<string> {
    if agents == [] then []
    else AgentsReasons(lib, g, agents[..|agents| - 1]) + AgentReasons(lib, g, agents[|agents| - 1])
  }

  /** The two name lists; nothing when one cannot be iterated. */
  function GovernanceOf(lib: Library, section: Fields): Option<Governance> {
    var blocked :- Iterate(GetOr(section, "blocked_lifecycle_stages", Arr([])));
    var allowlist :- Iterate(GetOr(section, "allowlist_models", Arr([])));
    Some(Governance(NameSet(lib, blocked), NameSet(lib, allowlist)))
  }

  function GovernanceReasons(lib: Library, policy: Fields, inventory: Option<Fields>): Option<seq<string>> {
    var section :- Section(policy, "model_governance");
    if !Configures(section) then Some([])
    else if inventory.None? then
      Some(if GetBool(section.fields, "require_inventory", false)
           then ["model inventory is required but was not provided"] else [])
    else
      var g :- GovernanceOf(lib, section.fields);
      var agents := GetOr(inventory.value, "agents", Null);
      Some(if agents.Arr? then AgentsReasons(lib, g, agents.items) else ["model inventory missing agents list"])
  }

  /** The two objections to one agent. */
  method CheckAgent(lib: Library, g: Governance, agent: Fields) returns (reasons: seq<string>)
    ensures reasons == AgentReasons(lib, g, Obj(agent))
  {
    reasons := [];
    var primary, fallback := Primary(lib, agent), Fallback(lib, agent);
    if primary.model != "" && lib.lower(primary.model) !in g.allowlist {
      if primary.lifecycle in g.blocked || !primary.approved {
        reasons := reasons + [RouteReason(lib, agent, "primary", primary)];
      }
    }
    if fallback.model != "" && lib.lower(fallback.model) !in g.allowlist {
      if fallback.lifecycle in g.blocked || !fallback.approved {
        reasons := reasons + [RouteReason(lib, agent, "fallback", fallback)];
      }
    }
  }

  /** The loop over the listed agents; an item that is no dict is passed over. */
  method CheckAgents(lib: Library, g: Governance, agents: seq<Json>) returns (reasons: seq<string>)
    ensures reasons == AgentsReasons(lib, g, agents)
  {
    reasons := [];
    for i := 0 to |agents|
      invariant reasons == AgentsReasons(lib, g, agents[..i])
    {
      assert agents[..i + 1][..i] == agents[..i];
      if !agents[i].Obj? { continue; }
      var more := CheckAgent(lib, g, agents[i].fields);
      reasons := reasons + more;
    }
    assert agents[..|agents|] == agents;
  }

  method EvaluateModelGovernance(lib: Library, policy: Fields, inventory: Option<Fields>)
    returns (result: Option<seq<string>>)
    ensures result == GovernanceReasons(lib, policy, inventory)
  {
    var section := Section(policy, "model_governance");
    if section.None? { return None; }
    if !Configures(section.value) { return Some([]); }
    var required := GetBool(section.value.fields, "require_inventory", false);
    if required && inventory.None? { return Some(["model inventory is required but was not provided"]); }
    if inventory.None? { return Some([]); }
    var governance := GovernanceOf(lib, section.value.fields);
    if governance.None? { return None; }
    var listed := GetOr(inventory.value, "agents", Null);
    if !listed.Arr? { return Some(["model inventory missing agents list"]); }
    var reasons := CheckAgents(lib, governance.value, listed.items);
    return Some(reasons);
  }

  /** Some non-blank item of a policy list reads as `name`. */
  ghost predicate Lists(lib: Library, items: seq<Json>, name: string) {
    exists j :: j in items && lib.strip(Text(lib, j)) != "" && lib.lower(lib.strip(Text(lib, j))) == name
  }

  /** A route is no route, or its model is on the allowlist, or it is approved and in no blocked stage. */
  ghost predicate RouteClear(lib: Library, blocked: seq<Json>, allowlist: seq<Json>,
                             model: string, lifecycle: string, approved: bool) {
    || model == ""
    || Lists(lib, allowlist, lib.lower(model))
    || (approved && !Lists(lib, blocked, lib.lower(lifecycle)))
  }

  /** Both routes of an agent are clear; only the fallback is taken for approved when nothing is said. */
  ghost predicate AgentClear(lib: Library, blocked: seq<Json>, allowlist: seq<Json>, agent: Fields) {
    && RouteClear(lib, blocked, allowlist, Stripped(lib, agent, "model"), Stripped(lib, agent, "lifecycle"),
                  GetBool(agent, "production_approved", false))
    && RouteClear(lib, blocked, allowlist, Stripped(lib, agent, "fallback_model"), Stripped(lib, agent, "fallback_lifecycle"),
                  GetBool(agent, "fallback_production_approved", true))
  }

  lemma ListsIsNameSet(lib: Library, items: seq<Json>, name: string)
    ensures Lists(lib, items, name) <==> name in NameSet(lib, items)
  {
  }

  lemma RoutePermitted(lib: Library, blocked: seq<Json>, allowlist: seq<Json>, route: Route, lifecycle: string)
    requires route.lifecycle == lib.lower(lifecycle)
    ensures Permitted(lib, Governance(NameSet(lib, blocked), NameSet(lib, allowlist)), route) <==>
            RouteClear(lib, blocked, allowlist, route.model, lifecycle, route.approved)
  {
    ListsIsNameSet(lib, allowlist, lib.lower(route.model));
    ListsIsNameSet(lib, blocked, lib.lower(lifecycle));
  }

  lemma AgentPasses(lib: Library, blocked: seq<Json>, allowlist: seq<Json>, agent: Fields)
    ensures AgentReasons(lib, Governance(NameSet(lib, blocked), NameSet(lib, allowlist)), Obj(agent)) == [] <==>
            AgentClear(lib, blocked, allowlist, agent)
  {
    RoutePermitted(lib, blocked, allowlist, Primary(lib, agent), Stripped(lib, agent, "lifecycle"));
    RoutePermitted(lib, blocked, allowlist, Fallback(lib, agent), Stripped(lib, agent, "fallback_lifecycle"));
  }

  lemma {:induction false} NoAgentsReason(lib: Library, g: Governance, agents: seq<Json>)
    ensures AgentsReasons(lib, g, agents) == [] <==> forall j :: j in agents ==> AgentReasons(lib, g, j) == []
  {
    if agents != [] {
      var init, last := agents[..|agents| - 1], agents[|agents| - 1];
      NoAgentsReason(lib, g, init);
      assert agents == init + [last];
    }
  }

  /** No agent is objected to exactly when both routes of each are clear. */
  lemma AgentsPass(lib: Library, blocked: seq<Json>, allowlist: seq<Json>, agents: seq<Json>)
    ensures AgentsReasons(lib, Governance(NameSet(lib, blocked), NameSet(lib, allowlist)), agents) == [] <==>
            forall j :: j in agents && j.Obj? ==> AgentClear(lib, blocked, allowlist, j.fields)
  {
    var g := Governance(NameSet(lib, blocked), NameSet(lib, allowlist));
    NoAgentsReason(lib, g, agents);
    forall j | j in agents
      ensures AgentReasons(lib, g, j) == [] <==> (j.Obj? ==> AgentClear(lib, blocked, allowlist, j.fields))
    {
      if j.Obj? { AgentPasses(lib, blocked, allowlist, j.fields); }
    }
  }

  // ----- Qualification summary -----------------------------------------------------------

  function Quoted(lib: Library, items: seq<Json>): seq<string> {
    seq(|items|, i requires 0 <= i < |items| => "qualification summary: " + Text(lib, items[i]))
  }

  /** What a summary that did not pass adds; never empty. */
  function FailureLines(lib: Library, summary: Fields): Option<seq<string>> {
    if GetBool(summary, "passed", false) then Some([])
    else
      var items :- Iterate(GetOr(summary, "failure_reasons", Arr([])));
      Some(if items == [] then ["qualification summary reports failure"] else Quoted(lib, items))
  }

  predicate IsRequired(config: Json) { config.Obj? && GetBool(config.fields, "required", false) }

  function SuiteReason(suite: (string, Json), suites: Fields): seq<string> {
    var report := GetOr(suites, suite.0, Null);
    if !IsRequired(suite.1) then []
    else if !report.Obj? then ["missing required qualification suite: " + suite.0]
    else if !GetBool(report.fields, "passed", false) then ["required qualification suite failed: " + suite.0]
    else []
  }

  function RequiredReasons(required: Fields, suites: Fields): seq<string> {
    if required == [] then []
    else RequiredReasons(required[..|required| - 1], suites) + SuiteReason(required[|required| - 1], suites)
  }

  function QualificationReasons(lib: Library, policy: Fields, summary: Option<Fields>): Option<seq<string>> {
    var gates :- Section(policy, "qualification_gates");
    if !Configures(gates) then Some([])
    else if summary.None? then
      Some(if GetBool(gates.fields, "required", false)
           then ["qualification summary is required but was not provided"] else [])
    else
      var failures :- FailureLines(lib, summary.value);
      var suites := GetOr(summary.value, "suites", Null);
      if !suites.Obj? then Some(failures + ["qualification summary missing suites object"])
      else
        var required := GetOrEmpty(gates.fields, "suites");
        if !required.Obj? then None
        else Some(failures + RequiredReasons(required.fields, suites.fields))
  }

  method ReportFailures(lib: Library, summary: Fields) returns (result: Option<seq<string>>)
    ensures result == FailureLines(lib, summary)
    ensures result.Some? ==> (result.value == [] <==> GetBool(summary, "passed", false))
  {
    if GetBool(summary, "passed", false) { return Some([]); }
    var items := Iterate(GetOr(summary, "failure_reasons", Arr([])));
    if items.None? { return None; }
    var reasons: seq<string> := [];
    for i := 0 to |items.value|
      invariant reasons == Quoted(lib, items.value[..i])
    {
      reasons := reasons + ["qualification summary: " + Text(lib, items.value[i])];
    }
    assert items.value[..|items.value|] == items.value;
    if reasons == [] { reasons := ["qualification summary reports failure"]; }
    return Some(reasons);
  }

  method CheckRequiredSuites(required: Fields, suites: Fields) returns (reasons: seq<string>)
    ensures reasons == RequiredReasons(required, suites)
  {
    reasons := [];
    for i := 0 to |required|
      invariant reasons == RequiredReasons(required[..i], suites)
    {
      var (name, config) := required[i];
      assert required[..i + 1][..i] == required[..i];
      if !config.Obj? || !GetBool(config.fields, "required", false) { continue; }
      var report := GetOr(suites, name, Null);
      if !report.Obj? {
        reasons := reasons + ["missing required qualification suite: " + name];
        continue;
      }
      if !GetBool(report.fields, "passed", false) {
        reasons := reasons + ["required qualification suite failed: " + name];
      }
    }
    assert required[..|required|] == required;
  }

  method EvaluateQualificationSummary(lib: Library, policy: Fields, summary: Option<Fields>)
    returns (result: Option<seq<string>>)
    ensures result == QualificationReasons(lib, policy, summary)
  {
    var section := Section(policy, "qualification_gates");
    if section.None? { return None; }
    if !Configures(section.value) { return Some([]); }
    var gates := section.value.fields;
    var requireSummary := GetBool(gates, "required", false);
    if requireSummary && summary.None? { return Some(["qualification summary is required but was not provided"]); }
    if summary.None? { return Some([]); }
    var failures := ReportFailures(lib, summary.value);
    if failures.None? { return None; }
    var suites := GetOr(summary.value, "suites", Null);
    if !suites.Obj? { return Some(failures.value + ["qualification summary missing suites object"]); }
    var required := GetOrEmpty(gates, "suites");
    if !required.Obj? { return None; }
    var reasons := CheckRequiredSuites(required.fields, suites.fields);
    return Some(failures.value + reasons);
  }

  predicate ReportedPassing(suites: Fields, name: string) {
    var report := GetOr(suites, name, Null);
    report.Obj? && GetBool(report.fields, "passed", false)
  }

  /** A suite of the policy that is required has a report, and it passed. */
  predicate SuiteMet(suite: (string, Json), suites: Fields) {
    suite.1.Obj? && GetBool(suite.1.fields, "required", false) ==> ReportedPassing(suites, suite.0)
  }

  lemma {:induction false} RequiredPass(required: Fields, suites: Fields)
    ensures RequiredReasons(required, suites) == [] <==> forall s :: s in required ==> SuiteMet(s, suites)
  {
    if required != [] {
      var init, last := required[..|required| - 1], required[|required| - 1];
      RequiredPass(init, suites);
      assert required == init + [last];
      assert SuiteReason(last, suites) == [] <==> SuiteMet(last, suites);
    }
  }

  // ----- The decision -------------------------------------------------------------------------

  /** `any(re.match(pattern, ref) for pattern in patterns)`: stops at the first match; a pattern
      that is no string raises. */
  function AnyMatches(lib: Library, patterns: seq<Json>, ref: string): Option<bool> {
    if patterns == [] then Some(false)
    else if !patterns[0].Str? then None
    else if lib.matches(patterns[0].text, ref) then Some(true)
    else AnyMatches(lib, patterns[1..], ref)
  }

  datatype Request = Request(
    ref: string, ciStatus: string, attestation: bool, signedTag: bool,
    inventory: Option<Fields>, summary: Option<Fields>)

  datatype Decision = Decision(
    allowed: bool, reasons: seq<string>, version: int, ref: string, ciStatus: string, attestation: bool,
    signedTag: bool, inventoryChecked: bool, summaryChecked: bool)

  function RefReasons(lib: Library, policy: Fields, ref: string): Option<seq<string>> {
    var value := GetOr(policy, "allowed_ref_patterns", Null);
    var patterns :- Iterate(if Truthy(value) then value else Arr([]));
    var matched :- AnyMatches(lib, patterns, ref);
    Some(if matched then [] else ["ref '" + ref + "' does not match allowed promotion patterns"])
  }

  function RequiredStatus(lib: Library, requirements: Fields): string {
    lib.lower(Stripped(lib, requirements, "ci_status"))
  }

  predicate StatusMet(lib: Library, requirements: Fields, status: string) {
    RequiredStatus(lib, requirements) == "" || lib.lower(lib.strip(status)) == RequiredStatus(lib, requirements)
  }

  predicate AttestationMet(requirements: Fields, attestation: bool) {
    GetBool(requirements, "attestation_verified", false) ==> attestation
  }

  predicate SignatureMet(lib: Library, requirements: Fields, ref: string, signedTag: bool) {
    GetBool(requirements, "signed_tag_verified", false) && lib.releaseTag(ref) ==> signedTag
  }

  function Unless(met: bool, reason: string): seq<string> { if met then [] else [reason] }

  function StatusReason(lib: Library, requirements: Fields, status: string): string {
    "ci_status '" + status + "' does not satisfy required status '" + RequiredStatus(lib, requirements) + "'"
  }

  const ATTESTATION_REASON: string := "attestation verification is required but not satisfied"
  const SIGNATURE_REASON: string := "signed release tag verification is required but not satisfied"

  function CheckReasons(lib: Library, requirements: Fields, r: Request): seq<string> {
    Unless(StatusMet(lib, requirements, r.ciStatus), StatusReason(lib, requirements, r.ciStatus))
    + Unless(AttestationMet(requirements, r.attestation), ATTESTATION_REASON)
    + Unless(SignatureMet(lib, requirements, r.ref, r.signedTag), SIGNATURE_REASON)
  }

  /** Every reason, in the order the script collects them. */
  function Reasons(lib: Library, policy: Fields, r: Request): Option<seq<string>> {
    var refReasons :- RefReasons(lib, policy, r.ref);
    var requirements := GetOrEmpty(policy, "requirements");
    if !requirements.Obj? then None
    else
      var governance :- GovernanceReasons(lib, policy, r.inventory);
      var qualification :- QualificationReasons(lib, policy, r.summary);
      Some(refReasons + CheckReasons(lib, requirements.fields, r) + governance + qualification)
  }

  function DecisionFor(lib: Library, policy: Fields, r: Request): Option<Decision> {
    var reasons :- Reasons(lib, policy, r);
    var version :- AsInt(lib, GetOr(policy, "version", Num(0.0)));
    Some(Decision(reasons == [] || !GetBool(policy, "fail_closed", true), reasons, version, r.ref, r.ciStatus,
                  r.attestation, r.signedTag, r.inventory.Some?, r.summary.Some?))
  }

  method CheckRequirements(lib: Library, requirements: Fields, r: Request) returns (reasons: seq<string>)
    ensures reasons == CheckReasons(lib, requirements, r)
  {
    reasons := [];
    var requiredStatus := RequiredStatus(lib, requirements);
    if requiredStatus != "" && lib.lower(lib.strip(r.ciStatus)) != requiredStatus {
      reasons := reasons + [StatusReason(lib, requirements, r.ciStatus)];
    }
    if GetBool(requirements, "attestation_verified", false) && !r.attestation {
      reasons := reasons + [ATTESTATION_REASON];
    }
    if GetBool(requirements, "signed_tag_verified", false) && lib.releaseTag(r.ref) && !r.signedTag {
      reasons := reasons + [SIGNATURE_REASON];
    }
  }

  /** Some pattern of the policy matches, and all before it are texts: matching stops at the first
      success, and a pattern that is no text raises. */
  ghost predicate RefClear(lib: Library, policy: Fields, ref: string) {
    var value := GetOr(policy, "allowed_ref_patterns", Null);
    Truthy(value) && Iterate(value).Some? && SomeMatch(lib, Iterate(value).value, ref)
  }

  ghost predicate SomeMatch(lib: Library, patterns: seq<Json>, ref: string) {
    exists i :: 0 <= i < |patterns| && patterns[i].Str? && lib.matches(patterns[i].text, ref)
                && forall j :: 0 <= j < i ==> patterns[j].Str?
  }

  /** Nothing stands in the way of a request, said of the policy and the files given with it. */
  ghost predicate Clear(lib: Library, policy: Fields, r: Request) {
    && RefClear(lib, policy, r.ref)
    && GetOrEmpty(policy, "requirements").Obj?
    && (var requirements := GetOrEmpty(policy, "requirements").fields;
        && (var status := lib.lower(Stripped(lib, requirements, "ci_status"));
            status != "" ==> lib.lower(lib.strip(r.ciStatus)) == status)
        && (GetBool(requirements, "attestation_verified", false) ==> r.attestation)
        && (GetBool(requirements, "signed_tag_verified", false) && lib.releaseTag(r.ref) ==> r.signedTag)
        && GovernanceClear(lib, GetOrEmpty(requirements, "model_governance"), r.inventory)
        && QualificationClear(GetOrEmpty(requirements, "qualification_gates"), r.summary))
  }

  /** No governance is configured, or none of its objections applies. */
  ghost predicate GovernanceClear(lib: Library, section: Json, inventory: Option<Fields>) {
    section.Obj? && section.fields != [] ==>
      if inventory.None? then !GetBool(section.fields, "require_inventory", false)
      else
        var blocked := Iterate(GetOr(section.fields, "blocked_lifecycle_stages", Arr([])));
        var allowlist := Iterate(GetOr(section.fields, "allowlist_models", Arr([])));
        var agents := GetOr(inventory.value, "agents", Null);
        && blocked.Some? && allowlist.Some? && agents.Arr?
        && forall j :: j in agents.items && j.Obj? ==> AgentClear(lib, blocked.value, allowlist.value, j.fields)
  }

  /** No gates are configured, or none of their objections applies. */
  ghost predicate QualificationClear(gates: Json, summary: Option<Fields>) {
    gates.Obj? && gates.fields != [] ==>
      if summary.None? then !GetBool(gates.fields, "required", false)
      else
        var suites, required := GetOr(summary.value, "suites", Null), GetOrEmpty(gates.fields, "suites");
        && GetBool(summary.value, "passed", false) && suites.Obj? && required.Obj?
        && forall s :: s in required.fields ==> SuiteMet(s, suites.fields)
  }

  lemma {:induction false} MatchesWhen(lib: Library, patterns: seq<Json>, ref: string)
    ensures AnyMatches(lib, patterns, ref) == Some(true) <==> SomeMatch(lib, patterns, ref)
  {
    if patterns != [] {
      var rest := patterns[1..];
      MatchesWhen(lib, rest, ref);
      if patterns[0].Str? && lib.matches(patterns[0].text, ref) {
        assert SomeMatch(lib, patterns, ref);
      } else if SomeMatch(lib, patterns, ref) {
        var i :| 0 <= i < |patterns| && patterns[i].Str? && lib.matches(patterns[i].text, ref)
                 && forall j :: 0 <= j < i ==> patterns[j].Str?;
        assert patterns[0].Str? && rest[i - 1] == patterns[i];
        assert forall j :: 0 <= j < i - 1 ==> rest[j] == patterns[j + 1];
      } else if patterns[0].Str? {
        LaterMatch(lib, patterns, ref);
      }
    }
  }

  lemma LaterMatch(lib: Library, patterns: seq<Json>, ref: string)
    requires patterns != [] && patterns[0].Str?
    ensures SomeMatch(lib, patterns[1..], ref) ==> SomeMatch(lib, patterns, ref)
  {
    var rest := patterns[1..];
    if SomeMatch(lib, rest, ref) {
      var i :| 0 <= i < |rest| && rest[i].Str? && lib.matches(rest[i].text, ref) && forall j :: 0 <= j < i ==> rest[j].Str?;
      assert patterns[i + 1].Str? && lib.matches(patterns[i + 1].text, ref);
      forall j | 0 <= j < i + 1 ensures patterns[j].Str? {
        if j > 0 { assert rest[j - 1] == patterns[j]; }
      }
    }
  }

  lemma RefClears(lib: Library, policy: Fields, ref: string)
    ensures RefReasons(lib, policy, ref) == Some([]) <==> RefClear(lib, policy, ref)
  {
    var value := GetOr(policy, "allowed_ref_patterns", Null);
    var patterns := Iterate(if Truthy(value) then value else Arr([]));
    if patterns.Some? { MatchesWhen(lib, patterns.value, ref); }
  }

  lemma GovernanceClears(lib: Library, policy: Fields, inventory: Option<Fields>)
    requires GetOrEmpty(policy, "requirements").Obj?
    ensures GovernanceReasons(lib, policy, inventory) == Some([]) <==>
            GovernanceClear(lib, GetOrEmpty(GetOrEmpty(policy, "requirements").fields, "model_governance"), inventory)
  {
    var section := Section(policy, "model_governance").value;
    if Configures(section) && inventory.Some? {
      var blocked := Iterate(GetOr(section.fields, "blocked_lifecycle_stages", Arr([])));
      var allowlist := Iterate(GetOr(section.fields, "allowlist_models", Arr([])));
      var agents := GetOr(inventory.value, "agents", Null);
      if blocked.Some? && allowlist.Some? && agents.Arr? {
        AgentsPass(lib, blocked.value, allowlist.value, agents.items);
      }
    }
  }

  lemma QualificationClears(lib: Library, policy: Fields, summary: Option<Fields>)
    requires GetOrEmpty(policy, "requirements").Obj?
    ensures QualificationReasons(lib, policy, summary) == Some([]) <==>
            QualificationClear(GetOrEmpty(GetOrEmpty(policy, "requirements").fields, "qualification_gates"), summary)
  {
    var gates := Section(policy, "qualification_gates").value;
    if Configures(gates) && summary.Some? {
      var suites, required := GetOr(summary.value, "suites", Null), GetOrEmpty(gates.fields, "suites");
      if suites.Obj? && required.Obj? { RequiredPass(required.fields, suites.fields); }
    }
  }

  lemma AllEmpty(a: seq<string>, b: seq<string>, c: seq<string>, d: seq<string>)
    ensures a + b + c + d == [] <==> a == [] && b == [] && c == [] && d == []
  {
    assert |a + b + c + d| == |a| + |b| + |c| + |d|;
  }

  /** There is no reason against a request exactly when every requirement is met. */
  lemma NoReasonExactlyWhenClear(lib: Library, policy: Fields, r: Request)
    ensures Reasons(lib, policy, r) == Some([]) <==> Clear(lib, policy, r)
  {
    RefClears(lib, policy, r.ref);
    var a, requirements := RefReasons(lib, policy, r.ref), GetOrEmpty(policy, "requirements");
    var c, d := GovernanceReasons(lib, policy, r.inventory), QualificationReasons(lib, policy, r.summary);
    if requirements.Obj? {
      GovernanceClears(lib, policy, r.inventory);
      QualificationClears(lib, policy, r.summary);
      ChecksPass(lib, requirements.fields, r);
      if a.Some? && c.Some? && d.Some? {
        AllEmpty(a.value, CheckReasons(lib, requirements.fields, r), c.value, d.value);
      }
    }
  }

  lemma ChecksPass(lib: Library, requirements: Fields, r: Request)
    ensures CheckReasons(lib, requirements, r) == [] <==>
            && StatusMet(lib, requirements, r.ciStatus)
            && AttestationMet(requirements, r.attestation)
            && SignatureMet(lib, requirements, r.ref, r.signedTag)
  {
  }

  /** Under `fail_closed`, exactly the requests that are clear are allowed; otherwise all are. */
  method EvaluatePromotion(lib: Library, policy: Fields, r: Request) returns (decision: Option<Decision>)
    ensures decision == DecisionFor(lib, policy, r)
    ensures decision.Some? ==>
              && (decision.value.reasons == [] <==> Clear(lib, policy, r))
              && (decision.value.allowed <==> Clear(lib, policy, r) || !GetBool(policy, "fail_closed", true))
              && decision.value.ref == r.ref && decision.value.ciStatus == r.ciStatus
              && decision.value.attestation == r.attestation && decision.value.signedTag == r.signedTag
              && decision.value.inventoryChecked == r.inventory.Some? && decision.value.summaryChecked == r.summary.Some?
  {
    NoReasonExactlyWhenClear(lib, policy, r);
    var refReasons := RefReasons(lib, policy, r.ref);
    if refReasons.None? { return None; }
    var reasons := refReasons.value;
    var requirements := GetOrEmpty(policy, "requirements");
    if !requirements.Obj? { return None; }
    var checks := CheckRequirements(lib, requirements.fields, r);
    reasons := reasons + checks;
    var governance := EvaluateModelGovernance(lib, policy, r.inventory);
    if governance.None? { return None; }
    reasons := reasons + governance.value;
    var qualification := EvaluateQualificationSummary(lib, policy, r.summary);
    if qualification.None? { return None; }
    reasons := reasons + qualification.value;
    assert Reasons(lib, policy, r) == Some(reasons);
    var failClosed := GetBool(policy, "fail_closed", true);
    var allowed := if failClosed then reasons == [] else true;
    var version := AsInt(lib, GetOr(policy, "version", Num(0.0)));
    if version.None? { return None; }
    return Some(Decision(allowed, reasons, version.value, r.ref, r.ciStatus, r.attestation, r.signedTag,
                         r.inventory.Some?, r.summary.Some?));
  }
}
