// The agent runtime's request loop, guarded by the circuit breaker, and the audit event it
// emits by calling itself once more.
module AgentRequest {
  import opened Prelude
  import opened CircuitBreaker

  /** How one HTTP attempt ends; `OtherError` is an exception the loop does not catch. */
  datatype Outcome = Response(status: int) | HttpError | OtherError

  /** An attempt, with the clock the breaker read when recording it. */
  datatype Attempt = Attempt(outcome: Outcome, now: real)

  datatype Result = Returned(status: int) | BadPath | CircuitOpen | HttpErrorRaised | NoResponse | OtherRaised

  /** A response that ends the retries. */
  predicate Accepted(o: Outcome) { o.Response? && o.status < 500 && o.status != 429 }

  /** An attempt after which the loop goes on. */
  predicate Retryable(o: Outcome) { !Accepted(o) && !o.OtherError? }

  /** What the attempts tell the breaker: one event each, unless an uncaught exception ends them. */
  function Records(own: seq<Attempt>): seq<Event> {
    if own == [] then [] else Records(own[..|own| - 1]) + Record(own[|own| - 1])
  }

  function Record(a: Attempt): seq<Event> {
    if Accepted(a.outcome) then [Success] else if a.outcome.OtherError? then [] else [Failure(a.now)]
  }

  function LastResponse(own: seq<Attempt>): Option<int> {
    if own == [] then None
    else if own[|own| - 1].outcome.Response? then Some(own[|own| - 1].outcome.status)
    else LastResponse(own[..|own| - 1])
  }

  /** Some attempt raised an HTTP error. */
  predicate Failed(own: seq<Attempt>) {
    own != [] && (own[|own| - 1].outcome.HttpError? || Failed(own[..|own| - 1]))
  }

  /** What the caller gets for its attempts. */
  function Conclude(own: seq<Attempt>): Result {
    if own != [] && own[|own| - 1].outcome.OtherError? then OtherRaised
    else if LastResponse(own).Some? then Returned(LastResponse(own).value)
    else if Failed(own) then HttpErrorRaised
    else NoResponse
  }

  /** The attempts one admitted request makes: as many as allowed, fewer only when the last
      one ends the loop, and every one before the last retryable. */
  ghost predicate Complete(own: seq<Attempt>, limit: int) {
    && |own| <= (if limit < 0 then 0 else limit)
    && (forall i :: 0 <= i < |own| - 1 ==> Retryable(own[i].outcome))
    && (|own| < limit ==> own != [] && !Retryable(own[|own| - 1].outcome))
  }

  lemma RecordsSnoc(own: seq<Attempt>, a: Attempt)
    ensures Records(own + [a]) == Records(own) + Record(a)
    ensures Failed(own + [a]) <==> a.outcome.HttpError? || Failed(own)
    ensures LastResponse(own + [a]) == if a.outcome.Response? then Some(a.outcome.status) else LastResponse(own)
  {
    assert (own + [a])[..|own|] == own;
  }

  /** The loop's two variables are what the attempts so far make of them. */
  ghost predicate Heard(own: seq<Attempt>, lastResponse: Option<int>, sawError: bool) {
    lastResponse == LastResponse(own) && (sawError <==> Failed(own))
  }

  lemma HeardMore(own: seq<Attempt>, lastResponse: Option<int>, sawError: bool, a: Attempt)
    requires Heard(own, lastResponse, sawError)
    ensures Heard(own + [a], if a.outcome.Response? then Some(a.outcome.status) else lastResponse,
                  sawError || a.outcome.HttpError?)
    ensures Records(own + [a]) == Records(own) + Record(a)
  {
    RecordsSnoc(own, a);
  }

  ghost predicate AllRetryable(own: seq<Attempt>) { forall i :: 0 <= i < |own| ==> Retryable(own[i].outcome) }

  /** A breaker event, and whether this call caused it; the others come from tasks that share the
      breaker and run while this call awaits. */
  datatype Tagged = Tagged(mine: bool, event: Event)

  function Events(m: seq<Tagged>): seq<Event> {
    if m == [] then [] else Events(m[..|m| - 1]) + [m[|m| - 1].event]
  }

  function Mine(m: seq<Tagged>): seq<Event> {
    if m == [] then []
    else Mine(m[..|m| - 1]) + (if m[|m| - 1].mine then [m[|m| - 1].event] else [])
  }

  lemma {:induction false} Concat(a: seq<Tagged>, b: seq<Tagged>)
    ensures Mine(a + b) == Mine(a) + Mine(b) && Events(a + b) == Events(a) + Events(b)
  {
    if b == [] {
      assert a + b == a;
    } else {
      assert (a + b)[..|a + b| - 1] == a + b[..|b| - 1];
      Concat(a, b[..|b| - 1]);
    }
  }

  function Tag(mine: bool, events: seq<Event>): seq<Tagged> {
    if events == [] then [] else Tag(mine, events[..|events| - 1]) + [Tagged(mine, events[|events| - 1])]
  }

  lemma {:induction false} TagReads(mine: bool, events: seq<Event>)
    ensures Mine(Tag(mine, events)) == (if mine then events else []) && Events(Tag(mine, events)) == events
  {
    if events != [] {
      var init, last := events[..|events| - 1], events[|events| - 1];
      TagReads(mine, init);
      var t := Tag(mine, events);
      assert t[..|t| - 1] == Tag(mine, init);
    }
  }

  /** A request asks the breaker, whose history is `before`, at time `now`; if it is let through it
      makes a complete set of attempts and records them. */
  ghost predicate AskedAt(k: Config, before: seq<Event>, limit: int, attempts: seq<Attempt>, told: seq<Tagged>, now: real) {
    && [Tagged(true, Probe(now))] <= told && Mine(told) == [Probe(now)] + Records(attempts)
    && if Rejects(k, After(k, before), now) then attempts == [] && |told| == 1 else Complete(attempts, limit)
  }

  ghost predicate Asked(k: Config, before: seq<Event>, limit: int, attempts: seq<Attempt>, told: seq<Tagged>) {
    exists now :: AskedAt(k, before, limit, attempts, told, now)
  }

  /** The request concerns a mission: an empty identifier counts as none. */
  predicate Concerns(mission: Option<string>) { mission.Some? && mission.value != "" }

  /** The breaker's history grew by `told`, of which this call's part is `events`. */
  ghost predicate Grew(before: seq<Event>, after: seq<Event>, told: seq<Tagged>, events: seq<Event>) {
    after == before + Events(told) && Mine(told) == events
  }

  lemma GrewMore(a: seq<Event>, b: seq<Event>, c: seq<Event>, told: seq<Tagged>, more: seq<Tagged>,
                 events: seq<Event>, last: seq<Event>)
    requires Grew(a, b, told, events) && Grew(b, c, more, last)
    ensures Grew(a, c, told + more, events + last)
  {
    Concat(told, more);
    assert a + Events(told) + Events(more) == a + (Events(told) + Events(more));
  }

  lemma GrewByOne(before: seq<Event>, e: Event)
    ensures Grew(before, before + [e], [Tagged(true, e)], [e])
  {
    assert [Tagged(true, e)][..0] == [];
    assert Events([Tagged(true, e)]) == [] + [e] == [e];
  }

  lemma GrewByNone(before: seq<Event>)
    ensures Grew(before, before, [], [])
  {
    assert before + [] == before;
  }

  class Runtime {
    const breaker: Breaker
    const maxRetries: int
    /** Every attempt this call has made. */
    ghost var log: seq<Attempt>

    constructor (breaker: Breaker, maxRetries: int)
      ensures this.breaker == breaker && this.maxRetries == maxRetries && log == []
    {
      this.breaker := breaker;
      this.maxRetries := maxRetries;
      log := [];
    }

    /** Other tasks use the breaker, any number of times. */
    method Others() returns (ghost told: seq<Tagged>)
      requires breaker.Valid()
      modifies breaker
      ensures breaker.Valid() && Grew(old(breaker.trace), breaker.trace, told, [])
    {
      ghost var theirs: seq<Event> := [];
      var n: nat := *;
      while n > 0
        invariant breaker.Valid() && breaker.trace == old(breaker.trace) + theirs
      {
        var now: real, which: nat := *, *;
        if which == 0 {
          breaker.RecordSuccess();
          theirs := theirs + [Success];
        } else if which == 1 {
          breaker.RecordFailure(now);
          theirs := theirs + [Failure(now)];
        } else {
          var rejected := breaker.IsOpen(now);
          theirs := theirs + [Probe(now)];
        }
        n := n - 1;
      }
      told := Tag(false, theirs);
      TagReads(false, theirs);
    }

    /** One HTTP exchange; the network decides, and other tasks run while it is awaited. */
    method Send(now: real) returns (o: Outcome, ghost told: seq<Tagged>)
      requires breaker.Valid()
      modifies this, breaker
      ensures log == old(log) + [Attempt(o, now)]
      ensures breaker.Valid() && Grew(old(breaker.trace), breaker.trace, told, [])
    {
      told := Others();
      o := *;
      log := log + [Attempt(o, now)];
    }

    /** Lines 277 to 283. */
    method RecordOutcome(a: Attempt) returns (ghost told: seq<Tagged>)
      requires breaker.Valid()
      modifies breaker
      ensures breaker.Valid() && Grew(old(breaker.trace), breaker.trace, told, Record(a))
      ensures Mine(told) == match a.outcome
                            case Response(status) => if status >= 500 || status == 429 then [Failure(a.now)] else [Success]
                            case HttpError => [Failure(a.now)]
                            case OtherError => []
    {
      if a.outcome.Response? && a.outcome.status < 500 && a.outcome.status != 429 {
        breaker.RecordSuccess();
        told := [Tagged(true, Success)];
        GrewByOne(old(breaker.trace), Success);
      } else if a.outcome.OtherError? {
        told := [];
        GrewByNone(breaker.trace);
      } else {
        breaker.RecordFailure(a.now);
        told := [Tagged(true, Failure(a.now))];
        GrewByOne(old(breaker.trace), Failure(a.now));
      }
    }

    /** Lines 268 to 283: one attempt, and what it tells the breaker. */
    method TryOnce() returns (a: Attempt, ghost told: seq<Tagged>)
      requires breaker.Valid()
      modifies this, breaker
      ensures log == old(log) + [a]
      ensures breaker.Valid() && Grew(old(breaker.trace), breaker.trace, told, Record(a))
    {
      var now: real := *;
      var o, meanwhile := Send(now);
      ghost var before := breaker.trace;
      a := Attempt(o, now);
      var recorded := RecordOutcome(a);
      GrewMore(old(breaker.trace), before, breaker.trace, meanwhile, recorded, [], Record(a));
      told := meanwhile + recorded;
      assert [] + Record(a) == Record(a);
    }

    /** Lines 264 to 285: the retry loop. */
    method Attempts()
      returns (lastResponse: Option<int>, sawError: bool, uncaught: bool, ghost own: seq<Attempt>, ghost told: seq<Tagged>)
      requires breaker.Valid()
      modifies this, breaker
      ensures breaker.Valid() && Grew(old(breaker.trace), breaker.trace, told, Records(own))
      ensures log == old(log) + own && Complete(own, maxRetries)
      ensures uncaught <==> own != [] && own[|own| - 1].outcome.OtherError?
      ensures Heard(own, lastResponse, sawError)
    {
      own, told := [], [];
      lastResponse, sawError, uncaught := None, false, false;
      var attempt := 1;
      while attempt <= maxRetries
        invariant breaker.Valid() && Grew(old(breaker.trace), breaker.trace, told, Records(own))
        invariant log == old(log) + own && |own| == attempt - 1
        invariant attempt == 1 || attempt <= maxRetries + 1
        invariant AllRetryable(own) && Heard(own, lastResponse, sawError) && !uncaught
        decreases maxRetries - attempt
      {
        ghost var before := breaker.trace;
        var a, more := TryOnce();
        HeardMore(own, lastResponse, sawError, a);
        GrewMore(old(breaker.trace), before, breaker.trace, told, more, Records(own), Record(a));
        own, told := own + [a], told + more;
        if a.outcome.OtherError? {
          uncaught := true;
          return;
        }
        if a.outcome.Response? {
          lastResponse := Some(a.outcome.status);
          if Accepted(a.outcome) { return; }
        } else {
          sawError := true;
        }
        attempt := attempt + 1;
      }
    }

    /** `_emit_audit_event`: one request of its own for a mission, none without; nothing that one
        meets reaches the caller. */
    method EmitAuditEvent(mission: Option<string>) returns (ghost nested: seq<Attempt>, ghost told: seq<Tagged>)
      requires breaker.Valid()
      modifies this, breaker
      ensures breaker.Valid() && Grew(old(breaker.trace), breaker.trace, told, Mine(told))
      ensures log == old(log) + nested
      ensures if Concerns(mission) then Asked(breaker.config, old(breaker.trace), maxRetries, nested, told)
              else nested == [] && told == []
      decreases 1
    {
      nested, told := [], [];
      if mission.Some? && mission.value != "" {
        var status, own, first, deeper, more := Request(true, true, mission, false);
        nested, told := own, first;
        assert more == [] && first + [] == first && Mine(first) + [] == Mine(first);
      }
    }

    /** `_request`. `slash`: the path starts with "/"; `auditPath`: it is the audit endpoint;
        `mission`: the mission the request concerns. `own` are the attempts of this call and `told`
        what reached the breaker meanwhile, from this call and from others; `nested` and `more` are
        those of the audit event, which is emitted exactly after a response to a request that is not
        one itself, when it is asked for and there is a mission. */
    method Request(slash: bool, auditPath: bool, mission: Option<string>, emitAudit: bool)
      returns (result: Result, ghost own: seq<Attempt>, ghost told: seq<Tagged>,
               ghost nested: seq<Attempt>, ghost more: seq<Tagged>)
      requires breaker.Valid()
      modifies this, breaker
      ensures breaker.Valid() && Grew(old(breaker.trace), breaker.trace, told + more, Mine(told) + Mine(more))
      ensures log == old(log) + own + nested
      ensures |log| - |old(log)| <= if maxRetries < 0 then 0 else 2 * maxRetries
      ensures result.BadPath? <==> !slash
      ensures result.BadPath? ==> told == [] && own == []
      ensures slash ==>
                exists now :: AskedAt(breaker.config, old(breaker.trace), maxRetries, own, told, now)
                              && if Rejects(breaker.config, old(breaker.Now()), now) then result.CircuitOpen?
                                 else result == Conclude(own)
      ensures result.CircuitOpen? ==> breaker.Now() == old(breaker.Now())
      ensures if emitAudit && !auditPath && Concerns(mission) && result.Returned?
              then Asked(breaker.config, old(breaker.trace) + Events(told), maxRetries, nested, more)
              else nested == [] && more == []
      decreases if emitAudit then 2 else 0
    {
      own, told, nested, more := [], [], [], [];
      if !slash { return BadPath, [], [], [], []; }
      var now: real := *;
      var rejected := breaker.IsOpen(now);
      ghost var probe := [Tagged(true, Probe(now))];
      GrewByOne(old(breaker.trace), Probe(now));
      told := probe;
      assert told + [] == told;
      if rejected { return CircuitOpen, [], told, [], []; }
      ghost var admitted := breaker.trace;
      var lastResponse, sawError, uncaught;
      ghost var rest: seq<Tagged>;
      lastResponse, sawError, uncaught, own, rest := Attempts();
      GrewMore(old(breaker.trace), admitted, breaker.trace, probe, rest, [Probe(now)], Records(own));
      told := probe + rest;
      ghost var done := breaker.trace;
      assert told + [] == told && Mine(told) + [] == Mine(told);
      if uncaught {
        result := OtherRaised;
      } else if lastResponse.Some? {
        result := Returned(lastResponse.value);
        if emitAudit && !auditPath {
          nested, more := EmitAuditEvent(mission);
          GrewMore(old(breaker.trace), done, breaker.trace, told, more, Mine(told), Mine(more));
        }
      } else if sawError {
        result := HttpErrorRaised;
      } else {
        result := NoResponse;
      }
    }
  }

  // ----- Consequences -------------------------------------------------------------

  /** An admitted request makes at least one attempt and at most the limit, none when the limit is
      below one. It tries again exactly after HTTP errors, server errors and 429. If any response
      arrived, and no uncaught error ended the loop, the latest one is what the caller gets; with
      nothing but HTTP errors, one of them. */
  lemma CompleteRequests(own: seq<Attempt>, limit: int)
    requires Complete(own, limit)
    ensures if limit < 1 then own == [] else 1 <= |own| <= limit
    ensures forall i :: 0 <= i < |own| - 1 ==>
              own[i].outcome.HttpError?
              || (own[i].outcome.Response? && (own[i].outcome.status >= 500 || own[i].outcome.status == 429))
    ensures own != [] && |own| < limit ==>
              var last := own[|own| - 1].outcome;
              last.OtherError? || (last.Response? && last.status < 500 && last.status != 429)
    ensures Conclude(own) == NoResponse <==> own == []
    ensures Conclude(own) == OtherRaised <==> own != [] && own[|own| - 1].outcome.OtherError?
    ensures Conclude(own) == HttpErrorRaised <==> own != [] && forall i :: 0 <= i < |own| ==> own[i].outcome.HttpError?
    ensures Conclude(own).Returned? ==>
              exists i :: 0 <= i < |own| && own[i].outcome.Response? && Conclude(own) == Returned(own[i].outcome.status)
                && forall j :: i < j < |own| ==> !own[j].outcome.Response?
  {
    NoResponses(own);
    if own != [] && LastResponse(own).Some? { var i := LatestResponse(own); }
  }

  /** Without any response, what is left of retried attempts are HTTP errors. */
  lemma {:induction false} NoResponses(own: seq<Attempt>)
    ensures LastResponse(own).None? <==> forall i :: 0 <= i < |own| ==> !own[i].outcome.Response?
    ensures Failed(own) <==> exists i :: 0 <= i < |own| && own[i].outcome.HttpError?
  {
    if own != [] {
      var init := own[..|own| - 1];
      NoResponses(init);
      assert own == init + [own[|own| - 1]];
      assert forall i :: 0 <= i < |init| ==> own[i] == init[i];
    }
  }

  lemma {:induction false} RecordedOnce(own: seq<Attempt>)
    requires forall i :: 0 <= i < |own| - 1 ==> !own[i].outcome.OtherError?
    ensures |Records(own)| == |own| - (if own != [] && own[|own| - 1].outcome.OtherError? then 1 else 0)
  {
    if own != [] {
      var init := own[..|own| - 1];
      assert init != [] ==> !init[|init| - 1].outcome.OtherError?;
      RecordedOnce(init);
    }
  }

  lemma {:induction false} LatestResponse(own: seq<Attempt>) returns (i: nat)
    requires exists i :: 0 <= i < |own| && own[i].outcome.Response?
    ensures i < |own| && own[i].outcome.Response? && LastResponse(own) == Some(own[i].outcome.status)
    ensures forall j :: i < j < |own| ==> !own[j].outcome.Response?
  {
    if own[|own| - 1].outcome.Response? {
      i := |own| - 1;
    } else {
      var init := own[..|own| - 1];
      var w :| 0 <= w < |own| && own[w].outcome.Response?;
      assert init[w] == own[w];
      i := LatestResponse(init);
      assert forall j :: 0 <= j < |init| ==> init[j] == own[j];
    }
  }
}
