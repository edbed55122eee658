// The agent runtime's circuit breaker, and what any history of calls makes of it.
module CircuitBreaker {

  datatype Phase = Closed | Open | Half

  /** `trips` is the AGENT_CIRCUIT_OPEN counter. */
  datatype State = State(phase: Phase, failures: nat, openedAt: real, trips: nat)

  /** The calls a breaker receives, with the clock each one read. */
  datatype Event = Success | Failure(now: real) | Probe(now: real)

  /** FAILURE_THRESHOLD and RECOVERY_SECONDS. */
  datatype Config = Config(threshold: int, recovery: real)

  const INITIAL := State(Closed, 0, 0.0, 0)

  /** Whether is_open answers True. */
  predicate Rejects(k: Config, s: State, now: real) {
    s.phase.Open? && now - s.openedAt < k.recovery
  }

  function Step(k: Config, s: State, e: Event): State {
    match e
    case Success => s.(failures := 0, phase := Closed)
    case Failure(now) =>
      var f := s.failures + 1;
      if f >= k.threshold then State(Open, f, now, if s.phase.Open? then s.trips else s.trips + 1)
      else s.(failures := f)
    case Probe(now) =>
      if s.phase.Open? && now - s.openedAt >= k.recovery then s.(phase := Half) else s
  }

  function After(k: Config, trace: seq<Event>): State {
    if trace == [] then INITIAL else Step(k, After(k, trace[..|trace| - 1]), trace[|trace| - 1])
  }

  lemma AfterSnoc(k: Config, trace: seq<Event>, e: Event)
    ensures After(k, trace + [e]) == Step(k, After(k, trace), e)
  {
    assert (trace + [e])[..|trace|] == trace;
  }

  class Breaker {
    const config: Config
    var phase: Phase
    var failures: nat
    var openedAt: real
    var trips: nat
    /** Every call so far. */
    ghost var trace: seq<Event>

    function Now(): State
      reads this
    {
      State(phase, failures, openedAt, trips)
    }

    /** The fields are what the history makes of a new breaker. */
    ghost predicate Valid()
      reads this
    {
      Now() == After(config, trace)
    }

    constructor (config: Config)
      ensures Valid() && this.config == config && trace == [] && Now() == INITIAL
    {
      this.config := config;
      phase, failures, openedAt, trips := Closed, 0, 0.0, 0;
      trace := [];
    }

    method RecordSuccess()
      requires Valid()
      modifies this
      ensures Valid() && trace == old(trace) + [Success]
      ensures Now() == Step(config, old(Now()), Success)
    {
      AfterSnoc(config, trace, Success);
      failures := 0;
      phase := Closed;
      trace := trace + [Success];
    }

    method RecordFailure(now: real)
      requires Valid()
      modifies this
      ensures Valid() && trace == old(trace) + [Failure(now)]
      ensures Now() == Step(config, old(Now()), Failure(now))
    {
      AfterSnoc(config, trace, Failure(now));
      failures := failures + 1;
      if failures >= config.threshold {
        if !phase.Open? { trips := trips + 1; }
        phase := Open;
        openedAt := now;
      }
      trace := trace + [Failure(now)];
    }

    method IsOpen(now: real) returns (rejected: bool)
      requires Valid()
      modifies this
      ensures Valid() && trace == old(trace) + [Probe(now)]
      ensures Now() == Step(config, old(Now()), Probe(now))
      ensures rejected == Rejects(config, old(Now()), now)
    {
      AfterSnoc(config, trace, Probe(now));
      trace := trace + [Probe(now)];
      if phase.Open? {
        if now - openedAt >= config.recovery {
          phase := Half;
          return false;
        }
        return true;
      }
      return false;
    }
  }

  // ----- What a history amounts to ---------------------------------------------

  /** Failures since the last success. */
  function Trailing(trace: seq<Event>): nat {
    if trace == [] then 0
    else
      var e, rest := trace[|trace| - 1], trace[..|trace| - 1];
      if e.Success? then 0 else if e.Failure? then 1 + Trailing(rest) else Trailing(rest)
  }

  /** The clock of the last failure. */
  function LastFailure(trace: seq<Event>): real
    requires Trailing(trace) > 0
  {
    var e, rest := trace[|trace| - 1], trace[..|trace| - 1];
    if e.Failure? then e.now else LastFailure(rest)
  }

  /** Some call since the last failure came at least `recovery` after it. */
  predicate LetThrough(k: Config, trace: seq<Event>)
    requires Trailing(trace) > 0
  {
    var e, rest := trace[|trace| - 1], trace[..|trace| - 1];
    !e.Failure? && (LetThrough(k, rest) || e.now - LastFailure(rest) >= k.recovery)
  }

  /** How often the history goes from not open to open. */
  function Openings(k: Config, trace: seq<Event>): nat {
    if trace == [] then 0
    else
      var rest := trace[..|trace| - 1];
      Openings(k, rest) + (if !After(k, rest).phase.Open? && After(k, trace).phase.Open? then 1 else 0)
  }

  /** After any history: closed exactly while the trailing run of failures is shorter than the
      threshold; otherwise opened at the last failure, and half-open exactly when some call
      since then came after the recovery time; trips count the openings. */
  ghost predicate Described(k: Config, trace: seq<Event>) {
    var s := After(k, trace);
    && s.failures == Trailing(trace)
    && (s.phase.Closed? <==> Trailing(trace) < k.threshold)
    && (Trailing(trace) >= k.threshold && Trailing(trace) > 0 ==>
          && s.openedAt == LastFailure(trace)
          && s.phase == if LetThrough(k, trace) then Half else Open)
    && s.trips == Openings(k, trace)
  }

  lemma {:induction false} HistoryDescribed(k: Config, trace: seq<Event>)
    requires k.threshold >= 1
    ensures Described(k, trace)
  {
    if trace != [] { HistoryDescribed(k, trace[..|trace| - 1]); }
  }

  /** A threshold below one breaks the description of the empty history; every other
      threshold makes it hold for all histories. */
  lemma DescribedIffThreshold(k: Config)
    ensures (forall trace :: Described(k, trace)) <==> k.threshold >= 1
  {
    if k.threshold >= 1 {
      forall trace ensures Described(k, trace) { HistoryDescribed(k, trace); }
    } else {
      assert !Described(k, []);
    }
  }

  /** Calls are rejected exactly after a full run of failures, before the recovery time has
      passed since the last of them and before any call was let through. */
  lemma RejectedExactlyWhen(k: Config, trace: seq<Event>, now: real)
    requires k.threshold >= 1
    ensures Rejects(k, After(k, trace), now) <==>
            && Trailing(trace) >= k.threshold
            && !LetThrough(k, trace)
            && now - LastFailure(trace) < k.recovery
  {
    HistoryDescribed(k, trace);
  }

  /** One failure reopens a half-open breaker, and counts as one more trip. */
  lemma HalfReopens(k: Config, trace: seq<Event>, now: real)
    requires k.threshold >= 1 && After(k, trace).phase.Half?
    ensures var t := After(k, trace + [Failure(now)]);
            t.phase.Open? && t.openedAt == now && t.trips == After(k, trace).trips + 1
  {
    HistoryDescribed(k, trace);
    AfterSnoc(k, trace, Failure(now));
  }
}
