// The audit worker's handling of one stream entry: the try/except/finally of the consumer
// loop, with the outside world's answers as inputs.
module AuditWorker {
  import opened Prelude

  datatype Kind = MissionVerified | MissionFailed | AuditPass | AuditFail | OtherKind

  /** A stream entry as the worker reads it: fields missing, an envelope that does not parse
      or validate, a payload that does not parse, a payload that is not an object, an event. */
  datatype Entry = Missing | BadEnvelope | BadPayload | NotObject | Event(kind: Kind, mission: string)

  /** Permanent errors are those the first except clause names; the rest are transient. */
  datatype Post = Accepted | Refused | PostRaises(permanent: bool)
  datatype Publish = Published | NotPublished(permanent: bool) | PublishedThenRaised

  /** How the orchestrator, the stream, the dead-letter stream and the acknowledgement answer. */
  datatype Env = Env(post: Post, publish: Publish, dlqWrites: bool, acks: bool)

  datatype Grade = Processed | Malformed | Transient

  /** What handling an entry comes to, and the entry it publishes, if any. */
  datatype Handling = Handling(grade: Grade, published: Option<Entry>)

  /** Entries whose handling can publish. */
  predicate Trigger(e: Entry) {
    e.Event? && e.mission != "" && (e.kind.MissionVerified? || e.kind.MissionFailed?)
  }

  function Raised(permanent: bool): Grade { if permanent then Malformed else Transient }

  function Handle(e: Entry, env: Env): Handling {
    match e
    case Missing => Handling(Malformed, None)
    case BadEnvelope => Handling(Malformed, None)
    case BadPayload => Handling(Malformed, None)
    case NotObject => Handling(Transient, None)
    case Event(kind, mission) =>
      if mission == "" then Handling(Malformed, None)
      else if !Trigger(e) then Handling(Processed, None)
      else
        match env.post
        case Refused => Handling(Processed, None)
        case PostRaises(permanent) => Handling(Raised(permanent), None)
        case Accepted =>
          var own := Event(if kind.MissionVerified? then AuditPass else AuditFail, mission);
          match env.publish
          case Published => Handling(Processed, Some(own))
          case PublishedThenRaised => Handling(Transient, Some(own))
          case NotPublished(permanent) => Handling(Raised(permanent), None)
  }

  // ----- The same, said of the entry and the answers -------------------------------------

  /** What the worker announces for an entry: a verified mission passed its audit, a failed one
      failed it, once the orchestrator has accepted the audit and the stream has taken the event. */
  function Announced(e: Entry, env: Env): seq<Entry> {
    if !e.Event? || e.mission == "" || !env.post.Accepted? || env.publish.NotPublished? then []
    else
      match e.kind
      case MissionVerified => [Event(AuditPass, e.mission)]
      case MissionFailed => [Event(AuditFail, e.mission)]
      case _ => []
  }

  /** No exception: a readable entry of some mission whose audit, if one is due, was refused, or
      accepted and announced. */
  predicate GoesThrough(e: Entry, env: Env) {
    && e.Event? && e.mission != ""
    && (e.kind.MissionVerified? || e.kind.MissionFailed? ==>
          env.post.Refused? || (env.post.Accepted? && env.publish.Published?))
  }

  /** An exception the first except clause names: the entry cannot be read, has no mission, or the
      post or the publication of its audit raised one. A payload that is no object raises another. */
  predicate IsDiscarded(e: Entry, env: Env) {
    || e.Missing? || e.BadEnvelope? || e.BadPayload?
    || (e.Event? && e.mission == "")
    || (e.Event? && e.mission != "" && (e.kind.MissionVerified? || e.kind.MissionFailed?)
        && (env.post == PostRaises(true) || (env.post.Accepted? && env.publish == NotPublished(true))))
  }

  /** Every handling is described by the entry and the answers: what it announces, and which of the
      three ways it ends. */
  lemma HandledExactlyAs(e: Entry, env: Env)
    ensures (if Handle(e, env).published.Some? then [Handle(e, env).published.value] else []) == Announced(e, env)
    ensures Handle(e, env).grade.Processed? <==> GoesThrough(e, env)
    ensures Handle(e, env).grade.Malformed? <==> IsDiscarded(e, env)
  {
  }

  /** What the worker publishes never makes it publish again. */
  lemma OwnEntriesAreQuiet(e: Entry, env: Env, again: Env)
    requires Handle(e, env).published.Some?
    ensures Trigger(e)
    ensures var own := Handle(e, env).published.value;
            !Trigger(own) && Handle(own, again) == Handling(Processed, None)
  {
  }

  /** The broker and one worker's counters. */
  datatype View = View(stream: seq<Entry>, pending: set<nat>, dlq: seq<nat>, processed: nat, errors: nat, alive: bool)

  predicate Acknowledges(c: Grade) { !c.Transient? }

  function AfterHandling(v: View, i: nat, env: Env): View
    requires i < |v.stream|
  {
    var h := Handle(v.stream[i], env);
    v.(stream := if h.published.Some? then v.stream + [h.published.value] else v.stream,
       dlq := if h.grade.Malformed? && env.dlqWrites then v.dlq + [i] else v.dlq,
       processed := v.processed + (if h.grade.Processed? then 1 else 0),
       errors := v.errors + (if h.grade.Processed? then 0 else 1))
  }

  /** An acknowledgement that raises ends the loop. */
  function AfterAck(v: View, i: nat, env: Env): View {
    if env.acks then v.(pending := v.pending - {i}) else v.(alive := false)
  }

  function AfterEntry(v: View, i: nat, env: Env): View
    requires i < |v.stream|
  {
    var w := AfterHandling(v, i, env);
    if Acknowledges(Handle(v.stream[i], env).grade) then AfterAck(w, i, env) else w
  }

  /** One entry, said of it and of the answers: what is announced, counted, dead-lettered and
      acknowledged. */
  predicate EndsAs(v: View, w: View, e: Entry, i: nat, env: Env) {
    && w.stream == v.stream + Announced(e, env)
    && w.processed == v.processed + (if GoesThrough(e, env) then 1 else 0)
    && w.errors == v.errors + (if GoesThrough(e, env) then 0 else 1)
    && w.dlq == v.dlq + (if IsDiscarded(e, env) && env.dlqWrites then [i] else [])
    && w.pending == v.pending - (if (GoesThrough(e, env) || IsDiscarded(e, env)) && env.acks then {i} else {})
    && w.alive == (v.alive && (GoesThrough(e, env) || IsDiscarded(e, env) ==> env.acks))
  }

  lemma EntryEndsAs(v: View, i: nat, env: Env)
    requires i < |v.stream|
    ensures EndsAs(v, AfterEntry(v, i, env), v.stream[i], i, env)
  {
    HandledExactlyAs(v.stream[i], env);
  }

  function AfterEntries(v: View, batch: seq<nat>, envs: seq<Env>): View
    requires |envs| == |batch| && forall k :: 0 <= k < |batch| ==> batch[k] < |v.stream|
    decreases |batch|
  {
    if batch == [] || !v.alive then v else AfterEntries(AfterEntry(v, batch[0], envs[0]), batch[1..], envs[1..])
  }

  class Broker {
    var stream: seq<Entry>
    var pending: set<nat>
    var dlq: seq<nat>
  }

  class Worker {
    const broker: Broker
    var processed: nat
    var errors: nat
    var alive: bool

    constructor (broker: Broker)
      ensures this.broker == broker && processed == 0 && errors == 0 && alive
    {
      this.broker := broker;
      processed, errors, alive := 0, 0, true;
    }

    function Now(): View
      reads this, broker
    {
      View(broker.stream, broker.pending, broker.dlq, processed, errors, alive)
    }

    /** `_publish_event`: the outcome decides whether the entry reaches the stream and
        whether an exception follows. */
    method PublishEvent(kind: Kind, mission: string, outcome: Publish) returns (raised: Option<Grade>)
      modifies broker
      ensures Now() == old(Now()).(stream :=
        if outcome.NotPublished? then old(broker.stream) else old(broker.stream) + [Event(kind, mission)])
      ensures raised == match outcome
                        case Published => None
                        case PublishedThenRaised => Some(Transient)
                        case NotPublished(permanent) => Some(Raised(permanent))
    {
      match outcome
      case Published =>
        broker.stream := broker.stream + [Event(kind, mission)];
        raised := None;
      case PublishedThenRaised =>
        broker.stream := broker.stream + [Event(kind, mission)];
        raised := Some(Transient);
      case NotPublished(permanent) =>
        raised := Some(Raised(permanent));
    }

    /** Lines 283 to 329: the try block; what it raises decides between the except clauses. */
    method ReadAndAudit(e: Entry, env: Env) returns (raised: Option<Grade>)
      modifies broker
      ensures var h := Handle(e, env);
              && Now() == old(Now()).(stream :=
                   if h.published.Some? then old(broker.stream) + [h.published.value] else old(broker.stream))
              && raised == if h.grade.Processed? then None else Some(h.grade)
    {
      raised := None;
      if e.Missing? || e.BadEnvelope? || e.BadPayload? {
        raised := Some(Malformed);
      } else if e.NotObject? {
        raised := Some(Transient);
      } else if e.mission == "" {
        raised := Some(Malformed);
      } else if e.kind.MissionVerified? || e.kind.MissionFailed? {
        if env.post.PostRaises? {
          raised := Some(Raised(env.post.permanent));
        } else if env.post.Accepted? {
          raised := PublishEvent(if e.kind.MissionVerified? then AuditPass else AuditFail, e.mission, env.publish);
        }
      }
    }

    /** Lines 279 to 356: one entry, from reading its fields to the finally block. */
    method HandleEntry(i: nat, env: Env)
      requires alive && i < |broker.stream|
      modifies this, broker
      ensures Now() == AfterEntry(old(Now()), i, env)
      ensures EndsAs(old(Now()), Now(), old(broker.stream[i]), i, env)
    {
      EntryEndsAs(Now(), i, env);
      var acknowledge := false;
      var raised := ReadAndAudit(broker.stream[i], env);
      if raised.None? {
        processed := processed + 1;
        acknowledge := true;
      } else if raised.value.Malformed? {
        errors := errors + 1;
        if env.dlqWrites { broker.dlq := broker.dlq + [i]; }
        acknowledge := true;
      } else {
        errors := errors + 1;
      }
      if acknowledge {
        if env.acks { broker.pending := broker.pending - {i}; } else { alive := false; }
      }
    }

    /** Lines 277 to 278: the entries one read delivered, in order, until an acknowledgement fails. */
    method HandleBatch(batch: seq<nat>, envs: seq<Env>)
      requires |envs| == |batch| && forall k :: 0 <= k < |batch| ==> batch[k] < |broker.stream|
      modifies this, broker
      ensures Now() == AfterEntries(old(Now()), batch, envs)
    {
      var k := 0;
      while k < |batch| && alive
        invariant 0 <= k <= |batch| && |old(broker.stream)| <= |broker.stream|
        invariant AfterEntries(old(Now()), batch, envs) == AfterEntries(Now(), batch[k..], envs[k..])
      {
        HandleEntry(batch[k], envs[k]);
        assert batch[k..][1..] == batch[k + 1..] && envs[k..][1..] == envs[k + 1..];
        k := k + 1;
      }
    }
  }
}
