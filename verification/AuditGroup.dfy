// Several audit workers in one consumer group, publishing into the stream they read.
module AuditGroup {
  import opened Prelude
  import opened AuditWorker

  type Consumer = nat

  /** Where an entry stands. `Settled` entries were handled; `Abandoned` ones were delivered
      to a consumer that stopped before handling them. */
  datatype Mark =
    | Fresh
    | Waiting(c: Consumer)
    | Acking(c: Consumer, grade: Grade)
    | Settled(c: Consumer, grade: Grade, acked: bool)
    | Abandoned(c: Consumer)

  /** `pending` is the group's list of delivered, unacknowledged entries; `lost` the malformed
      ones whose dead-letter write failed. `origins` says of each stream entry whose handling
      published it, if any; the last three count what entered the stream. */
  datatype Group = Group(
    stream: seq<Entry>, origins: seq<Option<nat>>, marks: seq<Mark>, delivered: nat, pending: set<nat>,
    dlq: seq<nat>, lost: set<nat>, processed: map<Consumer, nat>, errors: map<Consumer, nat>,
    stopped: set<Consumer>, external: nat, triggers: nat, published: nat)

  datatype Action =
    | Add(e: Entry)
    | Read(c: Consumer, n: nat)
    | HandleNext(c: Consumer, i: nat, env: Env)
    | Ack(c: Consumer, i: nat, ok: bool)
    | Stop(c: Consumer)

  const READ_COUNT: nat := 20

  function Lookup(m: map<Consumer, nat>, c: Consumer): nat { if c in m then m[c] else 0 }

  predicate BusyMark(m: Mark, c: Consumer) { (m.Waiting? || m.Acking?) && m.c == c }

  predicate Enabled(g: Group, a: Action) {
    match a
    case Add(e) => true
    case Read(c, n) =>
      && c !in g.stopped && 1 <= n <= READ_COUNT && g.delivered + n <= |g.stream|
      && forall i :: 0 <= i < |g.marks| ==> !BusyMark(g.marks[i], c)
    case HandleNext(c, i, env) =>
      && c !in g.stopped && i < |g.marks| && g.marks[i] == Waiting(c)
      && forall j :: 0 <= j < |g.marks| ==> !(g.marks[j].Acking? && g.marks[j].c == c) && (j < i ==> g.marks[j] != Waiting(c))
    case Ack(c, i, ok) => c !in g.stopped && i < |g.marks| && g.marks[i].Acking? && g.marks[i].c == c
    case Stop(c) => c !in g.stopped
  }

  // ----- Steps ------------------------------------------------------------------

  function DoAdd(g: Group, e: Entry): Group {
    g.(stream := g.stream + [e], origins := g.origins + [None], marks := g.marks + [Fresh], external := g.external + 1,
       triggers := g.triggers + (if Trigger(e) then 1 else 0))
  }

  /** Marks from `from` on as waiting for `c`. */
  function Deliver(marks: seq<Mark>, from: nat, n: nat, c: Consumer): (r: seq<Mark>)
    requires from + n <= |marks|
    ensures |r| == |marks|
    ensures forall i :: 0 <= i < |marks| ==> r[i] == if from <= i < from + n then Waiting(c) else marks[i]
    decreases n
  {
    if n == 0 then marks else Deliver(marks[from := Waiting(c)], from + 1, n - 1, c)
  }

  function DoRead(g: Group, c: Consumer, n: nat): Group
    requires g.delivered + n <= |g.marks|
  {
    g.(marks := Deliver(g.marks, g.delivered, n, c), delivered := g.delivered + n,
       pending := g.pending + Range(g.delivered, n))
  }

  function Range(from: nat, n: nat): (r: set<nat>)
    ensures forall i :: i in r <==> from <= i < from + n
  {
    if n == 0 then {} else Range(from, n - 1) + {from + n - 1}
  }

  function DoHandle(g: Group, c: Consumer, i: nat, env: Env): Group
    requires i < |g.stream| == |g.marks|
  {
    var h := Handle(g.stream[i], env);
    var mark := if Acknowledges(h.grade) then Acking(c, h.grade) else Settled(c, h.grade, false);
    var own := if h.published.Some? then [h.published.value] else [];
    g.(stream := g.stream + own,
       origins := g.origins + (if h.published.Some? then [Some(i)] else []),
       marks := g.marks[i := mark] + (if h.published.Some? then [Fresh] else []),
       published := g.published + |own|,
       dlq := if h.grade.Malformed? && env.dlqWrites then g.dlq + [i] else g.dlq,
       lost := if h.grade.Malformed? && !env.dlqWrites then g.lost + {i} else g.lost,
       processed := if h.grade.Processed? then g.processed[c := Lookup(g.processed, c) + 1] else g.processed,
       errors := if h.grade.Processed? then g.errors else g.errors[c := Lookup(g.errors, c) + 1])
  }

  /** An exception from the acknowledgement ends the consumer's loop. */
  function DoAck(g: Group, c: Consumer, i: nat, ok: bool): Group
    requires i < |g.marks| && g.marks[i].Acking?
  {
    var t := g.(marks := g.marks[i := Settled(c, g.marks[i].grade, ok)]);
    if ok then t.(pending := g.pending - {i}) else DoStop(t, c)
  }

  function StopMark(m: Mark, c: Consumer): Mark {
    if m == Waiting(c) then Abandoned(c)
    else if m.Acking? && m.c == c then Settled(c, m.grade, false)
    else m
  }

  function DoStop(g: Group, c: Consumer): Group {
    g.(stopped := g.stopped + {c}, marks := seq(|g.marks|, i requires 0 <= i < |g.marks| => StopMark(g.marks[i], c)))
  }

  function Apply(g: Group, a: Action): Group
    requires |g.stream| == |g.marks| && Enabled(g, a)
  {
    match a
    case Add(e) => DoAdd(g, e)
    case Read(c, n) => DoRead(g, c, n)
    case HandleNext(c, i, env) => DoHandle(g, c, i, env)
    case Ack(c, i, ok) => DoAck(g, c, i, ok)
    case Stop(c) => DoStop(g, c)
  }

  /** Handling an entry and acknowledging it do to the group what the worker's method does
      to the broker and its own counters. */
  lemma HandlingIsTheWorkers(g: Group, c: Consumer, i: nat, env: Env, alive: bool)
    requires |g.stream| == |g.marks| && Enabled(g, HandleNext(c, i, env))
    ensures var v := View(g.stream, g.pending, g.dlq, Lookup(g.processed, c), Lookup(g.errors, c), alive);
            var t := DoHandle(g, c, i, env);
            AfterHandling(v, i, env) == View(t.stream, t.pending, t.dlq, Lookup(t.processed, c), Lookup(t.errors, c), alive)
    ensures var t := DoHandle(g, c, i, env);
            Acknowledges(Handle(g.stream[i], env).grade) <==> t.marks[i].Acking?
  {
  }

  // ----- Sums over the stream -------------------------------------------------------

  function Sum(s: seq<nat>): nat { if s == [] then 0 else Sum(s[..|s| - 1]) + s[|s| - 1] }

  lemma {:induction false} SumUpdate(s: seq<nat>, i: nat, x: nat)
    requires i < |s|
    ensures Sum(s[i := x]) + s[i] == Sum(s) + x
  {
    var init := s[..|s| - 1];
    if i < |s| - 1 {
      SumUpdate(init, i, x);
      assert s[i := x][..|s| - 1] == init[i := x];
    } else {
      assert s[i := x][..|s| - 1] == init;
    }
  }

  lemma SumSnoc(s: seq<nat>, x: nat)
    ensures Sum(s + [x]) == Sum(s) + x
  {
    assert (s + [x])[..|s|] == s;
  }

  lemma {:induction false} SumLe(s: seq<nat>, t: seq<nat>)
    requires |s| == |t| && forall i :: 0 <= i < |s| ==> s[i] <= t[i]
    ensures Sum(s) <= Sum(t)
  {
    if s != [] { SumLe(s[..|s| - 1], t[..|t| - 1]); }
  }

  lemma {:induction false} SumBound(s: seq<nat>, b: nat)
    requires forall i :: 0 <= i < |s| ==> s[i] <= b
    ensures Sum(s) <= b * |s|
  {
    if s != [] { SumBound(s[..|s| - 1], b); }
  }

  function Bit(b: bool): nat { if b then 1 else 0 }

  /** The grade an entry was given, by which consumer. */
  predicate GradedBy(m: Mark, c: Consumer, ok: bool) {
    (m.Acking? || m.Settled?) && m.c == c && (m.grade.Processed? <==> ok)
  }

  predicate Handled(m: Mark) { m.Acking? || m.Settled? }

  function Grades(marks: seq<Mark>, c: Consumer, ok: bool): (s: seq<nat>)
    ensures |s| == |marks| && forall i :: 0 <= i < |marks| ==> s[i] == Bit(GradedBy(marks[i], c, ok))
  {
    seq(|marks|, i requires 0 <= i < |marks| => Bit(GradedBy(marks[i], c, ok)))
  }

  function TriggerBits(stream: seq<Entry>): (s: seq<nat>)
    ensures |s| == |stream| && forall i :: 0 <= i < |stream| ==> s[i] == Bit(Trigger(stream[i]))
  {
    seq(|stream|, i requires 0 <= i < |stream| => Bit(Trigger(stream[i])))
  }

  function HandledTriggerBits(stream: seq<Entry>, marks: seq<Mark>): (s: seq<nat>)
    requires |stream| == |marks|
    ensures |s| == |stream| && forall i :: 0 <= i < |stream| ==> s[i] == Bit(Trigger(stream[i]) && Handled(marks[i]))
  {
    seq(|stream|, i requires 0 <= i < |stream| => Bit(Trigger(stream[i]) && Handled(marks[i])))
  }

  // ----- The classes ------------------------------------------------------------------

  predicate InPending(m: Mark) { m.Waiting? || m.Acking? || m.Abandoned? || (m.Settled? && !m.acked) }

  /** What may stand at one place of the stream. */
  predicate MarkOk(m: Mark, undelivered: bool, pending: bool, stopped: set<Consumer>) {
    && (m.Fresh? <==> undelivered)
    && (pending <==> InPending(m))
    && match m
       case Fresh => true
       case Waiting(c) => c !in stopped
       case Acking(c, grade) => c !in stopped && !grade.Transient?
       case Settled(c, grade, acked) => if acked then !grade.Transient? else grade.Transient? || c in stopped
       case Abandoned(c) => c in stopped
  }

  ghost predicate Shape(g: Group) {
    && |g.stream| == |g.marks| && g.delivered <= |g.stream|
    && (forall i :: 0 <= i < |g.marks| ==> MarkOk(g.marks[i], i >= g.delivered, i in g.pending, g.stopped))
    && (forall i :: i in g.pending ==> i < |g.marks|)
  }

  ghost predicate Counters(g: Group) {
    forall c :: Lookup(g.processed, c) == Sum(Grades(g.marks, c, true)) && Lookup(g.errors, c) == Sum(Grades(g.marks, c, false))
  }

  predicate IsMalformed(m: Mark) { Handled(m) && m.grade.Malformed? }

  ghost predicate DeadLetters(g: Group) {
    && (forall k :: 0 <= k < |g.dlq| ==> g.dlq[k] < |g.marks| && IsMalformed(g.marks[g.dlq[k]]))
    && (forall j, k :: 0 <= j < k < |g.dlq| ==> g.dlq[j] != g.dlq[k])
    && (forall i :: i in g.lost ==> i < |g.marks| && IsMalformed(g.marks[i]) && i !in g.dlq)
    && (forall i :: 0 <= i < |g.marks| && IsMalformed(g.marks[i]) ==> i in g.dlq || i in g.lost)
  }

  ghost predicate Traffic(g: Group) {
    && |g.stream| == |g.marks|
    && |g.stream| == g.external + g.published
    && Sum(TriggerBits(g.stream)) == g.triggers
    && g.published <= Sum(HandledTriggerBits(g.stream, g.marks))
  }

  lemma ShapeStop(g: Group, c: Consumer)
    requires Shape(g)
    ensures Shape(DoStop(g, c))
  {
    var t := DoStop(g, c);
    forall i | 0 <= i < |t.marks| ensures MarkOk(t.marks[i], i >= t.delivered, i in t.pending, t.stopped) {
      assert MarkOk(g.marks[i], i >= g.delivered, i in g.pending, g.stopped);
    }
  }

  lemma ShapeHandle(g: Group, c: Consumer, i: nat, env: Env)
    requires Shape(g) && Enabled(g, HandleNext(c, i, env))
    ensures Shape(DoHandle(g, c, i, env))
  {
    var t := DoHandle(g, c, i, env);
    assert MarkOk(g.marks[i], i >= g.delivered, i in g.pending, g.stopped);
    forall j | 0 <= j < |t.marks| ensures MarkOk(t.marks[j], j >= t.delivered, j in t.pending, t.stopped) {
      if j < |g.marks| { assert MarkOk(g.marks[j], j >= g.delivered, j in g.pending, g.stopped); }
    }
  }

  lemma ShapeAck(g: Group, c: Consumer, i: nat)
    requires Shape(g) && Enabled(g, Ack(c, i, true))
    ensures Shape(DoAck(g, c, i, true))
  {
    var t := DoAck(g, c, i, true);
    forall j | 0 <= j < |t.marks| ensures MarkOk(t.marks[j], j >= t.delivered, j in t.pending, t.stopped) {
      assert MarkOk(g.marks[j], j >= g.delivered, j in g.pending, g.stopped);
    }
  }

  lemma ShapeAckFails(g: Group, c: Consumer, i: nat)
    requires Shape(g) && Enabled(g, Ack(c, i, false))
    ensures DoAck(g, c, i, false) == DoStop(g, c)
  {
    assert DoAck(g, c, i, false).marks == DoStop(g, c).marks;
  }

  lemma ShapeRead(g: Group, c: Consumer, n: nat)
    requires Shape(g) && Enabled(g, Read(c, n))
    ensures Shape(DoRead(g, c, n))
  {
    var t := DoRead(g, c, n);
    forall j | 0 <= j < |t.marks| ensures MarkOk(t.marks[j], j >= t.delivered, j in t.pending, t.stopped) {
      assert MarkOk(g.marks[j], j >= g.delivered, j in g.pending, g.stopped);
    }
  }

  lemma ShapeAdd(g: Group, e: Entry)
    requires Shape(g)
    ensures Shape(DoAdd(g, e))
  {
    var t := DoAdd(g, e);
    forall j | 0 <= j < |t.marks| ensures MarkOk(t.marks[j], j >= t.delivered, j in t.pending, t.stopped) {
      if j < |g.marks| { assert MarkOk(g.marks[j], j >= g.delivered, j in g.pending, g.stopped); }
    }
  }

  lemma ShapeStep(g: Group, a: Action)
    requires Shape(g) && Enabled(g, a)
    ensures Shape(Apply(g, a))
  {
    match a
    case Add(e) => ShapeAdd(g, e);
    case Read(c, n) => ShapeRead(g, c, n);
    case HandleNext(c, i, env) => ShapeHandle(g, c, i, env);
    case Ack(c, i, ok) =>
      if ok { ShapeAck(g, c, i); } else { ShapeAckFails(g, c, i); ShapeStop(g, c); }
    case Stop(c) => ShapeStop(g, c);
  }

  // ----- Counters -----------------------------------------------------------------------

  /** A step that regrades nothing changes no sum. */
  lemma GradesKept(g: Group, t: Group, c: Consumer, ok: bool)
    requires |t.marks| == |g.marks|
    requires forall i :: 0 <= i < |g.marks| ==> (GradedBy(t.marks[i], c, ok) <==> GradedBy(g.marks[i], c, ok))
    ensures Grades(t.marks, c, ok) == Grades(g.marks, c, ok)
  {
  }

  lemma GradesSnoc(marks: seq<Mark>, c: Consumer, ok: bool)
    ensures Sum(Grades(marks + [Fresh], c, ok)) == Sum(Grades(marks, c, ok))
  {
    SumSnoc(Grades(marks, c, ok), 0);
    assert Grades(marks + [Fresh], c, ok) == Grades(marks, c, ok) + [0];
  }

  lemma GradesHandle(marks: seq<Mark>, i: nat, m: Mark, c: Consumer, ok: bool)
    requires i < |marks| && !Handled(marks[i])
    ensures Sum(Grades(marks[i := m], c, ok)) == Sum(Grades(marks, c, ok)) + Bit(GradedBy(m, c, ok))
  {
    SumUpdate(Grades(marks, c, ok), i, Bit(GradedBy(m, c, ok)));
    assert Grades(marks[i := m], c, ok) == Grades(marks, c, ok)[i := Bit(GradedBy(m, c, ok))];
  }

  /** The marks after handling: one is graded, and a published entry adds a fresh one. */
  lemma GradesAfter(g: Group, c: Consumer, i: nat, env: Env, d: Consumer, ok: bool)
    requires Shape(g) && Enabled(g, HandleNext(c, i, env))
    ensures var grade := Handle(g.stream[i], env).grade;
            Sum(Grades(DoHandle(g, c, i, env).marks, d, ok)) ==
            Sum(Grades(g.marks, d, ok)) + Bit(d == c && (ok <==> grade.Processed?))
  {
    var h := Handle(g.stream[i], env);
    var mark := if Acknowledges(h.grade) then Acking(c, h.grade) else Settled(c, h.grade, false);
    var mid := g.marks[i := mark];
    GradesHandle(g.marks, i, mark, d, ok);
    GradesSnoc(mid, d, ok);
    assert mid + [] == mid;
  }

  lemma CountersHandle(g: Group, c: Consumer, i: nat, env: Env)
    requires Shape(g) && Counters(g) && Enabled(g, HandleNext(c, i, env))
    ensures Counters(DoHandle(g, c, i, env))
  {
    var t := DoHandle(g, c, i, env);
    forall d ensures Lookup(t.processed, d) == Sum(Grades(t.marks, d, true))
             ensures Lookup(t.errors, d) == Sum(Grades(t.marks, d, false)) {
      GradesAfter(g, c, i, env, d, true);
      GradesAfter(g, c, i, env, d, false);
    }
  }

  lemma CountersOther(g: Group, a: Action)
    requires Shape(g) && Counters(g) && Enabled(g, a) && !a.HandleNext?
    ensures Counters(Apply(g, a))
  {
    var t := Apply(g, a);
    forall d ensures Lookup(t.processed, d) == Sum(Grades(t.marks, d, true))
             ensures Lookup(t.errors, d) == Sum(Grades(t.marks, d, false)) {
      if a.Add? {
        GradesSnoc(g.marks, d, true);
        GradesSnoc(g.marks, d, false);
      } else {
        Ungraded(g, a, d);
        GradesKept(g, t, d, true);
        GradesKept(g, t, d, false);
      }
    }
  }

  lemma Ungraded(g: Group, a: Action, d: Consumer)
    requires Shape(g) && Enabled(g, a) && !a.HandleNext? && !a.Add?
    ensures |Apply(g, a).marks| == |g.marks|
    ensures forall i, ok :: 0 <= i < |g.marks| ==> (GradedBy(Apply(g, a).marks[i], d, ok) <==> GradedBy(g.marks[i], d, ok))
  {
    if a.Ack? && !a.ok { ShapeAckFails(g, a.c, a.i); }
    forall i | 0 <= i < |g.marks|
      ensures forall ok :: GradedBy(Apply(g, a).marks[i], d, ok) <==> GradedBy(g.marks[i], d, ok)
    {
      assert MarkOk(g.marks[i], i >= g.delivered, i in g.pending, g.stopped);
    }
  }

  // ----- Dead letters ---------------------------------------------------------------------

  lemma MalformedKept(g: Group, a: Action, j: nat)
    requires Shape(g) && Enabled(g, a) && j < |g.marks| && !(a.HandleNext? && a.i == j)
    ensures j < |Apply(g, a).marks| && (IsMalformed(Apply(g, a).marks[j]) <==> IsMalformed(g.marks[j]))
  {
    assert MarkOk(g.marks[j], j >= g.delivered, j in g.pending, g.stopped);
    if a.Ack? && !a.ok { ShapeAckFails(g, a.c, a.i); }
  }

  lemma LettersHandle(g: Group, c: Consumer, i: nat, env: Env)
    requires Shape(g) && DeadLetters(g) && Enabled(g, HandleNext(c, i, env))
    ensures DeadLetters(DoHandle(g, c, i, env))
  {
    var t := DoHandle(g, c, i, env);
    assert !IsMalformed(g.marks[i]) && i !in g.dlq && i !in g.lost;
    forall j | 0 <= j < |t.marks| && IsMalformed(t.marks[j]) ensures j in t.dlq || j in t.lost {
      if j < |g.marks| && j != i { assert g.marks[j] == t.marks[j]; }
    }
  }

  lemma LettersStep(g: Group, a: Action)
    requires Shape(g) && DeadLetters(g) && Enabled(g, a)
    ensures DeadLetters(Apply(g, a))
  {
    if a.HandleNext? {
      LettersHandle(g, a.c, a.i, a.env);
    } else {
      var t := Apply(g, a);
      assert t.dlq == g.dlq && t.lost == g.lost && |g.marks| <= |t.marks|;
      forall j | 0 <= j < |g.marks| ensures IsMalformed(t.marks[j]) <==> IsMalformed(g.marks[j]) { MalformedKept(g, a, j); }
      forall j | 0 <= j < |t.marks| && IsMalformed(t.marks[j]) ensures j in t.dlq || j in t.lost {
        assert j < |g.marks|;
      }
    }
  }

  // ----- Traffic ----------------------------------------------------------------------------

  lemma BitsSnoc(stream: seq<Entry>, marks: seq<Mark>, e: Entry)
    requires |stream| == |marks|
    ensures Sum(TriggerBits(stream + [e])) == Sum(TriggerBits(stream)) + Bit(Trigger(e))
    ensures Sum(HandledTriggerBits(stream + [e], marks + [Fresh])) == Sum(HandledTriggerBits(stream, marks))
  {
    SumSnoc(TriggerBits(stream), Bit(Trigger(e)));
    assert TriggerBits(stream + [e]) == TriggerBits(stream) + [Bit(Trigger(e))];
    SumSnoc(HandledTriggerBits(stream, marks), 0);
    assert HandledTriggerBits(stream + [e], marks + [Fresh]) == HandledTriggerBits(stream, marks) + [0];
  }

  lemma BitsHandle(stream: seq<Entry>, marks: seq<Mark>, i: nat, m: Mark)
    requires |stream| == |marks| && i < |marks| && !Handled(marks[i]) && Handled(m)
    ensures Sum(HandledTriggerBits(stream, marks[i := m])) == Sum(HandledTriggerBits(stream, marks)) + Bit(Trigger(stream[i]))
  {
    SumUpdate(HandledTriggerBits(stream, marks), i, Bit(Trigger(stream[i])));
    assert HandledTriggerBits(stream, marks[i := m]) == HandledTriggerBits(stream, marks)[i := Bit(Trigger(stream[i]))];
  }

  lemma TrafficHandle(g: Group, c: Consumer, i: nat, env: Env)
    requires Shape(g) && Traffic(g) && Enabled(g, HandleNext(c, i, env))
    ensures Traffic(DoHandle(g, c, i, env))
  {
    var h := Handle(g.stream[i], env);
    var mark := if Acknowledges(h.grade) then Acking(c, h.grade) else Settled(c, h.grade, false);
    BitsHandle(g.stream, g.marks, i, mark);
    if h.published.Some? {
      OwnEntriesAreQuiet(g.stream[i], env, env);
      BitsSnoc(g.stream, g.marks[i := mark], h.published.value);
    } else {
      assert g.stream + [] == g.stream && g.marks[i := mark] + [] == g.marks[i := mark];
    }
  }

  lemma TrafficStep(g: Group, a: Action)
    requires Shape(g) && Traffic(g) && Enabled(g, a)
    ensures Traffic(Apply(g, a))
  {
    match a
    case Add(e) => BitsSnoc(g.stream, g.marks, e);
    case HandleNext(c, i, env) => TrafficHandle(g, c, i, env);
    case _ =>
      var t := Apply(g, a);
      StreamKept(g, a);
      SumLe(HandledTriggerBits(g.stream, g.marks), HandledTriggerBits(t.stream, t.marks));
  }

  lemma StreamKept(g: Group, a: Action)
    requires Shape(g) && Enabled(g, a) && !a.Add? && !a.HandleNext?
    ensures var t := Apply(g, a);
            && t.stream == g.stream && |t.marks| == |g.marks|
            && t.external == g.external && t.triggers == g.triggers && t.published == g.published
            && forall i :: 0 <= i < |g.marks| && Handled(g.marks[i]) ==> Handled(t.marks[i])
  {
    if a.Ack? && !a.ok { ShapeAckFails(g, a.c, a.i); }
    forall i | 0 <= i < |g.marks| && Handled(g.marks[i]) ensures Handled(Apply(g, a).marks[i]) {
      assert MarkOk(g.marks[i], i >= g.delivered, i in g.pending, g.stopped);
    }
  }

  // ----- Whole runs -------------------------------------------------------------------------

  ghost predicate Inv(g: Group) { Shape(g) && Counters(g) && DeadLetters(g) && Traffic(g) }

  lemma InvStep(g: Group, a: Action)
    requires Inv(g) && Enabled(g, a)
    ensures Inv(Apply(g, a))
  {
    ShapeStep(g, a);
    LettersStep(g, a);
    TrafficStep(g, a);
    if a.HandleNext? { CountersHandle(g, a.c, a.i, a.env); } else { CountersOther(g, a); }
  }

  /** An empty stream and a new group. */
  ghost predicate Init(g: Group) { g == Group([], [], [], 0, {}, [], {}, map[], map[], {}, 0, 0, 0) }

  predicate ValidRun(g: Group, acts: seq<Action>)
    decreases |acts|
  {
    acts == [] || (|g.stream| == |g.marks| && Enabled(g, acts[0]) && ValidRun(Apply(g, acts[0]), acts[1..]))
  }

  function Run(g: Group, acts: seq<Action>): Group
    requires ValidRun(g, acts)
    decreases |acts|
  {
    if acts == [] then g else Run(Apply(g, acts[0]), acts[1..])
  }

  lemma {:induction false} InvRun(g: Group, acts: seq<Action>)
    requires Inv(g) && ValidRun(g, acts)
    ensures Inv(Run(g, acts))
    decreases |acts|
  {
    if acts != [] {
      InvStep(g, acts[0]);
      InvRun(Apply(g, acts[0]), acts[1..]);
    }
  }

  lemma InitInv(g: Group)
    requires Init(g)
    ensures Inv(g)
  {
  }

  /** The classes of a handled entry: acknowledged as processed, acknowledged as malformed,
      left pending as transient, or graded with its acknowledgement outstanding or failed. */
  ghost predicate Classified(g: Group, i: nat)
    requires i < |g.marks|
  {
    match g.marks[i]
    case Settled(_, grade, acked) => (i in g.pending <==> !acked) && (acked ==> !grade.Transient?)
                                     && (!acked && !grade.Transient? ==> g.marks[i].c in g.stopped)
    case Acking(_, grade) => i in g.pending && !grade.Transient?
    case _ => true
  }

  lemma Reachable(g0: Group, acts: seq<Action>)
    requires Init(g0) && ValidRun(g0, acts)
    ensures Inv(Run(g0, acts))
  {
    InitInv(g0);
    InvRun(g0, acts);
  }

  /** In a group that keeps the invariant, every entry is in its class. */
  ghost predicate AllClassified(g: Group) {
    && (forall i :: 0 <= i < |g.marks| ==> Classified(g, i) && (g.marks[i].Fresh? <==> i >= g.delivered))
    && Counters(g) && DeadLetters(g)
    && (g.lost == {} ==> forall i :: 0 <= i < |g.marks| ==> (IsMalformed(g.marks[i]) <==> i in g.dlq))
  }

  lemma InvClassifies(g: Group)
    requires Inv(g)
    ensures AllClassified(g)
  {
    forall i | 0 <= i < |g.marks| ensures Classified(g, i) && (g.marks[i].Fresh? <==> i >= g.delivered) {
      assert MarkOk(g.marks[i], i >= g.delivered, i in g.pending, g.stopped);
    }
  }

  /** In every reachable state of any number of consumers: every handled entry is in one
      class; each consumer's counters count its own processed entries and its other ones; the
      dead letters are malformed entries, each once, all of them but the failed writes. */
  lemma EveryStateClassified(g0: Group, acts: seq<Action>)
    requires Init(g0) && ValidRun(g0, acts)
    ensures AllClassified(Run(g0, acts))
  {
    Reachable(g0, acts);
    InvClassifies(Run(g0, acts));
  }

  lemma StaysWith(g: Group, a: Action, i: nat)
    requires Shape(g) && Enabled(g, a) && i < |g.marks| && !g.marks[i].Fresh?
    ensures var t := Apply(g, a);
            && i < |t.marks| && !t.marks[i].Fresh? && t.marks[i].c == g.marks[i].c
            && (Handled(g.marks[i]) ==> Handled(t.marks[i]) && t.marks[i].grade == g.marks[i].grade)
            && (!g.marks[i].Waiting? ==> !t.marks[i].Waiting?)
  {
    assert MarkOk(g.marks[i], i >= g.delivered, i in g.pending, g.stopped);
    if a.Ack? && !a.ok { ShapeAckFails(g, a.c, a.i); }
  }

  /** An entry once delivered is never delivered again: it stays with its consumer, and its
      grade, once given, is final. */
  lemma {:induction false} DeliveredOnce(g: Group, acts: seq<Action>, i: nat)
    requires Inv(g) && ValidRun(g, acts) && i < |g.marks| && !g.marks[i].Fresh?
    ensures var t := Run(g, acts);
            && i < |t.marks| && !t.marks[i].Fresh? && t.marks[i].c == g.marks[i].c
            && (Handled(g.marks[i]) ==> Handled(t.marks[i]) && t.marks[i].grade == g.marks[i].grade)
            && (!g.marks[i].Waiting? ==> !t.marks[i].Waiting?)
    decreases |acts|
  {
    if acts != [] {
      InvStep(g, acts[0]);
      StaysWith(g, acts[0], i);
      DeliveredOnce(Apply(g, acts[0]), acts[1..], i);
    }
  }

  function Adds(acts: seq<Action>): nat {
    if acts == [] then 0 else (if acts[0].Add? then 1 else 0) + Adds(acts[1..])
  }

  function TriggerAdds(acts: seq<Action>): nat {
    if acts == [] then 0 else (if acts[0].Add? && Trigger(acts[0].e) then 1 else 0) + TriggerAdds(acts[1..])
  }

  lemma {:induction false} ExternalCounts(g: Group, acts: seq<Action>)
    requires Inv(g) && ValidRun(g, acts)
    ensures Run(g, acts).external == g.external + Adds(acts)
    ensures Run(g, acts).triggers == g.triggers + TriggerAdds(acts)
    decreases |acts|
  {
    if acts != [] {
      InvStep(g, acts[0]);
      ExternalKept(g, acts[0]);
      ExternalCounts(Apply(g, acts[0]), acts[1..]);
    }
  }

  lemma ExternalKept(g: Group, a: Action)
    requires Shape(g) && Enabled(g, a)
    ensures Apply(g, a).external == g.external + (if a.Add? then 1 else 0)
    ensures Apply(g, a).triggers == g.triggers + (if a.Add? && Trigger(a.e) then 1 else 0)
  {
  }

  lemma InvBounds(g: Group)
    requires Inv(g)
    ensures |g.stream| <= g.external + g.triggers
  {
    SumLe(HandledTriggerBits(g.stream, g.marks), TriggerBits(g.stream));
  }

  lemma CountsFromStart(g0: Group, acts: seq<Action>)
    requires Init(g0) && ValidRun(g0, acts)
    ensures Run(g0, acts).external == Adds(acts) && Run(g0, acts).triggers == TriggerAdds(acts)
  {
    InitInv(g0);
    ExternalCounts(g0, acts);
  }

  /** N external entries, k of which announce a verified or failed mission, lead to at most
      N + k stream entries, although the workers publish into the stream they read. */
  lemma StreamBound(g0: Group, acts: seq<Action>)
    requires Init(g0) && ValidRun(g0, acts)
    ensures |Run(g0, acts).stream| <= Adds(acts) + TriggerAdds(acts)
  {
    Reachable(g0, acts);
    CountsFromStart(g0, acts);
    InvBounds(Run(g0, acts));
  }

  // ----- What the audit entries mean ---------------------------------------------------------

  /** The worker's entry at `k` answers the one at `i`: a handled result of the same mission, before
      it, and the verdict is the one for that result. */
  ghost predicate Answers(g: Group, k: nat, i: nat)
    requires k < |g.stream| == |g.marks|
  {
    && i < k && Handled(g.marks[i])
    && g.stream[i].Event? && g.stream[i].mission != "" && g.stream[k].Event?
    && g.stream[k].mission == g.stream[i].mission
    && (|| (g.stream[i].kind.MissionVerified? && g.stream[k].kind.AuditPass?)
        || (g.stream[i].kind.MissionFailed? && g.stream[k].kind.AuditFail?))
  }

  /** The entry at `k` answers another if a worker published it. */
  ghost predicate HonestAt(g: Group, k: nat)
    requires k < |g.origins| == |g.stream| == |g.marks|
  {
    g.origins[k].Some? ==> Answers(g, k, g.origins[k].value)
  }

  /** Every entry a worker published answers another, and no two answer the same one. */
  ghost predicate Truthful(g: Group) {
    && |g.origins| == |g.stream| == |g.marks|
    && (forall k :: 0 <= k < |g.stream| ==> HonestAt(g, k))
    && (forall j, k :: 0 <= j < k < |g.stream| && g.origins[j].Some? ==> g.origins[j] != g.origins[k])
  }

  lemma AnswersStay(g: Group, t: Group, k: nat, i: nat)
    requires k < |g.stream| == |g.marks| && |t.stream| == |t.marks| && Answers(g, k, i)
    requires g.stream <= t.stream && |g.marks| <= |t.marks|
    requires Handled(g.marks[i]) ==> Handled(t.marks[i])
    ensures Answers(t, k, i)
  {
  }

  lemma TruthfulHandle(g: Group, c: Consumer, i: nat, env: Env)
    requires Shape(g) && Truthful(g) && Enabled(g, HandleNext(c, i, env))
    ensures Truthful(DoHandle(g, c, i, env))
  {
    var t := DoHandle(g, c, i, env);
    HandledExactlyAs(g.stream[i], env);
    forall k | 0 <= k < |t.stream| ensures HonestAt(t, k) {
      if k < |g.stream| {
        assert HonestAt(g, k);
        if g.origins[k].Some? { AnswersStay(g, t, k, g.origins[k].value); }
      }
    }
    forall j, k | 0 <= j < k < |t.stream| && t.origins[j].Some? ensures t.origins[j] != t.origins[k] {
      assert HonestAt(g, j);
    }
  }

  lemma TruthfulStep(g: Group, a: Action)
    requires Shape(g) && Truthful(g) && Enabled(g, a)
    ensures Truthful(Apply(g, a))
  {
    if a.HandleNext? {
      TruthfulHandle(g, a.c, a.i, a.env);
    } else {
      var t := Apply(g, a);
      if !a.Add? { StreamKept(g, a); }
      forall k | 0 <= k < |t.stream| ensures HonestAt(t, k) {
        if k < |g.stream| {
          assert HonestAt(g, k);
          if g.origins[k].Some? { AnswersStay(g, t, k, g.origins[k].value); }
        }
      }
    }
  }

  lemma {:induction false} TruthfulRun(g: Group, acts: seq<Action>)
    requires Inv(g) && Truthful(g) && ValidRun(g, acts)
    ensures Truthful(Run(g, acts))
    decreases |acts|
  {
    if acts != [] {
      InvStep(g, acts[0]);
      TruthfulStep(g, acts[0]);
      TruthfulRun(Apply(g, acts[0]), acts[1..]);
    }
  }

  lemma EmptyIsTruthful(g: Group)
    requires |g.stream| == |g.marks| == |g.origins| == 0
    ensures Truthful(g)
  {
  }

  /** In every reachable state, each audit a worker announced follows a handled result of the same
      mission, AUDIT_PASS a verified one and AUDIT_FAIL a failed one, and no result is announced twice. */
  lemma AuditsAreTruthful(g0: Group, acts: seq<Action>)
    requires Init(g0) && ValidRun(g0, acts)
    ensures Truthful(Run(g0, acts))
  {
    EmptyIsTruthful(g0);
    InitInv(g0);
    TruthfulRun(g0, acts);
  }

  // ----- Draining -----------------------------------------------------------------------------

  /** Steps an entry can still cause: being delivered, handled and acknowledged, and the same
      for the entry its handling may publish. */
  function Weight(e: Entry, m: Mark): nat {
    match m
    case Fresh => 3 + 3 * Bit(Trigger(e))
    case Waiting(_) => 2 + 3 * Bit(Trigger(e))
    case Acking(_, _) => 1
    case _ => 0
  }

  function Weights(stream: seq<Entry>, marks: seq<Mark>): (s: seq<nat>)
    requires |stream| == |marks|
    ensures |s| == |marks| && forall i :: 0 <= i < |marks| ==> s[i] == Weight(stream[i], marks[i])
  {
    seq(|marks|, i requires 0 <= i < |marks| => Weight(stream[i], marks[i]))
  }

  function Measure(g: Group): nat
    requires |g.stream| == |g.marks|
  {
    Sum(Weights(g.stream, g.marks))
  }

  predicate Progress(a: Action) { a.Read? || a.HandleNext? || a.Ack? }

  lemma SumLess(s: seq<nat>, t: seq<nat>, k: nat)
    requires |s| == |t| && k < |s| && s[k] < t[k]
    requires forall i :: 0 <= i < |s| ==> s[i] <= t[i]
    ensures Sum(s) < Sum(t)
  {
    SumLe(s[k := t[k]], t);
    SumUpdate(s, k, t[k]);
  }

  lemma WeightsUpdate(stream: seq<Entry>, marks: seq<Mark>, i: nat, mark: Mark)
    requires |stream| == |marks| && i < |marks|
    ensures Sum(Weights(stream, marks[i := mark])) + Weight(stream[i], marks[i]) ==
            Sum(Weights(stream, marks)) + Weight(stream[i], mark)
  {
    var w := Weights(stream, marks);
    SumUpdate(w, i, Weight(stream[i], mark));
    assert Weights(stream, marks[i := mark]) == w[i := Weight(stream[i], mark)];
  }

  lemma WeightsSnoc(stream: seq<Entry>, marks: seq<Mark>, e: Entry)
    requires |stream| == |marks|
    ensures Sum(Weights(stream + [e], marks + [Fresh])) == Sum(Weights(stream, marks)) + Weight(e, Fresh)
  {
    SumSnoc(Weights(stream, marks), Weight(e, Fresh));
    assert Weights(stream + [e], marks + [Fresh]) == Weights(stream, marks) + [Weight(e, Fresh)];
  }

  lemma MeasureHandle(g: Group, c: Consumer, i: nat, env: Env)
    requires Shape(g) && Enabled(g, HandleNext(c, i, env))
    ensures |DoHandle(g, c, i, env).stream| == |DoHandle(g, c, i, env).marks|
    ensures Measure(DoHandle(g, c, i, env)) < Measure(g)
  {
    var h := Handle(g.stream[i], env);
    var mark := if Acknowledges(h.grade) then Acking(c, h.grade) else Settled(c, h.grade, false);
    WeightsUpdate(g.stream, g.marks, i, mark);
    if h.published.Some? {
      OwnEntriesAreQuiet(g.stream[i], env, env);
      WeightsSnoc(g.stream, g.marks[i := mark], h.published.value);
    } else {
      assert g.stream + [] == g.stream && g.marks[i := mark] + [] == g.marks[i := mark];
    }
  }

  lemma MeasureStep(g: Group, a: Action)
    requires Shape(g) && Enabled(g, a) && !a.Add?
    ensures |Apply(g, a).stream| == |Apply(g, a).marks|
    ensures Measure(Apply(g, a)) + (if Progress(a) then 1 else 0) <= Measure(g)
  {
    if a.HandleNext? {
      MeasureHandle(g, a.c, a.i, a.env);
    } else {
      var t := Apply(g, a);
      StreamKept(g, a);
      Lighter(g, a);
      if a.Stop? {
        SumLe(Weights(t.stream, t.marks), Weights(g.stream, g.marks));
      } else {
        SumLess(Weights(t.stream, t.marks), Weights(g.stream, g.marks), if a.Ack? then a.i else g.delivered);
      }
    }
  }

  lemma Lighter(g: Group, a: Action)
    requires Shape(g) && Enabled(g, a) && !a.Add? && !a.HandleNext?
    ensures var t := Apply(g, a);
            |t.marks| == |g.marks| && forall i :: 0 <= i < |g.marks| ==> Weight(g.stream[i], t.marks[i]) <= Weight(g.stream[i], g.marks[i])
    ensures a.Read? ==> Weight(g.stream[g.delivered], Apply(g, a).marks[g.delivered]) < Weight(g.stream[g.delivered], g.marks[g.delivered])
    ensures a.Ack? ==> Weight(g.stream[a.i], Apply(g, a).marks[a.i]) < Weight(g.stream[a.i], g.marks[a.i])
  {
    if a.Ack? && !a.ok { ShapeAckFails(g, a.c, a.i); }
    forall i | 0 <= i < |g.marks| ensures Weight(g.stream[i], Apply(g, a).marks[i]) <= Weight(g.stream[i], g.marks[i]) {
      assert MarkOk(g.marks[i], i >= g.delivered, i in g.pending, g.stopped);
    }
    if a.Read? { assert MarkOk(g.marks[g.delivered], true, g.delivered in g.pending, g.stopped); }
  }

  function Steps(acts: seq<Action>): nat {
    if acts == [] then 0 else (if Progress(acts[0]) then 1 else 0) + Steps(acts[1..])
  }

  /** Once the outside world stops adding entries, the reads, handlings and acknowledgements
      still to come are bounded by the measure, itself at most three for each entry and three
      more for each that announces a mission's end. */
  lemma {:induction false} Drains(g: Group, acts: seq<Action>)
    requires Inv(g) && ValidRun(g, acts) && Adds(acts) == 0
    ensures Inv(Run(g, acts)) && Steps(acts) + Measure(Run(g, acts)) <= Measure(g)
    decreases |acts|
  {
    if acts != [] {
      InvStep(g, acts[0]);
      MeasureStep(g, acts[0]);
      Drains(Apply(g, acts[0]), acts[1..]);
    }
  }

  lemma {:induction false} WeightSum(stream: seq<Entry>, marks: seq<Mark>)
    requires |stream| == |marks|
    ensures Sum(Weights(stream, marks)) <= 3 * |stream| + 3 * Sum(TriggerBits(stream))
  {
    if stream != [] {
      var n := |stream| - 1;
      WeightSum(stream[..n], marks[..n]);
      assert Weights(stream, marks)[..n] == Weights(stream[..n], marks[..n]);
      assert TriggerBits(stream)[..n] == TriggerBits(stream[..n]);
    }
  }

  lemma MeasureBound(g: Group)
    requires Inv(g)
    ensures Measure(g) <= 3 * |g.stream| + 3 * g.triggers
  {
    WeightSum(g.stream, g.marks);
  }

  /** A live group never gets stuck before it is done: when no consumer can take a step,
      every entry has been delivered, and handled unless its consumer stopped. */
  lemma StuckMeansDone(g: Group, live: Consumer, env: Env)
    requires Inv(g) && live !in g.stopped
    requires forall a :: Enabled(g, a) ==> !Progress(a)
    ensures g.delivered == |g.stream|
    ensures forall i :: 0 <= i < |g.marks| ==> g.marks[i].Settled? || g.marks[i].Abandoned?
  {
    forall i | 0 <= i < |g.marks| ensures !g.marks[i].Acking? && !g.marks[i].Waiting? {
      assert MarkOk(g.marks[i], i >= g.delivered, i in g.pending, g.stopped);
      if g.marks[i].Acking? { assert Enabled(g, Ack(g.marks[i].c, i, true)); }
      if g.marks[i].Waiting? { NotStuckWaiting(g, g.marks[i].c, i, env); }
    }
    if g.delivered < |g.stream| { assert Enabled(g, Read(live, 1)); }
    forall i | 0 <= i < |g.marks| ensures g.marks[i].Settled? || g.marks[i].Abandoned? {
      assert MarkOk(g.marks[i], i >= g.delivered, i in g.pending, g.stopped);
    }
  }

  lemma NotStuckWaiting(g: Group, c: Consumer, i: nat, env: Env)
    requires Inv(g) && i < |g.marks| && g.marks[i] == Waiting(c)
    ensures exists a :: Enabled(g, a) && Progress(a)
    decreases i
  {
    assert MarkOk(g.marks[i], i >= g.delivered, i in g.pending, g.stopped);
    if j :| 0 <= j < |g.marks| && g.marks[j].Acking? && g.marks[j].c == c {
      assert Enabled(g, Ack(c, j, true)) && Progress(Ack(c, j, true));
    } else if j :| 0 <= j < i && g.marks[j] == Waiting(c) {
      NotStuckWaiting(g, c, j, env);
    } else {
      assert Enabled(g, HandleNext(c, i, env)) && Progress(HandleNext(c, i, env));
    }
  }
}
