// safe_context_json_redact: a walk over a heap of dictionaries and lists that may share
// nodes and contain cycles.
module ContextRedaction {
  import opened Prelude

  /** A Python value: text, a scalar (None, bool, int, float), a container by identity, or
      any other object with its `str`. */
  datatype Value = Text(s: string) | Scalar(n: int) | Ref(id: nat) | Other(str: string)

  /** A dictionary's keys are given by their `str`. */
  datatype Item = Item(key: string, value: Value)
  datatype Node = Dict(entries: seq<Item>) | List(items: seq<Value>)

  type Heap = map<nat, Node>

  /** The result; Cycle and TooDeep are the texts "[REDACTED-CYCLE]" and
      "[REDACTED-DEPTH-LIMIT]" where the walk itself put them. */
  datatype Out = OText(s: string) | OScalar(n: int) | Cycle | TooDeep
               | ODict(entries: seq<Entry>) | OList(items: seq<Out>)
  datatype Entry = Entry(key: string, value: Out)

  const MAX_DEPTH: nat := 12
  const FORBIDDEN: set<string> := {"prompt", "source_code", "chain_trace"}

  /** Containers only refer to containers of the heap. */
  ghost predicate Closed(h: Heap) {
    forall id :: id in h ==>
      && (h[id].Dict? ==> forall i :: 0 <= i < |h[id].entries| ==> Known(h, h[id].entries[i].value))
      && (h[id].List? ==> forall i :: 0 <= i < |h[id].items| ==> Known(h, h[id].items[i]))
  }

  predicate Known(h: Heap, v: Value) { v.Ref? ==> v.id in h }

  /** Assigning a dictionary key: an existing key keeps its place. */
  function Put(es: seq<Entry>, key: string, value: Out): seq<Entry> {
    if es == [] then [Entry(key, value)]
    else if es[0].key == key then [Entry(key, value)] + es[1..]
    else [es[0]] + Put(es[1..], key, value)
  }

  function Get(es: seq<Entry>, key: string): Option<Out> {
    if es == [] then None
    else if es[0].key == key then Some(es[0].value)
    else Get(es[1..], key)
  }

  // ----- The walk ---------------------------------------------------------------

  /** `redact` is the text redaction of redact_pii; `seen` the containers being walked. */
  function Walk(h: Heap, redact: string -> string, v: Value, depth: nat, seen: set<nat>): Out
    requires Closed(h) && Known(h, v) && depth <= MAX_DEPTH
    decreases MAX_DEPTH - depth, 0
  {
    if v.Text? then OText(redact(v.s))
    else if v.Scalar? then OScalar(v.n)
    else if depth == MAX_DEPTH then TooDeep
    else if v.Other? then OText(redact(v.str))
    else if v.id in seen then Cycle
    else
      match h[v.id]
      case Dict(entries) => ODict(WalkEntries(h, redact, entries, depth + 1, seen + {v.id}))
      case List(items) => OList(WalkItems(h, redact, items, depth + 1, seen + {v.id}))
  }

  function WalkEntries(h: Heap, redact: string -> string, entries: seq<Item>, depth: nat, seen: set<nat>): seq<Entry>
    requires Closed(h) && depth <= MAX_DEPTH
    requires forall i :: 0 <= i < |entries| ==> Known(h, entries[i].value)
    decreases MAX_DEPTH - depth, 1 + |entries|
  {
    if entries == [] then []
    else
      var init, last := entries[..|entries| - 1], entries[|entries| - 1];
      var es := WalkEntries(h, redact, init, depth, seen);
      if last.key in FORBIDDEN then es else Put(es, last.key, Walk(h, redact, last.value, depth, seen))
  }

  function WalkItems(h: Heap, redact: string -> string, items: seq<Value>, depth: nat, seen: set<nat>): (os: seq<Out>)
    requires Closed(h) && depth <= MAX_DEPTH
    requires forall i :: 0 <= i < |items| ==> Known(h, items[i])
    ensures |os| == |items|
    decreases MAX_DEPTH - depth, 1 + |items|
  {
    if items == [] then []
    else
      WalkItems(h, redact, items[..|items| - 1], depth, seen)
      + [Walk(h, redact, items[|items| - 1], depth, seen)]
  }

  /** `seen` is one set shared by all the recursive calls. */
  class Walker {
    var seen: set<nat>

    constructor ()
      ensures seen == {}
    {
      seen := {};
    }

    /** `_redact_context_value`. Whatever the graph, it ends, leaves `seen` as it found it,
        and computes Walk. */
    method RedactValue(h: Heap, redact: string -> string, v: Value, depth: nat) returns (o: Out)
      requires Closed(h) && Known(h, v) && depth <= MAX_DEPTH
      modifies this
      ensures seen == old(seen)
      ensures o == Walk(h, redact, v, depth, old(seen))
      decreases MAX_DEPTH - depth, 0
    {
      if v.Text? { return OText(redact(v.s)); }
      if v.Scalar? { return OScalar(v.n); }
      if depth >= MAX_DEPTH { return TooDeep; }
      if v.Ref? {
        if v.id in seen { return Cycle; }
        seen := seen + {v.id};
        if h[v.id].Dict? {
          var es := RedactEntries(h, redact, h[v.id].entries, depth + 1);
          o := ODict(es);
        } else {
          var os := RedactItems(h, redact, h[v.id].items, depth + 1);
          o := OList(os);
        }
        seen := seen - {v.id};
      } else {
        o := RedactValue(h, redact, Text(v.str), depth + 1);
      }
    }

    method RedactEntries(h: Heap, redact: string -> string, entries: seq<Item>, depth: nat) returns (es: seq<Entry>)
      requires Closed(h) && depth <= MAX_DEPTH
      requires forall i :: 0 <= i < |entries| ==> Known(h, entries[i].value)
      modifies this
      ensures seen == old(seen)
      ensures es == WalkEntries(h, redact, entries, depth, old(seen))
      decreases MAX_DEPTH - depth, 1
    {
      es := [];
      for i := 0 to |entries|
        invariant seen == old(seen)
        invariant es == WalkEntries(h, redact, entries[..i], depth, seen)
      {
        assert entries[..i + 1][..i] == entries[..i];
        if entries[i].key !in FORBIDDEN {
          var o := RedactValue(h, redact, entries[i].value, depth);
          es := Put(es, entries[i].key, o);
        }
      }
      assert entries[..|entries|] == entries;
    }

    method RedactItems(h: Heap, redact: string -> string, items: seq<Value>, depth: nat) returns (os: seq<Out>)
      requires Closed(h) && depth <= MAX_DEPTH
      requires forall i :: 0 <= i < |items| ==> Known(h, items[i])
      modifies this
      ensures seen == old(seen)
      ensures os == WalkItems(h, redact, items, depth, old(seen))
      decreases MAX_DEPTH - depth, 1
    {
      os := [];
      for i := 0 to |items|
        invariant seen == old(seen)
        invariant os == WalkItems(h, redact, items[..i], depth, seen)
      {
        assert items[..i + 1][..i] == items[..i];
        var o := RedactValue(h, redact, items[i], depth);
        os := os + [o];
      }
      assert items[..|items|] == items;
    }
  }

  // ----- What stands where ---------------------------------------------------------

  /** One step into a container. */
  datatype Step = Key(key: string) | Index(index: nat)
  type Path = seq<Step>

  /** The value a dictionary gives a key: the last entry whose key reads so. */
  function LastWith(entries: seq<Item>, key: string): Option<Value> {
    if entries == [] then None
    else if entries[|entries| - 1].key == key then Some(entries[|entries| - 1].value)
    else LastWith(entries[..|entries| - 1], key)
  }

  /** The child a step leads to, if the step exists and is not a forbidden key. */
  function Child(n: Node, s: Step): Option<Value> {
    if n.Dict? && s.Key? && s.key !in FORBIDDEN then LastWith(n.entries, s.key)
    else if n.List? && s.Index? && s.index < |n.items| then Some(n.items[s.index])
    else None
  }

  /** Where a path leads in the original graph. */
  function Follow(h: Heap, v: Value, p: Path): Option<Value>
    decreases |p|
  {
    if p == [] then Some(v)
    else if v.Ref? && v.id in h && Child(h[v.id], p[0]).Some? then Follow(h, Child(h[v.id], p[0]).value, p[1..])
    else None
  }

  /** The containers a path goes through before it arrives. */
  function Ancestors(h: Heap, v: Value, p: Path): seq<nat>
    requires Follow(h, v, p).Some?
    decreases |p|
  {
    if p == [] then [] else [v.id] + Ancestors(h, Child(h[v.id], p[0]).value, p[1..])
  }

  function OutChild(o: Out, s: Step): Option<Out> {
    if o.ODict? && s.Key? then Get(o.entries, s.key)
    else if o.OList? && s.Index? && s.index < |o.items| then Some(o.items[s.index])
    else None
  }

  /** Where a path leads in the result. */
  function OutFollow(o: Out, p: Path): Option<Out>
    decreases |p|
  {
    if p == [] then Some(o)
    else
      match OutChild(o, p[0])
      case None => None
      case Some(c) => OutFollow(c, p[1..])
  }

  ghost predicate Distinct(ids: seq<nat>) { forall i, j :: 0 <= i < j < |ids| ==> ids[i] != ids[j] }

  function Elements(ids: seq<nat>): set<nat> { set id | id in ids }

  lemma {:induction false} GetPut(es: seq<Entry>, key: string, value: Out, k: string)
    ensures Get(Put(es, key, value), k) == if k == key then Some(value) else Get(es, k)
  {
    if es != [] && es[0].key != key {
      GetPut(es[1..], key, value, k);
      assert Put(es, key, value)[1..] == Put(es[1..], key, value);
    } else if es != [] {
      assert Put(es, key, value)[1..] == es[1..];
    }
  }

  lemma {:induction false} LastWithKnown(h: Heap, entries: seq<Item>, key: string)
    requires forall i :: 0 <= i < |entries| ==> Known(h, entries[i].value)
    ensures LastWith(entries, key).Some? ==> Known(h, LastWith(entries, key).value)
  {
    if entries != [] { LastWithKnown(h, entries[..|entries| - 1], key); }
  }

  lemma {:induction false} GetWalked(h: Heap, redact: string -> string, entries: seq<Item>, depth: nat, seen: set<nat>, k: string)
    requires Closed(h) && depth <= MAX_DEPTH
    requires forall i :: 0 <= i < |entries| ==> Known(h, entries[i].value)
    ensures LastWith(entries, k).Some? ==> Known(h, LastWith(entries, k).value)
    ensures Get(WalkEntries(h, redact, entries, depth, seen), k) ==
            if k in FORBIDDEN || LastWith(entries, k).None? then None
            else Some(Walk(h, redact, LastWith(entries, k).value, depth, seen))
  {
    if entries != [] {
      var init, last := entries[..|entries| - 1], entries[|entries| - 1];
      GetWalked(h, redact, init, depth, seen, k);
      if last.key !in FORBIDDEN {
        GetPut(WalkEntries(h, redact, init, depth, seen), last.key, Walk(h, redact, last.value, depth, seen), k);
      }
    }
  }

  lemma {:induction false} ItemWalked(h: Heap, redact: string -> string, items: seq<Value>, depth: nat, seen: set<nat>, i: nat)
    requires Closed(h) && depth <= MAX_DEPTH && i < |items|
    requires forall i :: 0 <= i < |items| ==> Known(h, items[i])
    ensures WalkItems(h, redact, items, depth, seen)[i] == Walk(h, redact, items[i], depth, seen)
  {
    if i < |items| - 1 { ItemWalked(h, redact, items[..|items| - 1], depth, seen, i); }
  }

  lemma ChildKnown(h: Heap, id: nat, s: Step)
    requires Closed(h) && id in h && Child(h[id], s).Some?
    ensures Known(h, Child(h[id], s).value)
  {
    if h[id].Dict? { LastWithKnown(h, h[id].entries, s.key); }
  }

  /** A container that is expanded has exactly its permitted children, each walked one level
      deeper with the container added to its ancestors. */
  lemma ChildWalked(h: Heap, redact: string -> string, id: nat, depth: nat, seen: set<nat>, s: Step)
    requires Closed(h) && id in h && depth < MAX_DEPTH && id !in seen
    ensures Child(h[id], s).Some? ==> Known(h, Child(h[id], s).value)
    ensures OutChild(Walk(h, redact, Ref(id), depth, seen), s) ==
            if Child(h[id], s).None? then None
            else Some(Walk(h, redact, Child(h[id], s).value, depth + 1, seen + {id}))
  {
    match h[id]
    case Dict(entries) =>
      if s.Key? { GetWalked(h, redact, entries, depth + 1, seen + {id}, s.key); }
    case List(items) =>
      if s.Index? && s.index < |items| { ItemWalked(h, redact, items, depth + 1, seen + {id}, s.index); }
  }

  lemma {:induction false} FollowKnown(h: Heap, v: Value, p: Path)
    requires Closed(h) && Known(h, v) && Follow(h, v, p).Some?
    ensures Known(h, Follow(h, v, p).value)
    ensures |Ancestors(h, v, p)| == |p|
    decreases |p|
  {
    if p != [] {
      ChildKnown(h, v.id, p[0]);
      FollowKnown(h, Child(h[v.id], p[0]).value, p[1..]);
    }
  }

  /** The paths that exist in the result are exactly the original paths of at most twelve
      steps through distinct containers, none already being walked and none entered by a
      forbidden key; and what stands there is the walk of what stood there. */
  ghost predicate Reaches(h: Heap, v: Value, depth: nat, seen: set<nat>, p: Path) {
    && Follow(h, v, p).Some?
    && depth + |p| <= MAX_DEPTH
    && Distinct(Ancestors(h, v, p))
    && Elements(Ancestors(h, v, p)) !! seen
  }

  lemma ReachesCons(h: Heap, v: Value, depth: nat, seen: set<nat>, p: Path)
    requires v.Ref? && v.id in h && p != [] && Child(h[v.id], p[0]).Some?
    ensures Reaches(h, v, depth, seen, p) <==>
            v.id !in seen && Reaches(h, Child(h[v.id], p[0]).value, depth + 1, seen + {v.id}, p[1..])
  {
    var c := Child(h[v.id], p[0]).value;
    if Follow(h, c, p[1..]).Some? {
      var tail := Ancestors(h, c, p[1..]);
      var all := Ancestors(h, v, p);
      assert all == [v.id] + tail;
      assert Elements(all) == {v.id} + Elements(tail);
      if Distinct(all) {
        forall i, j | 0 <= i < j < |tail| ensures tail[i] != tail[j] { assert all[i + 1] != all[j + 1]; }
        forall i | 0 <= i < |tail| ensures tail[i] != v.id { assert all[0] != all[i + 1]; }
      }
      if Distinct(tail) && v.id !in Elements(tail) {
        forall i, j | 0 <= i < j < |all| ensures all[i] != all[j] {
          assert all[j] == tail[j - 1];
          if i == 0 { assert tail[j - 1] in Elements(tail); } else { assert all[i] == tail[i - 1]; }
        }
      }
    }
  }

  lemma AncestorsCons(h: Heap, v: Value, seen: set<nat>, p: Path)
    requires p != [] && Follow(h, v, p).Some?
    ensures var c := Child(h[v.id], p[0]).value;
            seen + Elements(Ancestors(h, v, p)) == (seen + {v.id}) + Elements(Ancestors(h, c, p[1..]))
  {
    var tail := Ancestors(h, Child(h[v.id], p[0]).value, p[1..]);
    assert Elements([v.id] + tail) == {v.id} + Elements(tail);
  }

  /** A container at the limit or among its own ancestors is not expanded. */
  lemma NotExpanded(h: Heap, redact: string -> string, v: Value, depth: nat, seen: set<nat>, p: Path)
    requires Closed(h) && Known(h, v) && depth <= MAX_DEPTH && p != [] && v.Ref? && (depth == MAX_DEPTH || v.id in seen)
    ensures OutFollow(Walk(h, redact, v, depth, seen), p).None?
    ensures depth == MAX_DEPTH ==> !Reaches(h, v, depth, seen, p)
  {
  }

  /** Where the graph has no such child, neither has the result. */
  lemma NowhereToGo(h: Heap, redact: string -> string, v: Value, depth: nat, seen: set<nat>, p: Path)
    requires Closed(h) && Known(h, v) && depth <= MAX_DEPTH && p != []
    requires !(v.Ref? && Child(h[v.id], p[0]).Some?)
    ensures OutFollow(Walk(h, redact, v, depth, seen), p).None? && !Reaches(h, v, depth, seen, p)
  {
    if v.Ref? && depth < MAX_DEPTH && v.id !in seen { ChildWalked(h, redact, v.id, depth, seen, p[0]); }
  }

  lemma {:induction false} WalkAlongPath(h: Heap, redact: string -> string, v: Value, depth: nat, seen: set<nat>, p: Path)
    requires Closed(h) && Known(h, v) && depth <= MAX_DEPTH
    ensures OutFollow(Walk(h, redact, v, depth, seen), p).Some? <==> Reaches(h, v, depth, seen, p)
    ensures Reaches(h, v, depth, seen, p) ==>
              && Known(h, Follow(h, v, p).value)
              && OutFollow(Walk(h, redact, v, depth, seen), p).value ==
                 Walk(h, redact, Follow(h, v, p).value, depth + |p|, seen + Elements(Ancestors(h, v, p)))
    decreases |p|
  {
    if p == [] {
      assert seen + Elements([]) == seen;
    } else if v.Ref? && Child(h[v.id], p[0]).Some? {
      ReachesCons(h, v, depth, seen, p);
      if depth < MAX_DEPTH && v.id !in seen {
        var c := Child(h[v.id], p[0]).value;
        ChildWalked(h, redact, v.id, depth, seen, p[0]);
        WalkAlongPath(h, redact, c, depth + 1, seen + {v.id}, p[1..]);
        if Reaches(h, v, depth, seen, p) { AncestorsCons(h, v, seen, p); }
      } else {
        NotExpanded(h, redact, v, depth, seen, p);
      }
    } else {
      NowhereToGo(h, redact, v, depth, seen, p);
    }
  }

  /** The whole result, position by position. It has a position exactly where the original
      has one at most twelve steps down, through distinct containers and no forbidden key.
      There stands the cycle marker exactly when a container above the depth limit is its
      own ancestor, the depth marker exactly when something other than text or a scalar is
      twelve steps down, and otherwise the redacted text, the scalar, or the container. */
  lemma ResultByPosition(h: Heap, redact: string -> string, root: Value, p: Path)
    requires Closed(h) && Known(h, root)
    ensures var o := OutFollow(Walk(h, redact, root, 0, {}), p);
            && (o.Some? <==> Follow(h, root, p).Some? && |p| <= MAX_DEPTH && Distinct(Ancestors(h, root, p)))
            && (o.Some? ==>
                  var v, above := Follow(h, root, p).value, Ancestors(h, root, p);
                  && (o.value == Cycle <==> v.Ref? && |p| < MAX_DEPTH && v.id in above)
                  && (o.value == TooDeep <==> (v.Ref? || v.Other?) && |p| == MAX_DEPTH)
                  && (v.Text? ==> o.value == OText(redact(v.s)))
                  && (v.Scalar? ==> o.value == OScalar(v.n))
                  && (v.Other? && |p| < MAX_DEPTH ==> o.value == OText(redact(v.str)))
                  && (v.Ref? && |p| < MAX_DEPTH && v.id !in above ==>
                        v.id in h && (if h[v.id].Dict? then o.value.ODict? else o.value.OList?)))
  {
    WalkAlongPath(h, redact, root, 0, {}, p);
  }

  lemma KeysWalked(h: Heap, redact: string -> string, v: Value, depth: nat, seen: set<nat>, key: string)
    requires Closed(h) && Known(h, v) && depth <= MAX_DEPTH && Walk(h, redact, v, depth, seen).ODict?
    ensures v.Ref? && h[v.id].Dict?
    ensures Get(Walk(h, redact, v, depth, seen).entries, key).Some? <==>
            key !in FORBIDDEN && LastWith(h[v.id].entries, key).Some?
  {
    GetWalked(h, redact, h[v.id].entries, depth + 1, seen + {v.id}, key);
  }

  /** The keys of every dictionary of the result are the permitted keys of the original one, letter
      for letter, whatever the redaction would make of them. */
  lemma KeysAreNotRedacted(h: Heap, redact: string -> string, root: Value, p: Path, key: string)
    requires Closed(h) && Known(h, root)
    requires OutFollow(Walk(h, redact, root, 0, {}), p).Some? && OutFollow(Walk(h, redact, root, 0, {}), p).value.ODict?
    ensures Follow(h, root, p).Some?
    ensures var v := Follow(h, root, p).value;
            && v.Ref? && v.id in h && h[v.id].Dict?
            && (Get(OutFollow(Walk(h, redact, root, 0, {}), p).value.entries, key).Some? <==>
                key !in FORBIDDEN && LastWith(h[v.id].entries, key).Some?)
  {
    WalkAlongPath(h, redact, root, 0, {}, p);
    KeysWalked(h, redact, Follow(h, root, p).value, |p|, {} + Elements(Ancestors(h, root, p)), key);
  }

  /** Nothing nests deeper than twelve containers, and no dictionary at any level has a
      forbidden key. */
  lemma ShallowAndPermitted(h: Heap, redact: string -> string, root: Value, p: Path)
    requires Closed(h) && Known(h, root)
    requires OutFollow(Walk(h, redact, root, 0, {}), p).Some?
    ensures |p| <= 12
    ensures forall i :: 0 <= i < |p| && p[i].Key? ==> p[i].key !in {"prompt", "source_code", "chain_trace"}
  {
    WalkAlongPath(h, redact, root, 0, {}, p);
    PermittedSteps(h, root, p);
  }

  lemma {:induction false} PermittedSteps(h: Heap, v: Value, p: Path)
    requires Follow(h, v, p).Some?
    ensures forall i :: 0 <= i < |p| && p[i].Key? ==> p[i].key !in FORBIDDEN
    decreases |p|
  {
    if p != [] {
      PermittedSteps(h, Child(h[v.id], p[0]).value, p[1..]);
      assert p == [p[0]] + p[1..];
    }
  }

  // ----- Without cycles ---------------------------------------------------------------

  /** The tree a value unfolds to, down to the depth limit, sharing ignored. */
  function Unfold(h: Heap, redact: string -> string, v: Value, depth: nat): Out
    requires Closed(h) && Known(h, v) && depth <= MAX_DEPTH
    decreases MAX_DEPTH - depth, 0
  {
    if v.Text? then OText(redact(v.s))
    else if v.Scalar? then OScalar(v.n)
    else if depth == MAX_DEPTH then TooDeep
    else if v.Other? then OText(redact(v.str))
    else
      match h[v.id]
      case Dict(entries) => ODict(UnfoldEntries(h, redact, entries, depth + 1))
      case List(items) => OList(UnfoldItems(h, redact, items, depth + 1))
  }

  function UnfoldEntries(h: Heap, redact: string -> string, entries: seq<Item>, depth: nat): seq<Entry>
    requires Closed(h) && depth <= MAX_DEPTH
    requires forall i :: 0 <= i < |entries| ==> Known(h, entries[i].value)
    decreases MAX_DEPTH - depth, 1 + |entries|
  {
    if entries == [] then []
    else
      var init, last := entries[..|entries| - 1], entries[|entries| - 1];
      var es := UnfoldEntries(h, redact, init, depth);
      if last.key in FORBIDDEN then es else Put(es, last.key, Unfold(h, redact, last.value, depth))
  }

  function UnfoldItems(h: Heap, redact: string -> string, items: seq<Value>, depth: nat): seq<Out>
    requires Closed(h) && depth <= MAX_DEPTH
    requires forall i :: 0 <= i < |items| ==> Known(h, items[i])
    decreases MAX_DEPTH - depth, 1 + |items|
  {
    if items == [] then []
    else
      UnfoldItems(h, redact, items[..|items| - 1], depth) + [Unfold(h, redact, items[|items| - 1], depth)]
  }

  /** A ranking under which every reference leads down: the graph has no cycle. */
  ghost predicate Ranked(h: Heap, rank: map<nat, nat>) {
    forall id :: id in h ==>
      && id in rank
      && (h[id].Dict? ==> forall i :: 0 <= i < |h[id].entries| ==> RankBelow(rank, h[id].entries[i].value, rank[id]))
      && (h[id].List? ==> forall i :: 0 <= i < |h[id].items| ==> RankBelow(rank, h[id].items[i], rank[id]))
  }

  predicate RankBelow(rank: map<nat, nat>, v: Value, bound: nat) { v.Ref? ==> v.id in rank && rank[v.id] < bound }

  predicate AllAbove(rank: map<nat, nat>, seen: set<nat>, bound: nat) {
    forall id :: id in seen ==> id in rank && rank[id] >= bound
  }

  /** On a graph without cycles, shared nodes are expanded wherever they occur. */
  lemma {:induction false} AcyclicUnfolds(h: Heap, redact: string -> string, rank: map<nat, nat>,
                                          v: Value, depth: nat, seen: set<nat>, bound: nat)
    requires Closed(h) && Known(h, v) && depth <= MAX_DEPTH && Ranked(h, rank)
    requires RankBelow(rank, v, bound) && AllAbove(rank, seen, bound)
    ensures Walk(h, redact, v, depth, seen) == Unfold(h, redact, v, depth)
    decreases MAX_DEPTH - depth, 0
  {
    if v.Ref? && depth < MAX_DEPTH {
      assert v.id !in seen;
      match h[v.id]
      case Dict(entries) => EntriesUnfold(h, redact, rank, entries, depth + 1, seen + {v.id}, rank[v.id]);
      case List(items) => ItemsUnfold(h, redact, rank, items, depth + 1, seen + {v.id}, rank[v.id]);
    }
  }

  lemma {:induction false} EntriesUnfold(h: Heap, redact: string -> string, rank: map<nat, nat>,
                                         entries: seq<Item>, depth: nat, seen: set<nat>, bound: nat)
    requires Closed(h) && depth <= MAX_DEPTH && Ranked(h, rank) && AllAbove(rank, seen, bound)
    requires forall i :: 0 <= i < |entries| ==> Known(h, entries[i].value) && RankBelow(rank, entries[i].value, bound)
    ensures WalkEntries(h, redact, entries, depth, seen) == UnfoldEntries(h, redact, entries, depth)
    decreases MAX_DEPTH - depth, 1 + |entries|
  {
    if entries != [] {
      EntriesUnfold(h, redact, rank, entries[..|entries| - 1], depth, seen, bound);
      AcyclicUnfolds(h, redact, rank, entries[|entries| - 1].value, depth, seen, bound);
    }
  }

  lemma {:induction false} ItemsUnfold(h: Heap, redact: string -> string, rank: map<nat, nat>,
                                       items: seq<Value>, depth: nat, seen: set<nat>, bound: nat)
    requires Closed(h) && depth <= MAX_DEPTH && Ranked(h, rank) && AllAbove(rank, seen, bound)
    requires forall i :: 0 <= i < |items| ==> Known(h, items[i]) && RankBelow(rank, items[i], bound)
    ensures WalkItems(h, redact, items, depth, seen) == UnfoldItems(h, redact, items, depth)
    decreases MAX_DEPTH - depth, 1 + |items|
  {
    if items != [] {
      ItemsUnfold(h, redact, rank, items[..|items| - 1], depth, seen, bound);
      AcyclicUnfolds(h, redact, rank, items[|items| - 1], depth, seen, bound);
    }
  }
}
