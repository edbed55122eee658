// Choosing which of the overlapping PII matches to redact, and cutting them out of the
// text. Regular expressions are outside the model: their matches are arbitrary.
module PiiSpans {
  import opened Sorting

  datatype Match = Match(kind: string, start: nat, end: nat, placeholder: string)

  function Length(m: Match): int { m.end - m.start }

  /** The sort key `(start, -(end - start))`. */
  predicate KeyLess(a: Match, b: Match) {
    a.start < b.start || (a.start == b.start && Length(a) > Length(b))
  }

  lemma KeyLessByKey()
    ensures ByKey(KeyLess)
  {
  }

  /** Every match is non-empty and lies in a text of length `n`. */
  ghost predicate Within(ms: seq<Match>, n: nat) {
    forall i :: 0 <= i < |ms| ==> ms[i].start < ms[i].end <= n
  }

  // ----- _deduplicate_matches ------------------------------------------------------

  function Keep(ms: seq<Match>, lastEnd: int): seq<Match> {
    if ms == [] then []
    else if ms[0].start >= lastEnd then [ms[0]] + Keep(ms[1..], ms[0].end)
    else Keep(ms[1..], lastEnd)
  }

  /** Where the kept matches stand in the list they were taken from. */
  function KeptAt(ms: seq<Match>, lastEnd: int, from: nat): seq<nat> {
    if ms == [] then []
    else if ms[0].start >= lastEnd then [from] + KeptAt(ms[1..], ms[0].end, from + 1)
    else KeptAt(ms[1..], lastEnd, from + 1)
  }

  function LastEnd(ms: seq<Match>, lastEnd: int): int {
    if ms == [] then lastEnd
    else if ms[0].start >= lastEnd then LastEnd(ms[1..], ms[0].end)
    else LastEnd(ms[1..], lastEnd)
  }

  lemma {:induction false} KeepAppend(ms: seq<Match>, m: Match, lastEnd: int)
    ensures Keep(ms + [m], lastEnd) ==
            Keep(ms, lastEnd) + (if m.start >= LastEnd(ms, lastEnd) then [m] else [])
    ensures LastEnd(ms + [m], lastEnd) == if m.start >= LastEnd(ms, lastEnd) then m.end else LastEnd(ms, lastEnd)
  {
    if ms == [] {
      assert ms + [m] == [m];
      assert Keep([m][1..], m.end) == [];
    } else {
      assert (ms + [m])[1..] == ms[1..] + [m];
      KeepAppend(ms[1..], m, if ms[0].start >= lastEnd then ms[0].end else lastEnd);
    }
  }

  method DeduplicateMatches(matches: seq<Match>) returns (result: seq<Match>)
    ensures result == Keep(matches, -1)
  {
    result := [];
    var lastEnd: int := -1;
    for i := 0 to |matches|
      invariant result == Keep(matches[..i], -1) && lastEnd == LastEnd(matches[..i], -1)
    {
      KeepAppend(matches[..i], matches[i], -1);
      assert matches[..i + 1] == matches[..i] + [matches[i]];
      if matches[i].start >= lastEnd {
        result := result + [matches[i]];
        lastEnd := matches[i].end;
      }
    }
    assert matches[..|matches|] == matches;
  }

  function Flatten(found: seq<seq<Match>>): seq<Match> {
    if found == [] then [] else Flatten(found[..|found| - 1]) + found[|found| - 1]
  }

  /** The matches detect_pii returns for what each pattern found, patterns in order. */
  function Detect(found: seq<seq<Match>>): seq<Match> { Keep(StableSort(KeyLess, Flatten(found)), -1) }

  method DetectPii(found: seq<seq<Match>>) returns (result: seq<Match>)
    ensures result == Detect(found)
  {
    var matches: seq<Match> := [];
    for p := 0 to |found|
      invariant matches == Flatten(found[..p])
    {
      assert found[..p + 1][..p] == found[..p];
      for i := 0 to |found[p]|
        invariant matches == Flatten(found[..p]) + found[p][..i]
      {
        matches := matches + [found[p][i]];
      }
      assert found[p][..|found[p]|] == found[p];
    }
    assert found[..|found|] == found;
    result := DeduplicateMatches(StableSort(KeyLess, matches));
  }

  lemma {:induction false} KeptAtPlaces(ms: seq<Match>, lastEnd: int, from: nat)
    ensures var at := KeptAt(ms, lastEnd, from);
            && |at| == |Keep(ms, lastEnd)|
            && (forall i :: 0 <= i < |at| ==> from <= at[i] < from + |ms| && Keep(ms, lastEnd)[i] == ms[at[i] - from])
            && (forall i, j :: 0 <= i < j < |at| ==> at[i] < at[j])
  {
    if ms != [] {
      KeptAtPlaces(ms[1..], if ms[0].start >= lastEnd then ms[0].end else lastEnd, from + 1);
    }
  }

  ghost predicate Inside(m: Match, k: Match) { k.start <= m.start < k.end }

  /** Non-empty spans from `lastEnd` on, each ending before the next begins. */
  ghost predicate Disjoint(kept: seq<Match>, lastEnd: int) {
    && (forall i :: 0 <= i < |kept| ==> kept[i].start >= lastEnd && kept[i].start < kept[i].end)
    && (forall i, j :: 0 <= i < j < |kept| ==> kept[i].end <= kept[j].start)
  }

  lemma {:induction false} KeepDisjoint(ms: seq<Match>, lastEnd: int, n: nat)
    requires Within(ms, n)
    ensures Disjoint(Keep(ms, lastEnd), lastEnd)
  {
    if ms == [] {
    } else if ms[0].start >= lastEnd {
      KeepDisjoint(ms[1..], ms[0].end, n);
    } else {
      KeepDisjoint(ms[1..], lastEnd, n);
    }
  }

  lemma SortedTail(ms: seq<Match>)
    requires Sorted(KeyLess, ms) && ms != []
    ensures Sorted(KeyLess, ms[1..]) && forall i :: 0 <= i < |ms| ==> ms[0].start <= ms[i].start
  {
    forall i | 0 <= i < |ms| ensures ms[0].start <= ms[i].start {
      if i > 0 { assert !KeyLess(ms[i], ms[0]); }
    }
  }

  /** A match that was not kept starts before `lastEnd` or inside a kept one. */
  lemma {:induction false} DroppedStartsInside(ms: seq<Match>, lastEnd: int, j: nat)
    requires Sorted(KeyLess, ms) && j < |ms|
    ensures || ms[j] in Keep(ms, lastEnd)
            || ms[j].start < lastEnd
            || exists k :: k in Keep(ms, lastEnd) && Inside(ms[j], k)
  {
    SortedTail(ms);
    if j > 0 {
      var next := if ms[0].start >= lastEnd then ms[0].end else lastEnd;
      DroppedStartsInside(ms[1..], next, j - 1);
      var m := ms[j];
      assert m == ms[1..][j - 1];
      var tail := Keep(ms[1..], next);
      assert forall k :: k in tail ==> k in Keep(ms, lastEnd);
      if m !in tail && m.start < next && ms[0].start >= lastEnd {
        assert ms[0] in Keep(ms, lastEnd) && Inside(m, ms[0]);
      }
    }
  }

  /** The kept spans: sorted and disjoint, a subsequence of the sorted matches, and every
      dropped match starts inside one of them. */
  lemma KeptSpans(found: seq<seq<Match>>, n: nat)
    requires Within(Flatten(found), n)
    ensures var kept, sorted := Detect(found), StableSort(KeyLess, Flatten(found));
            var at := KeptAt(sorted, -1, 0);
            && Within(kept, n) && Disjoint(kept, -1)
            && |at| == |kept|
            && (forall i :: 0 <= i < |at| ==> at[i] < |sorted| && kept[i] == sorted[at[i]])
            && (forall i, j :: 0 <= i < j < |at| ==> at[i] < at[j])
            && (forall m :: m in Flatten(found) ==> m in kept || exists k :: k in kept && Inside(m, k))
  {
    var raw := Flatten(found);
    var sorted := StableSort(KeyLess, raw);
    KeyLessByKey();
    SortKeepsElements(KeyLess, raw);
    WithinSorted(raw, n);
    KeptAtPlaces(sorted, -1, 0);
    KeepDisjoint(sorted, -1, n);
    forall m | m in raw
      ensures m in Detect(found) || exists k :: k in Detect(found) && Inside(m, k)
    {
      assert m in sorted;
      var j :| 0 <= j < |sorted| && sorted[j] == m;
      DroppedStartsInside(sorted, -1, j);
    }
  }

  lemma WithinSorted(ms: seq<Match>, n: nat)
    requires Within(ms, n)
    ensures Within(StableSort(KeyLess, ms), n)
  {
    KeyLessByKey();
    SortKeepsElements(KeyLess, ms);
    var sorted := StableSort(KeyLess, ms);
    forall i | 0 <= i < |sorted| ensures sorted[i].start < sorted[i].end <= n {
      assert sorted[i] in ms;
    }
  }

  // ----- Who wins at a shared start ------------------------------------------------

  /** Whatever is kept comes first, in the sorted list, among the matches with its start. */
  lemma {:induction false} KeptIsFirst(ms: seq<Match>, lastEnd: int, n: nat, i: nat, j: nat)
    requires Sorted(KeyLess, ms) && Within(ms, n)
    requires i < |Keep(ms, lastEnd)| && j < |ms| && ms[j].start == Keep(ms, lastEnd)[i].start
    ensures var at := KeptAt(ms, lastEnd, 0); |at| == |Keep(ms, lastEnd)| && at[i] <= j
  {
    KeptAtPlaces(ms, lastEnd, 0);
    KeepDisjoint(ms, lastEnd, n);
    KeptFirstFrom(ms, lastEnd, 0, i, j, n);
  }

  lemma {:induction false} KeptFirstFrom(ms: seq<Match>, lastEnd: int, from: nat, i: nat, j: nat, n: nat)
    requires Sorted(KeyLess, ms) && Within(ms, n)
    requires i < |Keep(ms, lastEnd)| == |KeptAt(ms, lastEnd, from)|
    requires j < |ms| && ms[j].start == Keep(ms, lastEnd)[i].start
    ensures KeptAt(ms, lastEnd, from)[i] <= from + j
  {
    SortedTail(ms);
    KeepDisjoint(ms, lastEnd, n);
    var takes := ms[0].start >= lastEnd;
    if !takes || i > 0 {
      var next := if takes then ms[0].end else lastEnd;
      var i' := if takes then i - 1 else i;
      KeptAtPlaces(ms[1..], next, from + 1);
      assert Keep(ms, lastEnd)[i] == Keep(ms[1..], next)[i'];
      assert takes ==> Keep(ms, lastEnd)[0].end <= Keep(ms, lastEnd)[i].start;
      assert j > 0;
      KeptFirstFrom(ms[1..], next, from + 1, i', j - 1, n);
    }
  }

  /** Among matches that start together the longest is kept, and among equally long ones
      the one its pattern order puts first. */
  lemma LongestFirstPatternWins(found: seq<seq<Match>>, n: nat, i: nat)
    requires Within(Flatten(found), n) && i < |Detect(found)|
    ensures var raw, k := Flatten(found), Detect(found)[i];
            && (forall m :: m in raw && m.start == k.start ==> Length(m) <= Length(k))
            && WithKey(KeyLess, raw, k) != [] && WithKey(KeyLess, raw, k)[0] == k
  {
    var raw := Flatten(found);
    var sorted := StableSort(KeyLess, raw);
    var k := Detect(found)[i];
    KeyLessByKey();
    SortKeepsElements(KeyLess, raw);
    WithinSorted(raw, n);
    KeptAtPlaces(sorted, -1, 0);
    var p := KeptAt(sorted, -1, 0)[i];
    forall m | m in raw && m.start == k.start ensures Length(m) <= Length(k) {
      assert m in sorted;
      var j :| 0 <= j < |sorted| && sorted[j] == m;
      KeptIsFirst(sorted, -1, n, i, j);
      if p < j { assert !KeyLess(sorted[j], sorted[p]); }
    }
    forall j | 0 <= j < p ensures !SameKey(KeyLess, sorted[j], sorted[p]) {
      if sorted[j].start == k.start { KeptIsFirst(sorted, -1, n, i, j); }
    }
    FirstWithKey(KeyLess, sorted, p);
    StableSortProperties(KeyLess, raw, k);
  }

  // ----- Which positions are covered ----------------------------------------------

  ghost predicate Covered(ms: seq<Match>, p: nat) { exists m :: m in ms && m.start <= p < m.end }

  /** Everything some pattern matched is redacted. */
  ghost predicate FullyCovered(raw: seq<Match>, kept: seq<Match>) {
    forall p: nat :: Covered(raw, p) ==> Covered(kept, p)
  }

  /** Text follows the i-th kept span before the next one begins. */
  predicate GapAfter(kept: seq<Match>, i: nat)
    requires i < |kept|
  {
    i + 1 == |kept| || kept[i].end < kept[i + 1].start
  }

  /** No match runs across the end of a kept span into a gap. */
  ghost predicate NoOverhang(raw: seq<Match>, kept: seq<Match>) {
    forall i, m :: 0 <= i < |kept| && GapAfter(kept, i) && m in raw && m.start < kept[i].end ==> m.end <= kept[i].end
  }

  lemma OverhangUncovered(kept: seq<Match>, i: nat)
    requires Disjoint(kept, -1) && i < |kept| && GapAfter(kept, i)
    ensures !Covered(kept, kept[i].end)
  {
    var p := kept[i].end;
    forall k | k in kept ensures !(k.start <= p < k.end) {
      var j :| 0 <= j < |kept| && kept[j] == k;
      if j < i {
        assert kept[j].end <= kept[i].start;
      } else if j > i {
        assert i + 1 < |kept| && kept[i].end < kept[i + 1].start;
        if j > i + 1 { assert kept[i + 1].end <= kept[j].start; }
      }
    }
  }

  lemma CoveredMeansNoOverhang(raw: seq<Match>, kept: seq<Match>)
    requires Disjoint(kept, -1) && FullyCovered(raw, kept)
    ensures NoOverhang(raw, kept)
  {
    forall i, m | 0 <= i < |kept| && GapAfter(kept, i) && m in raw && m.start < kept[i].end
      ensures m.end <= kept[i].end
    {
      OverhangUncovered(kept, i);
      assert !Covered(raw, kept[i].end);
    }
  }

  /** Going up from a kept span the match starts before the end of, some span holds `p`. */
  lemma SomeSpanHolds(raw: seq<Match>, kept: seq<Match>, m: Match, i: nat, p: nat)
    requires Disjoint(kept, -1) && NoOverhang(raw, kept) && m in raw
    requires i < |kept| && m.start < kept[i].end && kept[i].start <= p < m.end
    ensures Covered(kept, p)
    decreases |kept| - i
  {
    if p < kept[i].end {
      assert kept[i] in kept;
    } else {
      assert !GapAfter(kept, i);
      assert kept[i].end <= kept[i + 1].start;
      SomeSpanHolds(raw, kept, m, i + 1, p);
    }
  }

  lemma NoOverhangMeansCovered(raw: seq<Match>, kept: seq<Match>, p: nat)
    requires Disjoint(kept, -1) && NoOverhang(raw, kept)
    requires forall m :: m in raw ==> m in kept || exists k :: k in kept && Inside(m, k)
    requires Covered(raw, p)
    ensures Covered(kept, p)
  {
    var m :| m in raw && m.start <= p < m.end;
    if m !in kept {
      var k :| k in kept && Inside(m, k);
      var i :| 0 <= i < |kept| && kept[i] == k;
      SomeSpanHolds(raw, kept, m, i, p);
    }
  }

  /** Greedy choice can leave the tail of a dropped match in the text. It leaves nothing
      exactly when no match runs across the end of a kept span into a gap. */
  lemma CoverageIff(found: seq<seq<Match>>, n: nat)
    requires Within(Flatten(found), n)
    ensures FullyCovered(Flatten(found), Detect(found)) <==> NoOverhang(Flatten(found), Detect(found))
  {
    var raw, kept := Flatten(found), Detect(found);
    KeptSpans(found, n);
    if FullyCovered(raw, kept) {
      CoveredMeansNoOverhang(raw, kept);
    } else if NoOverhang(raw, kept) {
      forall p: nat | Covered(raw, p) ensures Covered(kept, p) { NoOverhangMeansCovered(raw, kept, p); }
    }
  }

  // ----- The same on the raw matches ------------------------------------------------

  /** Among the matches that start together, none is longer. */
  ghost predicate Longest(raw: seq<Match>, a: Match) {
    a in raw && forall m :: m in raw && m.start == a.start ==> m.end <= a.end
  }

  /** Among the matches from `at` on, none starts earlier. */
  ghost predicate Next(raw: seq<Match>, at: int, a: Match) {
    Longest(raw, a) && a.start >= at && forall m :: m in raw && m.start >= at ==> m.start >= a.start
  }

  function EndOf(cs: seq<Match>): int { if cs == [] then -1 else cs[|cs| - 1].end }

  /** Each match of the chain is the longest of those that start first where the one before ends, or
      behind it. */
  ghost predicate Chain(raw: seq<Match>, cs: seq<Match>) {
    cs == [] || (Chain(raw, cs[..|cs| - 1]) && Next(raw, EndOf(cs[..|cs| - 1]), cs[|cs| - 1]))
  }

  ghost predicate StartsAt(raw: seq<Match>, p: int) { exists c :: c in raw && c.start == p }

  /** Wherever a match runs across the end of a chain, another starts there. */
  ghost predicate NoLooseEnd(raw: seq<Match>) {
    forall cs: seq<Match>, m: Match :: Chain(raw, cs) && m in raw && m.start < EndOf(cs) < m.end ==>
      StartsAt(raw, EndOf(cs))
  }

  /** Nothing is left to extend the chain. */
  ghost predicate Full(raw: seq<Match>, cs: seq<Match>) { forall m :: m in raw ==> m.start < EndOf(cs) }

  /** A match that is kept, or starts in a kept span, and not before the i-th span's predecessor
      ends, starts with the i-th span or behind its start. */
  lemma StartsBehind(kept: seq<Match>, m: Match, i: nat)
    requires Disjoint(kept, -1) && i < |kept| && m.start >= EndOf(kept[..i])
    requires m in kept || exists k :: k in kept && Inside(m, k)
    ensures m.start >= kept[i].start
  {
    var j := SpanOf(kept, m);
    assert j > i ==> kept[i].end <= kept[j].start;
  }

  lemma SpanOf(kept: seq<Match>, m: Match) returns (j: nat)
    requires Disjoint(kept, -1) && (m in kept || exists k :: k in kept && Inside(m, k))
    ensures j < |kept| && kept[j].start <= m.start < kept[j].end
  {
    if m in kept {
      j :| 0 <= j < |kept| && kept[j] == m;
    } else {
      var k :| k in kept && Inside(m, k);
      j :| 0 <= j < |kept| && kept[j] == k;
    }
  }

  lemma KeptInRaw(found: seq<seq<Match>>, n: nat, i: nat)
    requires Within(Flatten(found), n) && i < |Detect(found)|
    ensures Detect(found)[i] in Flatten(found)
  {
    KeptSpans(found, n);
    KeyLessByKey();
    SortKeepsElements(KeyLess, Flatten(found));
  }

  lemma KeptIsNext(found: seq<seq<Match>>, n: nat, i: nat)
    requires Within(Flatten(found), n) && i < |Detect(found)|
    ensures Next(Flatten(found), EndOf(Detect(found)[..i]), Detect(found)[i])
  {
    var raw, kept := Flatten(found), Detect(found);
    KeptSpans(found, n);
    KeptInRaw(found, n, i);
    LongestFirstPatternWins(found, n, i);
    forall m | m in raw && m.start >= EndOf(kept[..i]) ensures m.start >= kept[i].start {
      StartsBehind(kept, m, i);
    }
  }

  /** The kept spans are a chain, up to each of them. */
  lemma {:induction false} KeptIsChain(found: seq<seq<Match>>, n: nat, i: nat)
    requires Within(Flatten(found), n) && i <= |Detect(found)|
    ensures Chain(Flatten(found), Detect(found)[..i])
  {
    if i > 0 {
      KeptIsChain(found, n, i - 1);
      KeptIsNext(found, n, i - 1);
      assert Detect(found)[..i][..i - 1] == Detect(found)[..i - 1];
    }
  }

  lemma KeptIsFull(found: seq<seq<Match>>, n: nat)
    requires Within(Flatten(found), n)
    ensures Full(Flatten(found), Detect(found))
  {
    var raw, kept := Flatten(found), Detect(found);
    KeptSpans(found, n);
    forall m | m in raw ensures m.start < EndOf(kept) {
      var j := SpanOf(kept, m);
      assert j < |kept| - 1 ==> kept[j].end <= kept[|kept| - 1].start;
    }
  }

  /** Chains of one length end at one place. */
  lemma {:induction false} ChainsAgree(raw: seq<Match>, a: seq<Match>, b: seq<Match>)
    requires Chain(raw, a) && Chain(raw, b) && |a| == |b|
    ensures EndOf(a) == EndOf(b)
  {
    if a != [] { ChainsAgree(raw, a[..|a| - 1], b[..|b| - 1]); }
  }

  /** No chain is longer than one that nothing extends. */
  lemma {:induction false} NoLonger(raw: seq<Match>, full: seq<Match>, cs: seq<Match>)
    requires Chain(raw, full) && Full(raw, full) && Chain(raw, cs)
    ensures |cs| <= |full|
  {
    if cs != [] {
      var init := cs[..|cs| - 1];
      NoLonger(raw, full, init);
      if |init| == |full| {
        ChainsAgree(raw, init, full);
        assert false;
      }
    }
  }

  lemma NotTheLast(raw: seq<Match>, kept: seq<Match>, i: nat)
    requires Full(raw, kept) && i < |kept| && StartsAt(raw, kept[i].end)
    ensures i + 1 < |kept|
  {
  }

  lemma NextTouches(raw: seq<Match>, at: int, a: Match)
    requires Next(raw, at, a) && StartsAt(raw, at)
    ensures a.start == at
  {
  }

  /** Whatever starts at the end of a kept span closes the gap behind it. */
  lemma StartClosesGap(found: seq<seq<Match>>, n: nat, i: nat)
    requires Within(Flatten(found), n) && i < |Detect(found)| && StartsAt(Flatten(found), Detect(found)[i].end)
    ensures !GapAfter(Detect(found), i)
  {
    var raw, kept := Flatten(found), Detect(found);
    KeptIsFull(found, n);
    NotTheLast(raw, kept, i);
    KeptIsNext(found, n, i + 1);
    assert EndOf(kept[..i + 1]) == kept[i].end;
    NextTouches(raw, kept[i].end, kept[i + 1]);
  }

  /** What covers the end of the i-th kept span is a kept span that starts there. */
  lemma CoverStarts(kept: seq<Match>, i: nat) returns (j: nat)
    requires Disjoint(kept, -1) && i < |kept| && Covered(kept, kept[i].end)
    ensures j < |kept| && kept[j].start == kept[i].end
  {
    var p := kept[i].end;
    var k :| k in kept && k.start <= p < k.end;
    j :| 0 <= j < |kept| && kept[j] == k;
  }

  lemma CrossingTouches(raw: seq<Match>, cs: seq<Match>, m: Match)
    requires NoLooseEnd(raw) && Chain(raw, cs) && m in raw && m.start < EndOf(cs)
    ensures m.end <= EndOf(cs) || StartsAt(raw, EndOf(cs))
  {
  }

  lemma NoOverhangAt(found: seq<seq<Match>>, n: nat, i: nat, m: Match)
    requires Within(Flatten(found), n) && NoLooseEnd(Flatten(found)) && i < |Detect(found)| && GapAfter(Detect(found), i)
    requires m in Flatten(found) && m.start < Detect(found)[i].end
    ensures m.end <= Detect(found)[i].end
  {
    var cs := Detect(found)[..i + 1];
    KeptIsChain(found, n, i + 1);
    assert EndOf(cs) == Detect(found)[i].end;
    CrossingTouches(Flatten(found), cs, m);
    if StartsAt(Flatten(found), EndOf(cs)) { StartClosesGap(found, n, i); }
  }

  lemma NoLooseEndMeansNoOverhang(found: seq<seq<Match>>, n: nat)
    requires Within(Flatten(found), n) && NoLooseEnd(Flatten(found))
    ensures NoOverhang(Flatten(found), Detect(found))
  {
    var raw, kept := Flatten(found), Detect(found);
    forall i, m | 0 <= i < |kept| && GapAfter(kept, i) && m in raw && m.start < kept[i].end
      ensures m.end <= kept[i].end
    {
      NoOverhangAt(found, n, i, m);
    }
  }

  lemma CoveredMeansNoLooseEnd(found: seq<seq<Match>>, n: nat, cs: seq<Match>, m: Match)
    requires Within(Flatten(found), n) && FullyCovered(Flatten(found), Detect(found))
    requires Chain(Flatten(found), cs) && m in Flatten(found) && m.start < EndOf(cs) < m.end
    ensures StartsAt(Flatten(found), EndOf(cs))
  {
    var raw, kept := Flatten(found), Detect(found);
    var i := |cs| - 1;
    KeptSpans(found, n);
    KeptIsFull(found, n);
    KeptIsChain(found, n, |kept|);
    assert kept[..|kept|] == kept;
    NoLonger(raw, kept, cs);
    KeptIsChain(found, n, |cs|);
    ChainsAgree(raw, cs, kept[..|cs|]);
    assert EndOf(cs) == kept[i].end;
    assert Covered(raw, kept[i].end);
    var j := CoverStarts(kept, i);
    KeptInRaw(found, n, j);
  }

  /** Everything that was matched is redacted exactly when, on the raw matches, no chain has a loose
      end: nothing is said of what was kept. */
  lemma CoverageByRaw(found: seq<seq<Match>>, n: nat)
    requires Within(Flatten(found), n)
    ensures FullyCovered(Flatten(found), Detect(found)) <==> NoLooseEnd(Flatten(found))
  {
    var raw := Flatten(found);
    CoverageIff(found, n);
    if NoLooseEnd(raw) {
      NoLooseEndMeansNoOverhang(found, n);
    }
    if FullyCovered(raw, Detect(found)) {
      forall cs: seq<Match>, m: Match | Chain(raw, cs) && m in raw && m.start < EndOf(cs) < m.end
        ensures StartsAt(raw, EndOf(cs))
      {
        CoveredMeansNoLooseEnd(found, n, cs, m);
      }
    }
  }

  /** Enough on sight: wherever one match runs across the end of another, a third starts there. */
  lemma TouchingMatchesAreCovered(found: seq<seq<Match>>, n: nat)
    requires Within(Flatten(found), n)
    requires forall a, m :: a in Flatten(found) && m in Flatten(found) && m.start < a.end < m.end ==>
               StartsAt(Flatten(found), a.end)
    ensures FullyCovered(Flatten(found), Detect(found))
  {
    var raw := Flatten(found);
    forall cs: seq<Match>, m: Match | Chain(raw, cs) && m in raw && m.start < EndOf(cs) < m.end
      ensures StartsAt(raw, EndOf(cs))
    {
      assert Next(raw, EndOf(cs[..|cs| - 1]), cs[|cs| - 1]);
    }
    CoverageByRaw(found, n);
  }

  lemma DetectTwo(a: Match, b: Match)
    requires a.start < b.start < a.end
    ensures Flatten([[a], [b]]) == [a, b] && Detect([[a], [b]]) == [a]
  {
    var found := [[a], [b]];
    assert found[..1] == [[a]] && [[a]][..0] == [];
    assert Flatten([[a]]) == [a];
    assert [a, b][..1] == [a] && [a][..0] == [];
    assert StableSort(KeyLess, [a]) == [a];
    assert StableSort(KeyLess, [a, b]) == Insert(KeyLess, [a], b) == [a, b];
    assert [a, b][1..] == [b] && [b][1..] == [];
    assert Keep([b], a.end) == [];
    assert Keep([a, b], -1) == [a] + Keep([b], a.end);
  }

  /** The documentation promises that all PII is replaced. Any two matches that overlap
      without one containing the other leave the second one's tail in the text. */
  lemma TailRemains(a: Match, b: Match, p: nat)
    requires a.start < b.start < a.end <= p < b.end
    ensures Covered(Flatten([[a], [b]]), p) && !Covered(Detect([[a], [b]]), p)
  {
    DetectTwo(a, b);
    assert b in [a, b];
  }

  // ----- redact_pii ---------------------------------------------------------------

  /** The text from `cursor` on with each span replaced by its placeholder. */
  function Replace(text: string, ms: seq<Match>, cursor: nat): string
    requires cursor <= |text| && Within(ms, |text|) && Disjoint(ms, cursor)
  {
    if ms == [] then text[cursor..]
    else
      Follows(ms, cursor, |text|);
      text[cursor..ms[0].start] + ms[0].placeholder + Replace(text, ms[1..], ms[0].end)
  }

  lemma Follows(ms: seq<Match>, cursor: nat, n: nat)
    requires ms != [] && Within(ms, n) && Disjoint(ms, cursor)
    ensures cursor <= ms[0].start < ms[0].end <= n
    ensures Within(ms[1..], n) && Disjoint(ms[1..], ms[0].end)
  {
  }

  lemma ReplaceStep(text: string, ms: seq<Match>, cursor: nat)
    requires cursor <= |text| && Within(ms, |text|) && Disjoint(ms, cursor) && ms != []
    ensures cursor <= ms[0].start < ms[0].end <= |text| && Within(ms[1..], |text|) && Disjoint(ms[1..], ms[0].end)
    ensures Replace(text, ms, cursor) ==
            text[cursor..ms[0].start] + ms[0].placeholder + Replace(text, ms[1..], ms[0].end)
  {
    Follows(ms, cursor, |text|);
  }

  lemma PartsGrow(parts: string, gap: string, fill: string, rest: string)
    ensures parts + (gap + fill + rest) == parts + gap + fill + rest
  {
  }

  /** redact_pii after detection: the parts joined by the cursor loop. */
  method RedactPii(text: string, matches: seq<Match>) returns (redacted: string)
    requires Within(matches, |text|) && Disjoint(matches, 0)
    ensures redacted == Replace(text, matches, 0)
  {
    if matches == [] { return text; }
    var parts: string := "";
    var cursor: nat := 0;
    for i := 0 to |matches|
      invariant cursor <= |text| && Within(matches[i..], |text|) && Disjoint(matches[i..], cursor)
      invariant Replace(text, matches, 0) == parts + Replace(text, matches[i..], cursor)
    {
      ReplaceStep(text, matches[i..], cursor);
      assert matches[i..][1..] == matches[i + 1..];
      PartsGrow(parts, text[cursor..matches[i].start], matches[i].placeholder, Replace(text, matches[i + 1..], matches[i].end));
      parts := parts + text[cursor..matches[i].start] + matches[i].placeholder;
      cursor := matches[i].end;
    }
    redacted := parts + text[cursor..];
  }

  // ----- Putting the removed pieces back ------------------------------------------

  /** For each placeholder, where it stands in the redacted text and what it replaced;
      position `cursor` of the text has become position `out`. */
  function Undo(text: string, ms: seq<Match>, cursor: nat, out: nat): seq<Match>
    requires cursor <= |text| && Within(ms, |text|) && Disjoint(ms, cursor)
  {
    if ms == [] then []
    else
      Follows(ms, cursor, |text|);
      var start := out + (ms[0].start - cursor);
      var end := start + |ms[0].placeholder|;
      [Match(ms[0].kind, start, end, text[ms[0].start..ms[0].end])] + Undo(text, ms[1..], ms[0].end, end)
  }

  lemma DisjointCons(m: Match, ms: seq<Match>, n: nat, cursor: nat)
    requires cursor <= m.start < m.end <= n && Within(ms, n) && Disjoint(ms, m.end)
    ensures Within([m] + ms, n) && Disjoint([m] + ms, cursor)
  {
    forall i | 0 <= i < |ms| + 1
      ensures ([m] + ms)[i].start < ([m] + ms)[i].end <= n && ([m] + ms)[i].start >= cursor
    {
      if i > 0 { assert ([m] + ms)[i] == ms[i - 1]; }
    }
    forall i, j | 0 <= i < j < |ms| + 1 ensures ([m] + ms)[i].end <= ([m] + ms)[j].start {
      assert ([m] + ms)[j] == ms[j - 1];
      if i > 0 { assert ([m] + ms)[i] == ms[i - 1]; }
    }
  }

  /** Replacing the spans `back` of `whole` from `at` on gives `want`. */
  ghost predicate Restores(whole: string, back: seq<Match>, at: nat, want: string) {
    && at <= |whole| && Within(back, |whole|) && Disjoint(back, at)
    && Replace(whole, back, at) == want
  }

  lemma RestoresCons(whole: string, m: Match, tail: seq<Match>, at: nat, want: string)
    requires at <= m.start < m.end && Restores(whole, tail, m.end, want)
    ensures Restores(whole, [m] + tail, at, whole[at..m.start] + m.placeholder + want)
  {
    DisjointCons(m, tail, |whole|, at);
    assert ([m] + tail)[1..] == tail;
  }

  lemma CutOut(pre: string, gap: string, fill: string, rest: string)
    ensures (pre + gap + fill + rest)[|pre|..|pre| + |gap|] == gap
    ensures pre + (gap + fill + rest) == pre + gap + fill + rest
  {
  }

  lemma PieceTogether(text: string, a: nat, b: nat, c: nat)
    requires a <= b <= c <= |text|
    ensures text[a..b] + text[b..c] + text[c..] == text[a..]
  {
  }

  /** One more gap, one more placeholder turned back into its piece. */
  lemma UndoOne(pre: string, gap: string, fill: string, rest: string, m: Match, tail: seq<Match>, want: string)
    requires m.start == |pre| + |gap| && m.end == m.start + |fill| && fill != ""
    requires Restores(pre + gap + fill + rest, tail, m.end, want)
    ensures Restores(pre + (gap + fill + rest), [m] + tail, |pre|, gap + m.placeholder + want)
  {
    CutOut(pre, gap, fill, rest);
    RestoresCons(pre + gap + fill + rest, m, tail, |pre|, want);
  }

  lemma UndoStep(text: string, ms: seq<Match>, cursor: nat, out: nat)
    requires cursor <= |text| && Within(ms, |text|) && Disjoint(ms, cursor) && ms != []
    ensures cursor <= ms[0].start < ms[0].end <= |text| && Within(ms[1..], |text|) && Disjoint(ms[1..], ms[0].end)
    ensures var at := out + (ms[0].start - cursor);
            var end := at + |ms[0].placeholder|;
            Undo(text, ms, cursor, out) ==
            [Match(ms[0].kind, at, end, text[ms[0].start..ms[0].end])] + Undo(text, ms[1..], ms[0].end, end)
  {
    Follows(ms, cursor, |text|);
  }

  lemma UndoAssembled(pre: string, gap: string, fill: string, rest: string, m: Match, tail: seq<Match>, want: string,
                      replaced: string, back: seq<Match>, whole: string)
    requires m.start == |pre| + |gap| && m.end == m.start + |fill| && fill != ""
    requires Restores(pre + gap + fill + rest, tail, m.end, want)
    requires replaced == gap + fill + rest && back == [m] + tail && whole == gap + m.placeholder + want
    ensures Restores(pre + replaced, back, |pre|, whole)
  {
    UndoOne(pre, gap, fill, rest, m, tail, want);
  }

  lemma {:induction false} UndoFrom(text: string, ms: seq<Match>, cursor: nat, pre: string)
    requires cursor <= |text| && Within(ms, |text|) && Disjoint(ms, cursor)
    requires forall i :: 0 <= i < |ms| ==> ms[i].placeholder != ""
    ensures Restores(pre + Replace(text, ms, cursor), Undo(text, ms, cursor, |pre|), |pre|, text[cursor..])
    decreases |ms|
  {
    if ms == [] {
      UndoNothing(pre, text[cursor..]);
    } else {
      ReplaceStep(text, ms, cursor);
      UndoStep(text, ms, cursor, |pre|);
      var start, end, fill := ms[0].start, ms[0].end, ms[0].placeholder;
      var gap := text[cursor..start];
      var at := |pre| + |gap|;
      UndoFrom(text, ms[1..], end, pre + gap + fill);
      PieceTogether(text, cursor, start, end);
      UndoAssembled(pre, gap, fill, Replace(text, ms[1..], end), Match(ms[0].kind, at, at + |fill|, text[start..end]),
                    Undo(text, ms[1..], end, at + |fill|), text[end..],
                    Replace(text, ms, cursor), Undo(text, ms, cursor, |pre|), text[cursor..]);
    }
  }

  lemma UndoNothing(pre: string, rest: string)
    ensures Restores(pre + rest, [], |pre|, rest)
  {
    assert (pre + rest)[|pre|..] == rest;
  }

  /** Redacting loses nothing but the removed pieces: cutting the placeholders out of the
      redacted text and putting the pieces in their place gives the text back. */
  lemma RedactionUndone(text: string, found: seq<seq<Match>>)
    requires Within(Flatten(found), |text|)
    requires forall m :: m in Flatten(found) ==> m.placeholder != ""
    ensures var kept := Detect(found);
            && Within(kept, |text|) && Disjoint(kept, 0)
            && Restores(Replace(text, kept, 0), Undo(text, kept, 0, 0), 0, text)
  {
    var kept := Detect(found);
    KeptSpans(found, |text|);
    KeyLessByKey();
    SortKeepsElements(KeyLess, Flatten(found));
    forall i | 0 <= i < |kept| ensures kept[i].placeholder != "" {
      var at := KeptAt(StableSort(KeyLess, Flatten(found)), -1, 0);
      assert kept[i] == StableSort(KeyLess, Flatten(found))[at[i]];
      assert kept[i] in StableSort(KeyLess, Flatten(found));
    }
    UndoFrom(text, kept, 0, "");
    assert "" + Replace(text, kept, 0) == Replace(text, kept, 0);
  }
}
