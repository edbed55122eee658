// What an upsert leaves alone, and when upserting twice gives the same text as once.
module EnvTwice {
  import opened EnvText
  import opened EnvUpsert
  import opened EnvLaws

  // ----- Lines the walk leaves alone ---------------------------------------------

  lemma {:induction false} WalkAt(lines: seq<string>, pending: Entries, i: nat)
    requires i < |lines|
    ensures |Update(lines, pending).lines| == |lines|
    ensures Update(lines, pending).lines[i] == Rewrite(lines[i], Update(lines[..i], pending).pending).0
  {
    var (line, left) := Rewrite(lines[0], pending);
    if i == 0 {
      WalkLength(lines[1..], left);
    } else {
      WalkAt(lines[1..], left, i - 1);
      assert lines[..i][1..] == lines[1..][..i - 1];
    }
  }

  lemma {:induction false} WalkLength(lines: seq<string>, pending: Entries)
    ensures |Update(lines, pending).lines| == |lines|
  {
    if lines != [] { WalkLength(lines[1..], Rewrite(lines[0], pending).1); }
  }

  /** Every line stays byte for byte, except the first line of each updated key. */
  lemma OtherLinesUntouched(lines: seq<string>, values: Entries, i: nat)
    requires Accepted(values) && i < |lines|
    ensures |Update(lines, values).lines| == |lines|
    ensures Update(lines, values).lines[i] ==
            if Hits(lines[i], values) && Count(lines[..i], UpsertKey(lines[i]).value) == 0
            then Assignment(UpsertKey(lines[i]).value, ValueFor(values, UpsertKey(lines[i]).value))
            else lines[i]
  {
    WalkAt(lines, values, i);
    if UpsertKey(lines[i]).Some? { WalkFinds(lines[..i], values, UpsertKey(lines[i]).value); }
  }

  // ----- A text that already holds the values ----------------------------------------

  /** The first line of every pending key is its assignment already. */
  predicate Settled(lines: seq<string>, pending: Entries) {
    if lines == [] then pending == []
    else
      && (Hits(lines[0], pending) ==> lines[0] == Rewrite(lines[0], pending).0)
      && Settled(lines[1..], Rewrite(lines[0], pending).1)
  }

  lemma {:induction false} SettledStays(lines: seq<string>, pending: Entries)
    requires Settled(lines, pending)
    ensures Update(lines, pending) == Walk(lines, [])
  {
    if lines != [] { SettledStays(lines[1..], Rewrite(lines[0], pending).1); }
  }

  lemma {:induction false} RemoveAbsent(pending: Entries, key: string)
    requires forall i :: 0 <= i < |pending| ==> pending[i].0 != key
    ensures Remove(pending, key) == pending
  {
    if pending != [] { RemoveAbsent(pending[1..], key); }
  }

  lemma RewriteFirst(pending: Entries)
    requires pending != [] && Accepted(pending) && DistinctKeys(pending)
    ensures var line := Assignment(pending[0].0, pending[0].1);
            Rewrite(line, pending) == (line, pending[1..])
    ensures Accepted(pending[1..]) && DistinctKeys(pending[1..])
  {
    HasSplit(pending);
    AssignmentParses(pending[0].0, pending[0].1);
    var (key, value) := pending[0];
    forall i | 0 <= i < |pending[1..]| ensures pending[1..][i].0 != key {
      assert pending[i + 1].0 != key;
    }
    RemoveAbsent(pending[1..], key);
    assert Remove(pending, key) == [] + pending[1..] == pending[1..];
    assert Has(pending, key) && ValueFor(pending, key) == value;
  }

  lemma SettledCons(line: string, rest: seq<string>, pending: Entries, left: Entries)
    requires Rewrite(line, pending) == (line, left) && Settled(rest, left)
    ensures Settled([line] + rest, pending)
  {
    assert ([line] + rest)[1..] == rest;
  }

  lemma {:induction false} AppendedSettles(pending: Entries)
    requires Accepted(pending) && DistinctKeys(pending)
    ensures Settled(Appended(pending), pending)
  {
    if pending != [] {
      RewriteFirst(pending);
      AppendedSettles(pending[1..]);
      var line := Assignment(pending[0].0, pending[0].1);
      SettledCons(line, Appended(pending[1..]), pending, pending[1..]);
      assert Appended(pending) == [line] + Appended(pending[1..]);
    }
  }

  lemma RewriteTwice(line: string, pending: Entries)
    requires Accepted(pending)
    ensures var (written, left) := Rewrite(line, pending);
            Rewrite(written, pending) == (written, left) && (Hits(written, pending) <==> Hits(line, pending))
  {
    if Hits(line, pending) {
      var key := UpsertKey(line).value;
      PendingIsValid(pending, key);
      AssignmentParses(key, ValueFor(pending, key));
    }
  }

  lemma LeftIsValid(line: string, pending: Entries)
    requires Accepted(pending) && DistinctKeys(pending)
    ensures Accepted(Rewrite(line, pending).1) && DistinctKeys(Rewrite(line, pending).1)
  {
    if Hits(line, pending) {
      RemoveProperties(pending, UpsertKey(line).value);
      RemoveKeepsDistinct(pending, UpsertKey(line).value);
    }
  }

  /** After the walk, and the appended lines, every value is settled. */
  lemma {:induction false} WalkSettles(lines: seq<string>, pending: Entries)
    requires Accepted(pending) && DistinctKeys(pending)
    ensures Settled(Update(lines, pending).lines + Appended(Update(lines, pending).pending), pending)
  {
    var walk := Update(lines, pending);
    if lines == [] {
      AppendedSettles(pending);
      assert walk.lines + Appended(walk.pending) == Appended(pending);
    } else {
      var (line, left) := Rewrite(lines[0], pending);
      RewriteTwice(lines[0], pending);
      LeftIsValid(lines[0], pending);
      var rest := Update(lines[1..], left);
      WalkSettles(lines[1..], left);
      assert walk == Walk([line] + rest.lines, rest.pending);
      SettledCons(line, rest.lines + Appended(rest.pending), pending, left);
      assert walk.lines + Appended(walk.pending) == [line] + (rest.lines + Appended(rest.pending));
    }
  }

  lemma {:induction false} BlankBehind(lines: seq<string>, pending: Entries)
    ensures Update(lines + [""], pending) == Walk(Update(lines, pending).lines + [""], Update(lines, pending).pending)
    ensures Settled(lines, pending) ==> Settled(lines + [""], pending)
  {
    BlankAssignsNothing("");
    if lines == [] {
      assert lines + [""] == [""];
      assert [""][1..] == [];
    } else {
      assert (lines + [""])[1..] == lines[1..] + [""];
      BlankBehind(lines[1..], Rewrite(lines[0], pending).1);
    }
  }

  /** Dropping trailing blank lines before the walk or after it is the same. */
  lemma {:induction false} BlanksDropEitherWay(lines: seq<string>, pending: Entries)
    ensures var walk, short := Update(lines, pending), Update(DropBlanks(lines), pending);
            DropBlanks(walk.lines) == short.lines && walk.pending == short.pending
  {
    WalkLength(lines, pending);
    if lines != [] {
      var n := |lines| - 1;
      WalkAt(lines, pending, n);
      if lines[n] == "" {
        BlankBehind(lines[..n], pending);
        assert lines == lines[..n] + [""];
        BlanksDropEitherWay(lines[..n], pending);
      } else {
        RewrittenIsNotBlank(lines[n], Update(lines[..n], pending).pending);
      }
    }
  }

  lemma RewrittenIsNotBlank(line: string, pending: Entries)
    requires line != ""
    ensures Rewrite(line, pending).0 != ""
  {
  }

  lemma FinalIsSettled(text: string, values: Entries)
    requires Accepted(values) && DistinctKeys(values)
    ensures Settled(FinalLines(text, values), values)
    ensures DropBlanks(FinalLines(text, values)) == FinalLines(text, values)
  {
    var lines := LinesOf(text);
    BlanksDropEitherWay(lines, values);
    WalkSettles(DropBlanks(lines), values);
    var walk := Update(lines, values);
    DropBlanksIsPrefix(walk.lines);
    WalkKeepsPending(lines, values);
    AppendedIsClean(walk.pending);
    var final := FinalLines(text, values);
    if walk.pending != [] {
      assert final[|final| - 1] in Appended(walk.pending);
    } else {
      assert final == DropBlanks(walk.lines);
    }
  }

  /** Settled lines, read back with a blank behind them, come out as they are. */
  lemma SettledAgain(lines: seq<string>, values: Entries)
    requires Settled(lines, values)
    ensures var walk := Update(lines + [""], values);
            DropBlanks(walk.lines) + Appended(walk.pending) == DropBlanks(lines)
  {
    BlankBehind(lines, values);
    SettledStays(lines + [""], values);
    assert (lines + [""])[..|lines|] == lines;
    assert DropBlanks(lines + [""]) == DropBlanks(lines);
    assert Appended([]) == [];
  }

  // ----- Line endings -------------------------------------------------------------------

  predicate SomeCr(lines: seq<string>) { exists i :: 0 <= i < |lines| && EndsInCr(lines[i]) }

  predicate SomeWithoutCr(lines: seq<string>) { exists i :: 0 <= i < |lines| && !EndsInCr(lines[i]) }

  lemma CrlfAt(line: string, rest: string)
    requires '\n' !in line
    ensures HasCrlf(line + "\n" + rest) <==> EndsInCr(line) || HasCrlf(rest)
  {
    var text, n := line + "\n" + rest, |line|;
    assert forall j :: 0 <= j < n ==> text[j] == line[j] && line[j] != '\n';
    if EndsInCr(line) { assert text[n - 1] == '\r' && text[n] == '\n'; }
    if HasCrlf(rest) {
      var i :| 0 <= i < |rest| - 1 && rest[i] == '\r' && rest[i + 1] == '\n';
      assert text[n + 1 + i] == '\r' && text[n + 1 + (i + 1)] == '\n';
    }
    if HasCrlf(text) {
      var i :| 0 <= i < |text| - 1 && text[i] == '\r' && text[i + 1] == '\n';
      if i > n {
        assert rest[i - n - 1] == '\r' && rest[i - n - 1 + 1] == '\n';
      } else {
        assert i == n - 1;
      }
    }
  }

  lemma SomeCrSplit(lines: seq<string>)
    requires lines != []
    ensures SomeCr(lines) <==> EndsInCr(lines[0]) || SomeCr(lines[1..])
    ensures SomeWithoutCr(lines) <==> !EndsInCr(lines[0]) || SomeWithoutCr(lines[1..])
  {
    assert forall i :: 0 <= i < |lines[1..]| ==> lines[1..][i] == lines[i + 1];
    if SomeCr(lines) && !EndsInCr(lines[0]) {
      var i :| 0 <= i < |lines| && EndsInCr(lines[i]);
      assert lines[1..][i - 1] == lines[i];
    }
    if SomeWithoutCr(lines) && EndsInCr(lines[0]) {
      var i :| 0 <= i < |lines| && !EndsInCr(lines[i]);
      assert lines[1..][i - 1] == lines[i];
    }
  }

  lemma {:induction false} WrittenCrlf(lines: seq<string>)
    requires NoNewlines(lines)
    ensures HasCrlf(Join(lines, "\n") + "\n") <==> SomeCr(lines)
  {
    if lines != [] {
      SomeCrSplit(lines);
      if |lines| == 1 {
        CrlfAt(lines[0], "");
        assert lines[0] + "\n" + "" == Join(lines, "\n") + "\n";
      } else {
        WrittenCrlf(lines[1..]);
        JoinStep(lines, "\n");
        CrlfAt(lines[0], Join(lines[1..], "\n") + "\n");
      }
    }
  }

  /** A newline without a carriage return in front of it. */
  predicate LoneNewline(text: string) { exists i :: 0 <= i < |text| && text[i] == '\n' && (i == 0 || text[i - 1] != '\r') }

  lemma LoneAt(line: string, newline: string, rest: string)
    requires '\n' !in line && IsNewline(newline)
    ensures LoneNewline(line + newline + rest) <==> (newline == "\n" && !EndsInCr(line)) || LoneNewline(rest)
  {
    var text, n := line + newline + rest, |line + newline|;
    assert forall j :: 0 <= j < |line| ==> text[j] == line[j] && line[j] != '\n';
    assert text[n - 1] == '\n' && (n >= 2 ==> text[n - 2] == (line + newline)[n - 2]);
    if LoneNewline(rest) {
      var i :| 0 <= i < |rest| && rest[i] == '\n' && (i == 0 || rest[i - 1] != '\r');
      assert text[n + i] == '\n' && text[n + i - 1] == if i == 0 then '\n' else rest[i - 1];
    }
    if newline == "\n" && !EndsInCr(line) {
      assert text[n - 1] == '\n' && (n - 1 == 0 || text[n - 1 - 1] != '\r');
    }
    if LoneNewline(text) {
      var i :| 0 <= i < |text| && text[i] == '\n' && (i == 0 || text[i - 1] != '\r');
      if i >= n {
        assert rest[i - n] == '\n' && (i - n == 0 || rest[i - n - 1] != '\r');
      } else {
        assert i == n - 1;
      }
    }
  }

  lemma {:induction false} WrittenLone(lines: seq<string>, newline: string)
    requires NoNewlines(lines) && IsNewline(newline)
    ensures LoneNewline(Join(lines, newline) + newline) <==> newline == "\n" && (lines == [] || SomeWithoutCr(lines))
  {
    if lines == [] {
      LoneAt("", newline, "");
      assert "" + newline + "" == Join(lines, newline) + newline;
    } else if |lines| == 1 {
      SomeCrSplit(lines);
      LoneAt(lines[0], newline, "");
      assert lines[0] + newline + "" == Join(lines, newline) + newline;
    } else {
      SomeCrSplit(lines);
      WrittenLone(lines[1..], newline);
      JoinStep(lines, newline);
      LoneAt(lines[0], newline, Join(lines[1..], newline) + newline);
    }
  }

  // ----- Twice is once --------------------------------------------------------------------

  lemma UnchompedWithoutCr(lines: seq<string>, newline: string)
    requires newline == "\n" ==> !SomeCr(lines)
    ensures RereadAll(lines, newline) == lines
  {
    if newline == "\n" {
      assert forall i :: 0 <= i < |lines| ==> !EndsInCr(lines[i]);
    }
  }

  /** The lines a second upsert finds. */
  lemma SecondLines(text: string, values: Entries)
    requires Accepted(values) && DistinctKeys(values)
    ensures var final := FinalLines(text, values);
            LinesOf(Upsert(text, values)) == if final == [] then ["", ""] else RereadAll(final, Newline(text)) + [""]
  {
    var final, newline := FinalLines(text, values), Newline(text);
    FinalHasNoNewlines(text, values);
    if final == [] {
      assert Join(final, newline) + newline == "" + newline + "";
      SplitOne("", newline, "");
    } else {
      SplitWritten(final, newline);
    }
  }

  /** A text written with `\r\n`, or one without a line that ends in a carriage return, comes back. */
  lemma SameAgain(text: string, values: Entries)
    requires Accepted(values) && DistinctKeys(values)
    requires Newline(text) == "\n" ==> !SomeCr(FinalLines(text, values))
    ensures FinalLines(Upsert(text, values), values) == FinalLines(text, values)
  {
    var final := FinalLines(text, values);
    SecondLines(text, values);
    UnchompedWithoutCr(final, Newline(text));
    FinalIsSettled(text, values);
    if final == [] {
      BlankBehind([], values);
      SettledAgain([""], values);
      assert [""] + [""] == ["", ""] && [] + [""] == [""];
      assert [""][..0] == [];
    } else {
      SettledAgain(final, values);
    }
  }

  lemma {:induction false} CrlfEndsText(lines: seq<string>)
    ensures HasCrlf(Join(lines, "\r\n") + "\r\n")
  {
    var body := Join(lines, "\r\n");
    assert (body + "\r\n")[|body|] == '\r' && (body + "\r\n")[|body| + 1] == '\n';
  }

  /** The newline a second upsert picks. */
  lemma SecondNewline(text: string, values: Entries)
    requires Accepted(values) && DistinctKeys(values)
    ensures Newline(Upsert(text, values)) ==
            if Newline(text) == "\r\n" || SomeCr(FinalLines(text, values)) then "\r\n" else "\n"
  {
    FinalHasNoNewlines(text, values);
    CrlfEndsText(FinalLines(text, values));
    WrittenCrlf(FinalLines(text, values));
  }

  lemma OneLineText(line: string)
    requires EndsInCr(line)
    ensures var short := Chomp(line);
            Join(DropBlanks([short]), "\r\n") + "\r\n" == Join([line], "\n") + "\n"
  {
    var short := Chomp(line);
    assert line == short + "\r";
    assert [short][..0] == [];
    assert short + "\r\n" == line + "\n";
    assert short == "" ==> "" + "\r\n" == line + "\n";
  }

  /** With one line, ending in a carriage return, the second upsert reads that carriage return as
      part of the line end, and writes it back as such. */
  lemma OneCrLine(text: string, values: Entries)
    requires Accepted(values) && DistinctKeys(values) && Newline(text) == "\n"
    requires |FinalLines(text, values)| == 1 && EndsInCr(FinalLines(text, values)[0])
    ensures Upsert(Upsert(text, values), values) == Upsert(text, values)
  {
    var final := FinalLines(text, values);
    var line := final[0];
    var short := Chomp(line);
    assert final == [line];
    FinalIsSettled(text, values);
    SecondLines(text, values);
    assert RereadAll(final, "\n") == [short];
    CrLineIsNoAssignment(final, values, short);
    SettledAgain([short], values);
    SecondNewline(text, values);
    OneLineText(line);
  }

  lemma CrLineIsNoAssignment(final: seq<string>, values: Entries, short: string)
    requires Accepted(values) && |final| == 1 && EndsInCr(final[0]) && short == Chomp(final[0]) && Settled(final, values)
    ensures Settled([short], values)
  {
    var line := final[0];
    ChompParsesAlike(line);
    if Hits(line, values) {
      var key := UpsertKey(line).value;
      ValueIsSingleLine(values, key);
      AssignmentEnd(key, ValueFor(values, key));
      assert false;
    }
    assert final[1..] == [] && [short][1..] == [];
  }

  lemma CrBehind(line: string, rest: string)
    ensures EndsInCr(line + "\n" + rest) <==> EndsInCr(rest)
  {
  }

  lemma {:induction false} SplitEnds(text: string)
    requires !HasCrlf(text)
    ensures forall i :: 0 <= i < |Split(text)| - 1 ==> !EndsInCr(Split(text)[i])
    ensures EndsInCr(Split(text)[|Split(text)| - 1]) <==> EndsInCr(text)
    decreases |text|
  {
    var i := IndexOf(text, '\n');
    if i != -1 {
      var line, rest := text[..i], text[i + 1..];
      assert text == line + "\n" + rest;
      CrlfAt(line, rest);
      SplitEnds(rest);
      CrBehind(line, rest);
      assert Split(text) == [line] + Split(rest);
    }
  }

  /** The text has no `\r\n`, ends in a carriage return, and its last line is not replaced. */
  predicate LooseCrKept(text: string, values: Entries) {
    && !HasCrlf(text) && EndsInCr(text)
    && (var n := |LinesOf(text)| - 1;
        Hits(LinesOf(text)[n], values) ==> Count(LinesOf(text)[..n], UpsertKey(LinesOf(text)[n]).value) > 0)
  }

  lemma CrLineIsKept(lines: seq<string>, values: Entries, i: nat)
    requires Accepted(values) && i < |lines| && |Update(lines, values).lines| == |lines|
    requires EndsInCr(Update(lines, values).lines[i])
    ensures Update(lines, values).lines[i] == lines[i]
    ensures Hits(lines[i], values) ==> Count(lines[..i], UpsertKey(lines[i]).value) > 0
  {
    OtherLinesUntouched(lines, values, i);
    if Hits(lines[i], values) {
      var key := UpsertKey(lines[i]).value;
      ValueIsSingleLine(values, key);
      AssignmentEnd(key, ValueFor(values, key));
    }
  }

  lemma CrLineIsWalked(text: string, values: Entries, i: nat)
    requires Accepted(values) && DistinctKeys(values)
    requires i < |FinalLines(text, values)| && EndsInCr(FinalLines(text, values)[i])
    ensures var walked := Update(LinesOf(text), values).lines;
            i < |walked| == |LinesOf(text)| && FinalLines(text, values)[i] == walked[i]
  {
    var walk := Update(LinesOf(text), values);
    WalkKeepsPending(LinesOf(text), values);
    AppendedIsClean(walk.pending);
    DropBlanksIsPrefix(walk.lines);
    WalkLength(LinesOf(text), values);
    var final, kept := FinalLines(text, values), DropBlanks(walk.lines);
    forall j | |kept| <= j < |final| ensures !EndsInCr(final[j]) {
      assert final[j] in Appended(walk.pending);
    }
  }

  /** Only the last line of such a text can end in a carriage return. */
  lemma CrIsLastLine(text: string, values: Entries, i: nat)
    requires Accepted(values) && DistinctKeys(values) && !HasCrlf(text)
    requires i < |FinalLines(text, values)| && EndsInCr(FinalLines(text, values)[i])
    ensures i == |LinesOf(text)| - 1 && LooseCrKept(text, values)
  {
    CrLineIsWalked(text, values, i);
    CrLineIsKept(LinesOf(text), values, i);
    SplitEnds(text);
  }

  lemma CrEndStays(lines: seq<string>, more: seq<string>)
    requires lines != [] && EndsInCr(lines[|lines| - 1])
    ensures SomeCr(DropBlanks(lines) + more)
  {
    assert (DropBlanks(lines) + more)[|lines| - 1] == lines[|lines| - 1];
  }

  lemma LooseCrStays(text: string, values: Entries)
    requires Accepted(values) && DistinctKeys(values) && LooseCrKept(text, values)
    ensures SomeCr(FinalLines(text, values))
  {
    var lines := LinesOf(text);
    var walk := Update(lines, values);
    SplitEnds(text);
    OtherLinesUntouched(lines, values, |lines| - 1);
    CrEndStays(walk.lines, Appended(walk.pending));
  }

  /** With a kept loose carriage return, a second line is one without. */
  lemma SecondLineHasNoCr(text: string, values: Entries)
    requires Accepted(values) && DistinctKeys(values) && !HasCrlf(text)
    ensures |FinalLines(text, values)| >= 2 ==> SomeWithoutCr(FinalLines(text, values))
  {
    var final := FinalLines(text, values);
    if |final| >= 2 && EndsInCr(final[0]) && EndsInCr(final[1]) {
      CrIsLastLine(text, values, 0);
      CrIsLastLine(text, values, 1);
      assert false;
    }
  }

  lemma UpsertLone(text: string, values: Entries)
    requires Accepted(values) && DistinctKeys(values)
    ensures LoneNewline(Upsert(text, values)) <==>
            Newline(text) == "\n" && (FinalLines(text, values) == [] || SomeWithoutCr(FinalLines(text, values)))
  {
    FinalHasNoNewlines(text, values);
    WrittenLone(FinalLines(text, values), Newline(text));
  }

  lemma MixedIsRewritten(text: string, values: Entries)
    requires Accepted(values) && DistinctKeys(values) && Newline(text) == "\n"
    requires SomeCr(FinalLines(text, values)) && SomeWithoutCr(FinalLines(text, values))
    ensures Upsert(Upsert(text, values), values) != Upsert(text, values)
  {
    SecondNewline(text, values);
    UpsertLone(text, values);
    UpsertLone(Upsert(text, values), values);
  }

  predicate Unassigned(text: string, values: Entries, k: string) { Has(values, k) && Count(LinesOf(text), k) == 0 }

  /** The text has a second line, or some value has no line in it and is appended. */
  ghost predicate MoreLines(text: string, values: Entries) {
    |LinesOf(text)| >= 2 || exists k :: Unassigned(text, values, k)
  }

  lemma CrEndKeepsAll(lines: seq<string>, more: seq<string>)
    requires lines != [] && EndsInCr(lines[|lines| - 1])
    ensures |DropBlanks(lines) + more| == |lines| + |more|
  {
  }

  /** With a kept loose carriage return, the lines written are the text's and the values appended. */
  lemma LinesWritten(text: string, values: Entries)
    requires Accepted(values) && DistinctKeys(values) && LooseCrKept(text, values)
    ensures |FinalLines(text, values)| >= 2 <==> MoreLines(text, values)
  {
    var lines := LinesOf(text);
    var walk := Update(lines, values);
    SplitEnds(text);
    OtherLinesUntouched(lines, values, |lines| - 1);
    CrEndKeepsAll(walk.lines, Appended(walk.pending));
    if walk.pending != [] {
      var k := walk.pending[0].0;
      assert Has(walk.pending, k);
      WalkFinds(lines, values, k);
      assert Unassigned(text, values, k);
    }
    if k :| Unassigned(text, values, k) { WalkFinds(lines, values, k); }
  }

  /** Upserting twice gives the same text as once, except where a text without `\r\n` ends in a
      carriage return on a line that is kept, and has a second line or is given one. */
  lemma TwiceIsOnce(text: string, values: Entries)
    requires Accepted(values) && DistinctKeys(values)
    ensures Upsert(Upsert(text, values), values) == Upsert(text, values) <==>
            !(LooseCrKept(text, values) && MoreLines(text, values))
  {
    var final := FinalLines(text, values);
    if Newline(text) == "\n" && SomeCr(final) {
      var i :| 0 <= i < |final| && EndsInCr(final[i]);
      CrIsLastLine(text, values, i);
      SecondLineHasNoCr(text, values);
      LinesWritten(text, values);
      if |final| >= 2 { MixedIsRewritten(text, values); } else { OneCrLine(text, values); }
    } else {
      SameAgain(text, values);
      SecondNewline(text, values);
      if LooseCrKept(text, values) {
        LooseCrStays(text, values);
        assert false;
      }
    }
  }

  lemma LooseCrAlone(text: string, values: Entries)
    requires LinesOf(text) == [text] && EndsInCr(text) && '\n' !in text && !Hits(text, values)
    ensures LooseCrKept(text, values)
  {
  }

  /** A last line that ends in a bare carriage return, and a value to append behind it. */
  lemma SecondUpsertRewrites(k: string, a: string, j: string, b: string)
    requires ValidKey(k) && SingleLine(a) && ValidKey(j) && SingleLine(b) && j != k
    ensures var text, values := Assignment(k, a) + "\r", [(j, b)];
            && Accepted(values) && DistinctKeys(values)
            && Upsert(Upsert(text, values), values) != Upsert(text, values)
  {
    var line := Assignment(k, a);
    var text, values := line + "\r", [(j, b)];
    AssignmentParses(k, a);
    AssignmentIsOneLine(k, a);
    assert Chomp(text) == line;
    ChompParsesAlike(text);
    SplitNoNewline(text);
    assert LinesOf(text) == [text] && [text][1..] == [];
    assert Count([text], j) == 0 && !Assigns(text, j);
    assert values[0].0 == j && !Has(values, k);
    assert Unassigned(text, values, j);
    LooseCrAlone(text, values);
    TwiceIsOnce(text, values);
  }
}
