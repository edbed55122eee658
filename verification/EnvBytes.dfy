// When an upsert leaves a whole text as it is, byte for byte.
module EnvBytes {
  import opened Prelude
  import opened EnvText
  import opened EnvUpsert
  import opened EnvLaws
  import opened EnvTwice

  // ----- Lines and their ends -----------------------------------------------------

  /** Every newline of a text has a carriage return in front of it, or none has. */
  ghost predicate OneKindOfEnd(text: string) { HasCrlf(text) ==> !LoneNewline(text) }

  lemma JoinCons(line: string, rest: seq<string>, newline: string)
    requires rest != []
    ensures Join([line] + rest, newline) == line + newline + Join(rest, newline)
  {
    assert ([line] + rest)[1..] == rest;
  }

  lemma {:induction false} JoinSnoc(lines: seq<string>, line: string, newline: string)
    requires lines != []
    ensures Join(lines + [line], newline) == Join(lines, newline) + newline + line
  {
    if |lines| == 1 {
      assert lines + [line] == [lines[0]] + [line];
      JoinCons(lines[0], [line], newline);
    } else {
      JoinSnoc(lines[1..], line, newline);
      JoinCons(lines[0], lines[1..], newline);
      JoinCons(lines[0], lines[1..] + [line], newline);
      assert lines == [lines[0]] + lines[1..];
      assert lines + [line] == [lines[0]] + (lines[1..] + [line]);
    }
  }

  /** The first line and what follows its newline. */
  lemma SplitFirst(text: string) returns (line: string, rest: string)
    requires '\n' in text
    ensures text == line + "\n" + rest && '\n' !in line && |rest| < |text|
    ensures Split(text) == [Chomp(line)] + Split(rest)
  {
    var i := IndexOf(text, '\n');
    line, rest := text[..i], text[i + 1..];
    SplitAt(line, rest);
  }

  lemma {:induction false} RejoinLf(text: string)
    requires !HasCrlf(text)
    ensures Join(Split(text), "\n") == text
    decreases |text|
  {
    if '\n' in text {
      var line, rest := SplitFirst(text);
      CrlfAt(line, rest);
      RejoinLf(rest);
      JoinCons(line, Split(rest), "\n");
    } else {
      SplitNoNewline(text);
    }
  }

  lemma CrlfTogether(line: string, rest: string)
    requires EndsInCr(line)
    ensures Chomp(line) + "\r\n" + rest == line + "\n" + rest
  {
    assert line == Chomp(line) + "\r";
  }

  lemma {:induction false} RejoinCrlf(text: string)
    requires !LoneNewline(text)
    ensures Join(Split(text), "\r\n") == text
    decreases |text|
  {
    if '\n' in text {
      var line, rest := SplitFirst(text);
      LoneAt(line, "\n", rest);
      RejoinCrlf(rest);
      JoinCons(Chomp(line), Split(rest), "\r\n");
      CrlfTogether(line, rest);
    } else {
      SplitNoNewline(text);
    }
  }

  lemma LonePrefix(a: string, b: string)
    ensures LoneNewline(a) ==> LoneNewline(a + b)
  {
    var text := a + b;
    assert forall i :: 0 <= i < |a| ==> text[i] == a[i];
    if LoneNewline(a) {
      var i :| 0 <= i < |a| && a[i] == '\n' && (i == 0 || a[i - 1] != '\r');
      assert text[i] == '\n' && (i == 0 || text[i - 1] != '\r');
    }
  }

  lemma JoinedIsNotLone(lines: seq<string>)
    requires NoNewlines(lines)
    ensures !LoneNewline(Join(lines, "\r\n"))
  {
    WrittenLone(lines, "\r\n");
    LonePrefix(Join(lines, "\r\n"), "\r\n");
  }

  /** Joining the lines of a text gives the text exactly when its line ends are of one kind. */
  lemma Rejoined(text: string)
    ensures Join(Split(text), Newline(text)) == text <==> OneKindOfEnd(text)
  {
    if !HasCrlf(text) {
      RejoinLf(text);
    } else if LoneNewline(text) {
      SplitHasNoNewlines(text);
      JoinedIsNotLone(Split(text));
    } else {
      RejoinCrlf(text);
    }
  }

  // ----- A text left alone ------------------------------------------------------------

  predicate EndsIn(text: string, end: string) { |end| <= |text| && text[|text| - |end|..] == end }

  /** The text ends in its newline, and not in two of them. */
  predicate EndsOnce(text: string) {
    EndsIn(text, Newline(text)) && !EndsIn(text, Newline(text) + Newline(text))
  }

  lemma LastOf(a: string, b: string)
    ensures b != "" ==> (a + b)[|a + b| - 1] == b[|b| - 1] && (a + b)[|a + b| - 1] in b
  {
  }

  lemma TwoEnds(text: string, newline: string)
    requires IsNewline(newline)
    ensures EndsIn(text, newline) ==> text[|text| - 1] == '\n'
    ensures EndsIn(text, newline + newline) ==> |text| > |newline| && text[|text| - |newline| - 1] == '\n'
  {
    var twice := newline + newline;
    assert twice[|newline| - 1] == '\n';
    if EndsIn(text, twice) { assert text[|text| - |twice|..][|newline| - 1] == twice[|newline| - 1]; }
    if EndsIn(text, newline) { assert text[|text| - |newline|..][|newline| - 1] == newline[|newline| - 1]; }
  }

  lemma LastOfJoined(all: seq<string>, newline: string) returns (lines: seq<string>)
    requires |all| >= 2 && NoNewlines(all) && Join(all, newline) != ""
    requires Join(all, newline)[|Join(all, newline)| - 1] == '\n'
    ensures lines != [] && all == lines + [""] && Join(all, newline) == Join(lines, newline) + newline
  {
    var last := all[|all| - 1];
    lines := all[..|all| - 1];
    assert all == lines + [last] && last in all;
    JoinSnoc(lines, last, newline);
    LastOf(Join(lines, newline) + newline, last);
    assert Join(lines, newline) + newline + "" == Join(lines, newline) + newline;
  }

  /** A text that ends in its newline has an empty last line. */
  lemma LastLineEmpty(text: string) returns (lines: seq<string>)
    requires OneKindOfEnd(text) && EndsIn(text, Newline(text))
    ensures lines != [] && Split(text) == lines + [""] && text == Join(lines, Newline(text)) + Newline(text)
  {
    TwoEnds(text, Newline(text));
    assert text[|text| - 1] == '\n';
    var line, rest := SplitFirst(text);
    Rejoined(text);
    SplitHasNoNewlines(text);
    lines := LastOfJoined(Split(text), Newline(text));
  }

  lemma EndsTwice(body: string, newline: string)
    ensures EndsIn(body + newline + "" + newline, newline + newline)
  {
    var text := body + newline + "" + newline;
    assert text == body + (newline + newline);
  }

  /** If it does not end in two, the lines in front of it have no blank end, or are one blank line. */
  lemma NoBlankEnd(lines: seq<string>, newline: string)
    requires lines != [] && !EndsIn(Join(lines, newline) + newline, newline + newline)
    ensures lines == [""] || lines[|lines| - 1] != ""
  {
    var n := |lines| - 1;
    if n > 0 {
      JoinSnoc(lines[..n], lines[n], newline);
      assert lines == lines[..n] + [lines[n]];
      EndsTwice(Join(lines[..n], newline), newline);
    }
  }

  lemma BlankLineDrops(lines: seq<string>, newline: string)
    requires lines == [""] || (lines != [] && lines[|lines| - 1] != "")
    ensures Join(DropBlanks(lines + [""]), newline) == Join(lines, newline)
  {
    assert (lines + [""])[..|lines|] == lines;
    if lines == [""] { assert [""][..0] == []; }
  }

  lemma FinalOfSettled(text: string, values: Entries)
    requires Settled(LinesOf(text), values)
    ensures FinalLines(text, values) == DropBlanks(LinesOf(text))
  {
    SettledStays(LinesOf(text), values);
    assert Appended([]) == [];
  }

  lemma SettledTextStays(text: string, values: Entries)
    requires EndsOnce(text) && OneKindOfEnd(text) && Settled(LinesOf(text), values)
    ensures Upsert(text, values) == text
  {
    var lines := LastLineEmpty(text);
    var newline := Newline(text);
    FinalOfSettled(text, values);
    assert FinalLines(text, values) == DropBlanks(lines + [""]);
    assert Upsert(text, values) == Join(lines, newline) + newline by {
      NoBlankEnd(lines, newline);
      BlankLineDrops(lines, newline);
    }
  }

  lemma JoinEnds(lines: seq<string>, newline: string) returns (before: string)
    requires lines != []
    ensures Join(lines, newline) == before + lines[|lines| - 1]
  {
    var n := |lines| - 1;
    if n > 0 {
      JoinSnoc(lines[..n], lines[n], newline);
      assert lines == lines[..n] + [lines[n]];
      before := Join(lines[..n], newline) + newline;
    } else {
      before := "";
    }
  }

  lemma WrittenEndsOnce(lines: seq<string>, newline: string)
    requires NoNewlines(lines) && IsNewline(newline) && (lines != [] ==> lines[|lines| - 1] != "")
    ensures EndsIn(Join(lines, newline) + newline, newline)
    ensures !EndsIn(Join(lines, newline) + newline, newline + newline)
  {
    var body := Join(lines, newline);
    TwoEnds(body + newline, newline);
    if lines != [] {
      var last := lines[|lines| - 1];
      assert last in lines;
      var before := JoinEnds(lines, newline);
      LastOf(before, last);
      assert (body + newline)[|body| - 1] == body[|body| - 1];
    }
  }

  /** The lines an upsert that changes nothing wrote are the lines of its text. */
  lemma StayedLines(text: string, values: Entries)
    requires Accepted(values) && DistinctKeys(values) && Upsert(text, values) == text
    ensures var final := FinalLines(text, values);
            LinesOf(text) == if final == [] then ["", ""] else final + [""]
  {
    var final, newline := FinalLines(text, values), Newline(text);
    FinalHasNoNewlines(text, values);
    SecondLines(text, values);
    WrittenCrlf(final);
    UnchompedWithoutCr(final, newline);
  }

  lemma StayedIsSettled(text: string, values: Entries)
    requires Accepted(values) && DistinctKeys(values) && Upsert(text, values) == text
    ensures Settled(LinesOf(text), values)
  {
    var final := FinalLines(text, values);
    StayedLines(text, values);
    FinalIsSettled(text, values);
    if final == [] {
      BlankBehind([], values);
      BlankBehind([""], values);
      assert [] + [""] == [""] && [""] + [""] == ["", ""];
    } else {
      BlankBehind(final, values);
    }
  }

  lemma StayedEnds(text: string, values: Entries)
    requires Accepted(values) && DistinctKeys(values) && Upsert(text, values) == text
    ensures EndsOnce(text) && OneKindOfEnd(text)
  {
    var final, newline := FinalLines(text, values), Newline(text);
    FinalHasNoNewlines(text, values);
    FinalIsSettled(text, values);
    DropBlanksIsPrefix(final);
    WrittenEndsOnce(final, newline);
    UpsertLone(text, values);
  }

  /** Some line gives `k` the value `v` as an upsert would write it, and no line before it assigns `k`. */
  ghost predicate HoldsFirst(lines: seq<string>, k: string, v: string) {
    exists i :: 0 <= i < |lines| && lines[i] == Assignment(k, v) && Count(lines[..i], k) == 0
  }

  ghost predicate HoldsAll(lines: seq<string>, values: Entries) {
    forall k :: Has(values, k) ==> HoldsFirst(lines, k, ValueFor(values, k))
  }

  /** Looking for the first line of a key, one line at a time. */
  lemma HoldsFirstCons(lines: seq<string>, k: string, v: string)
    requires lines != [] && ValidKey(k)
    ensures HoldsFirst(lines, k, v) <==>
            if Assigns(lines[0], k) then lines[0] == Assignment(k, v) else HoldsFirst(lines[1..], k, v)
  {
    AssignmentParses(k, v);
    if lines[0] == Assignment(k, v) { assert Count(lines[..0], k) == 0; }
    if HoldsFirst(lines, k, v) {
      var i :| 0 <= i < |lines| && lines[i] == Assignment(k, v) && Count(lines[..i], k) == 0;
      if i > 0 {
        assert lines[..i][1..] == lines[1..][..i - 1];
        assert lines[1..][i - 1] == Assignment(k, v);
      }
    }
    if HoldsFirst(lines[1..], k, v) && !Assigns(lines[0], k) {
      var i :| 0 <= i < |lines[1..]| && lines[1..][i] == Assignment(k, v) && Count(lines[1..][..i], k) == 0;
      assert lines[..i + 1][1..] == lines[1..][..i];
      assert lines[i + 1] == Assignment(k, v);
    }
  }

  lemma HoldsKeyCons(lines: seq<string>, values: Entries, k: string)
    requires lines != [] && Accepted(values)
    ensures var (written, left) := Rewrite(lines[0], values);
            && (Has(left, k) ==> Has(values, k) && UpsertKey(lines[0]) != Some(k))
            && (Has(values, k) ==>
                  (HoldsFirst(lines, k, ValueFor(values, k)) <==>
                   if UpsertKey(lines[0]) == Some(k) then lines[0] == written
                   else Has(left, k) && HoldsFirst(lines[1..], k, ValueFor(left, k))))
  {
    RewriteAssigns(lines[0], values, k);
    if Has(values, k) {
      PendingIsValid(values, k);
      SameKeys(lines[0], k);
      HoldsFirstCons(lines, k, ValueFor(values, k));
    }
  }

  /** One line settles its key, and leaves the others to the lines behind it. */
  lemma HoldsAllCons(lines: seq<string>, values: Entries)
    requires lines != [] && Accepted(values)
    ensures HoldsAll(lines, values) <==>
            && (Hits(lines[0], values) ==> lines[0] == Rewrite(lines[0], values).0)
            && HoldsAll(lines[1..], Rewrite(lines[0], values).1)
  {
    var (written, left) := Rewrite(lines[0], values);
    if HoldsAll(lines, values) {
      if Hits(lines[0], values) { HoldsKeyCons(lines, values, UpsertKey(lines[0]).value); }
      forall k | Has(left, k) ensures HoldsFirst(lines[1..], k, ValueFor(left, k)) {
        HoldsKeyCons(lines, values, k);
      }
    }
    if (Hits(lines[0], values) ==> lines[0] == written) && HoldsAll(lines[1..], left) {
      forall k | Has(values, k) ensures HoldsFirst(lines, k, ValueFor(values, k)) {
        HoldsKeyCons(lines, values, k);
        RewriteAssigns(lines[0], values, k);
        PendingIsValid(values, k);
        SameKeys(lines[0], k);
      }
    }
  }

  lemma {:induction false} SettledIsHeld(lines: seq<string>, values: Entries)
    requires Accepted(values) && DistinctKeys(values)
    ensures Settled(lines, values) <==> HoldsAll(lines, values)
  {
    if lines != [] {
      HoldsAllCons(lines, values);
      LeftIsValid(lines[0], values);
      SettledIsHeld(lines[1..], Rewrite(lines[0], values).1);
    } else if values != [] {
      assert Has(values, values[0].0);
    }
  }

  /** An upsert leaves a text as it is exactly when the text ends in its newline, once, has one kind
      of line end, and the first line that assigns a key to be set is that key's assignment as the
      upsert would write it. */
  lemma UpsertKeepsText(text: string, values: Entries)
    requires Accepted(values) && DistinctKeys(values)
    ensures Upsert(text, values) == text <==> EndsOnce(text) && OneKindOfEnd(text) && HoldsAll(LinesOf(text), values)
  {
    SettledIsHeld(LinesOf(text), values);
    if Upsert(text, values) == text {
      StayedIsSettled(text, values);
      StayedEnds(text, values);
    } else if EndsOnce(text) && OneKindOfEnd(text) && Settled(LinesOf(text), values) {
      SettledTextStays(text, values);
    }
  }

  /** With no value to set, all that is left of the promise is the line ends. */
  lemma EmptyUpsertKeepsText(text: string)
    ensures Upsert(text, []) == text <==> EndsOnce(text) && OneKindOfEnd(text)
  {
    UpsertKeepsText(text, []);
  }

  /** Two kinds of line end in one text: setting nothing rewrites it. */
  lemma MixedEndsRewritten(a: string, b: string)
    requires '\n' !in a && '\n' !in b && !EndsInCr(b)
    ensures var text := a + "\r\n" + b + "\n"; Upsert(text, []) != text
  {
    var text := a + "\r\n" + b + "\n";
    assert text[|a|] == '\r' && text[|a| + 1] == '\n';
    LoneAt(b, "\n", "");
    LoneAt(a, "\r\n", b + "\n" + "");
    assert text == a + "\r\n" + (b + "\n" + "");
    EmptyUpsertKeepsText(text);
  }
}
