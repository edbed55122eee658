// Parsing an upserted .env text: key by key, and when it is the old map overridden by the values.
module EnvLaws {
  import opened Prelude
  import opened EnvText
  import opened EnvUpsert

  // ----- The walk ----------------------------------------------------------------

  lemma {:induction false} RemoveKeepsDistinct(pending: Entries, key: string)
    requires DistinctKeys(pending)
    ensures DistinctKeys(Remove(pending, key))
  {
    if pending != [] {
      RemoveKeepsDistinct(pending[1..], key);
      RemoveProperties(pending[1..], key);
      var rest := Remove(pending[1..], key);
      if pending[0].0 == key {
        assert Remove(pending, key) == rest;
      } else {
        forall i | 0 <= i < |rest| ensures rest[i].0 != pending[0].0 {
          assert Has(rest, rest[i].0);
          if rest[i].0 != key {
            var j :| 0 <= j < |pending[1..]| && pending[1..][j].0 == rest[i].0;
            assert pending[j + 1].0 == rest[i].0;
          }
        }
      }
    }
  }

  lemma PendingIsValid(pending: Entries, key: string)
    requires Accepted(pending) && Has(pending, key)
    ensures ValidKey(key)
  {
    var i :| 0 <= i < |pending| && pending[i].0 == key;
    assert Acceptable(pending[i]);
  }

  /** The walk replaces a pending key's first line and takes it off; other keys keep their lines. */
  ghost predicate WalkedFor(lines: seq<string>, pending: Entries, k: string) {
    var walk := Update(lines, pending);
    && Count(walk.lines, k) == Count(lines, k)
    && (Has(walk.pending, k) <==> Has(pending, k) && Count(lines, k) == 0)
    && (Has(walk.pending, k) ==> ValueFor(walk.pending, k) == ValueFor(pending, k))
    && Find(walk.lines, k) ==
       if Has(pending, k) && Count(lines, k) == 1 then Some(ValueOf(ValueFor(pending, k))) else Find(lines, k)
  }

  lemma {:induction false} WalkKeepsPending(lines: seq<string>, pending: Entries)
    requires Accepted(pending) && DistinctKeys(pending)
    ensures Accepted(Update(lines, pending).pending) && DistinctKeys(Update(lines, pending).pending)
  {
    if lines != [] {
      var (line, left) := Rewrite(lines[0], pending);
      if Hits(lines[0], pending) {
        RemoveProperties(pending, UpsertKey(lines[0]).value);
        RemoveKeepsDistinct(pending, UpsertKey(lines[0]).value);
      }
      WalkKeepsPending(lines[1..], left);
    }
  }

  /** What one rewritten line assigns. */
  lemma RewriteAssigns(line: string, pending: Entries, k: string)
    requires Accepted(pending)
    ensures var (written, left) := Rewrite(line, pending);
            && Accepted(left)
            && (Assigns(written, k) <==> Assigns(line, k))
            && (Has(left, k) <==> Has(pending, k) && !Assigns(line, k))
            && (Has(left, k) ==> ValueFor(left, k) == ValueFor(pending, k))
            && (Assigns(line, k) ==>
                  ParseLine(written).value.1 ==
                  if Has(pending, k) then ValueOf(ValueFor(pending, k)) else ParseLine(line).value.1)
  {
    if Hits(line, pending) {
      var key := UpsertKey(line).value;
      PendingIsValid(pending, key);
      SameKeys(line, key);
      AssignmentParses(key, ValueFor(pending, key));
      RemoveProperties(pending, key);
    } else if Has(pending, k) {
      PendingIsValid(pending, k);
      SameKeys(line, k);
    }
  }

  lemma {:induction false} WalkFinds(lines: seq<string>, pending: Entries, k: string)
    requires Accepted(pending)
    ensures WalkedFor(lines, pending, k)
  {
    if lines != [] {
      var (line, left) := Rewrite(lines[0], pending);
      RewriteAssigns(lines[0], pending, k);
      WalkFinds(lines[1..], left, k);
      CountPositive(lines[1..], k);
      var rest := Update(lines[1..], left).lines;
      CountPositive(rest, k);
      assert ([line] + rest)[1..] == rest;
    }
  }

  lemma {:induction false} AppendedFinds(pending: Entries, k: string)
    requires Accepted(pending) && DistinctKeys(pending)
    ensures Find(Appended(pending), k) == if Has(pending, k) then Some(ValueOf(ValueFor(pending, k))) else None
  {
    if pending != [] {
      assert Appended(pending)[1..] == Appended(pending[1..]);
      assert forall i :: 0 <= i < |pending[1..]| ==> pending[1..][i] == pending[i + 1];
      AppendedFinds(pending[1..], k);
      HasSplit(pending);
      AssignmentParses(pending[0].0, pending[0].1);
      if Has(pending[1..], k) {
        var i :| 0 <= i < |pending[1..]| && pending[1..][i].0 == k;
        assert pending[i + 1].0 == k && pending[0].0 != k;
      }
    }
  }

  lemma {:induction false} BlanksAssignNothing(lines: seq<string>, k: string)
    ensures Find(DropBlanks(lines), k) == Find(lines, k)
  {
    if lines != [] && lines[|lines| - 1] == "" {
      var init := lines[..|lines| - 1];
      BlanksAssignNothing(init, k);
      BlankAssignsNothing(k);
      assert lines == init + [""];
      FindConcat(init, [""], k);
      assert [""][1..] == [];
    }
  }

  /** The last assignment of each key in the final lines. */
  lemma FinalFinds(text: string, values: Entries, k: string)
    requires Accepted(values) && DistinctKeys(values)
    ensures Find(FinalLines(text, values), k) ==
            if Has(values, k) && Count(LinesOf(text), k) <= 1 then Some(ValueOf(ValueFor(values, k)))
            else Find(LinesOf(text), k)
  {
    var lines := LinesOf(text);
    var walk := Update(lines, values);
    WalkFinds(lines, values, k);
    WalkKeepsPending(lines, values);
    AppendedFinds(walk.pending, k);
    BlanksAssignNothing(walk.lines, k);
    FindConcat(DropBlanks(walk.lines), Appended(walk.pending), k);
    CountPositive(lines, k);
  }

  // ----- Writing and splitting ------------------------------------------------------------

  predicate NoNewlines(lines: seq<string>) { forall line :: line in lines ==> '\n' !in line }

  predicate IsNewline(newline: string) { newline == "\n" || newline == "\r\n" }

  /** Reading back a line written with `newline`. */
  function Reread(line: string, newline: string): string { if newline == "\n" then Chomp(line) else line }

  function RereadAll(lines: seq<string>, newline: string): seq<string> {
    seq(|lines|, i requires 0 <= i < |lines| => Reread(lines[i], newline))
  }

  lemma SplitOne(line: string, newline: string, rest: string)
    requires '\n' !in line && IsNewline(newline)
    ensures Split(line + newline + rest) == [Reread(line, newline)] + Split(rest)
  {
    if newline == "\n" {
      SplitAt(line, rest);
    } else {
      assert line + newline + rest == (line + "\r") + "\n" + rest;
      SplitAt(line + "\r", rest);
      assert (line + "\r")[..|line|] == line;
    }
  }

  lemma JoinStep(lines: seq<string>, newline: string)
    requires |lines| >= 2
    ensures Join(lines, newline) + newline == lines[0] + newline + (Join(lines[1..], newline) + newline)
    ensures RereadAll(lines, newline) == [Reread(lines[0], newline)] + RereadAll(lines[1..], newline)
  {
  }

  lemma SplitWrittenOne(line: string, newline: string)
    requires '\n' !in line && IsNewline(newline)
    ensures Split(Join([line], newline) + newline) == RereadAll([line], newline) + [""]
  {
    assert Join([line], newline) + newline == line + newline + "";
    SplitOne(line, newline, "");
    assert RereadAll([line], newline) == [Reread(line, newline)];
  }

  lemma ReassociateLines(a: seq<string>, b: seq<string>, c: seq<string>)
    ensures a + (b + c) == a + b + c
  {
  }

  lemma {:induction false} SplitWritten(lines: seq<string>, newline: string)
    requires lines != [] && NoNewlines(lines) && IsNewline(newline)
    ensures Split(Join(lines, newline) + newline) == RereadAll(lines, newline) + [""]
  {
    if |lines| == 1 {
      assert lines == [lines[0]];
      SplitWrittenOne(lines[0], newline);
    } else {
      var rest := Join(lines[1..], newline) + newline;
      SplitWritten(lines[1..], newline);
      JoinStep(lines, newline);
      SplitOne(lines[0], newline, rest);
      ReassociateLines([Reread(lines[0], newline)], RereadAll(lines[1..], newline), [""]);
    }
  }

  lemma ChompParsesAlike(line: string)
    ensures ParseLine(Chomp(line)) == ParseLine(line) && UpsertKey(Chomp(line)) == UpsertKey(line)
  {
    if EndsInCr(line) {
      var short := Chomp(line);
      assert Trim(line) == Trim(short);
      assert line == short + "\r";
      ChompKeepsKey(short);
    }
  }

  lemma ChompKeepsKey(short: string)
    ensures UpsertKey(short + "\r") == UpsertKey(short)
  {
    var line := short + "\r";
    var eq := IndexOf(short, '=');
    if eq != -1 {
      assert line[..eq] == short[..eq];
      IndexIs(line, '=', eq);
      var before := TrimStartParts(short);
      assert eq < |before| ==> IsSpace(short[eq]);
      assert |before| <= eq && TrimStart(short) != "";
      assert line == before + (TrimStart(short) + "\r");
      TrimStartOf(before, TrimStart(short) + "\r");
    } else {
      assert '=' !in line;
    }
  }

  lemma {:induction false} RereadFinds(lines: seq<string>, newline: string, k: string)
    requires IsNewline(newline)
    ensures Find(RereadAll(lines, newline), k) == Find(lines, k)
  {
    if lines != [] {
      RereadFinds(lines[1..], newline, k);
      assert RereadAll(lines, newline)[1..] == RereadAll(lines[1..], newline);
      ChompParsesAlike(lines[0]);
    }
  }

  lemma {:induction false} WalkHasNoNewlines(lines: seq<string>, pending: Entries)
    requires NoNewlines(lines) && Accepted(pending)
    ensures NoNewlines(Update(lines, pending).lines)
  {
    if lines != [] {
      var (line, left) := Rewrite(lines[0], pending);
      if Hits(lines[0], pending) {
        var key := UpsertKey(lines[0]).value;
        PendingIsValid(pending, key);
        ValidKeyIsTight(key);
        ValueIsSingleLine(pending, key);
        RemoveProperties(pending, key);
      }
      WalkHasNoNewlines(lines[1..], left);
    }
  }

  lemma {:induction false} ValueIsSingleLine(pending: Entries, key: string)
    requires Accepted(pending) && Has(pending, key)
    ensures SingleLine(ValueFor(pending, key))
  {
    HasSplit(pending);
    if pending[0].0 != key { ValueIsSingleLine(pending[1..], key); }
  }

  lemma {:induction false} DropBlanksIsPrefix(lines: seq<string>)
    ensures DropBlanks(lines) <= lines
    ensures DropBlanks(lines) != [] ==> DropBlanks(lines)[|DropBlanks(lines)| - 1] != ""
  {
    if lines != [] && lines[|lines| - 1] == "" { DropBlanksIsPrefix(lines[..|lines| - 1]); }
  }

  lemma AppendedIsClean(pending: Entries)
    requires Accepted(pending)
    ensures forall line :: line in Appended(pending) ==> '\n' !in line && !EndsInCr(line) && line != ""
  {
    forall line | line in Appended(pending) ensures '\n' !in line && !EndsInCr(line) && line != "" {
      var i :| 0 <= i < |pending| && line == Assignment(pending[i].0, pending[i].1);
      assert Acceptable(pending[i]);
      ValidKeyIsTight(pending[i].0);
      AssignmentEnd(pending[i].0, pending[i].1);
    }
  }

  lemma AssignmentEnd(key: string, value: string)
    requires SingleLine(value)
    ensures !EndsInCr(Assignment(key, value))
  {
    var line := Assignment(key, value);
    assert value != "" ==> line[|line| - 1] == value[|value| - 1];
  }

  lemma FinalHasNoNewlines(text: string, values: Entries)
    requires Accepted(values) && DistinctKeys(values)
    ensures NoNewlines(FinalLines(text, values))
  {
    var walk := Update(LinesOf(text), values);
    SplitHasNoNewlines(text);
    WalkHasNoNewlines(LinesOf(text), values);
    WalkKeepsPending(LinesOf(text), values);
    DropBlanksIsPrefix(walk.lines);
    AppendedIsClean(walk.pending);
  }

  // ----- Parsing what was written ----------------------------------------------------------

  lemma EmptyTextFinds(text: string, k: string)
    ensures Find(LinesOf(text), k) == Find(Split(text), k)
  {
    if text == "" {
      BlankAssignsNothing(k);
      assert [""][1..] == [];
    }
  }

  lemma WrittenFinds(lines: seq<string>, newline: string, k: string)
    requires NoNewlines(lines) && IsNewline(newline)
    ensures Find(Split(Join(lines, newline) + newline), k) == Find(lines, k)
  {
    BlankAssignsNothing(k);
    if lines == [] {
      assert Join(lines, newline) + newline == "" + newline + "";
      SplitOne("", newline, "");
      assert [""][1..] == [] && (["", ""])[1..] == [""];
    } else {
      SplitWritten(lines, newline);
      FindConcat(RereadAll(lines, newline), [""], k);
      assert [""][1..] == [];
      RereadFinds(lines, newline, k);
    }
  }

  /** Key by key: an updated key reads as its new value unless the text assigned it twice or more;
      then, and for any other key, the last assignment of the text still stands. */
  lemma UpsertedKey(text: string, values: Entries, k: string)
    requires Accepted(values) && DistinctKeys(values)
    ensures k in Parse(text) <==> Count(LinesOf(text), k) > 0
    ensures k in Parse(Upsert(text, values)) <==> k in Parse(text) || Has(values, k)
    ensures k in Parse(Upsert(text, values)) ==>
              Parse(Upsert(text, values))[k] ==
              if Has(values, k) && Count(LinesOf(text), k) <= 1 then ValueOf(ValueFor(values, k)) else Parse(text)[k]
  {
    FinalFinds(text, values, k);
    FinalHasNoNewlines(text, values);
    WrittenFinds(FinalLines(text, values), Newline(text), k);
    EmptyTextFinds(text, k);
    ParsedIsFound(Split(text), k);
    ParsedIsFound(Split(Upsert(text, values)), k);
    CountPositive(LinesOf(text), k);
  }

  function Keys(values: Entries): (keys: set<string>)
    ensures forall k :: k in keys <==> Has(values, k)
  {
    set i | 0 <= i < |values| :: values[i].0
  }

  function Overridden(m: Values, values: Entries): Values {
    map k | k in m.Keys + Keys(values) :: if Has(values, k) then ValueOf(ValueFor(values, k)) else m[k]
  }

  /** An updated key that the text assigns twice or more must already end up with the new value. */
  predicate Settles(text: string, values: Entries, k: string) {
    Has(values, k) && Count(LinesOf(text), k) >= 2 ==>
      k in Parse(text) && Parse(text)[k] == ValueOf(ValueFor(values, k))
  }

  lemma KeyLaw(text: string, values: Entries, k: string)
    requires Accepted(values) && DistinctKeys(values)
    ensures k in Overridden(Parse(text), values) <==> k in Parse(Upsert(text, values))
    ensures k in Overridden(Parse(text), values) ==>
              (Parse(Upsert(text, values))[k] == Overridden(Parse(text), values)[k] <==> Settles(text, values, k))
    ensures k !in Overridden(Parse(text), values) ==> Settles(text, values, k)
  {
    UpsertedKey(text, values, k);
  }

  /** Parsing the upserted text gives the old map overridden by the trimmed and unquoted values,
      exactly when no updated key is assigned twice with a last value other than the new one. */
  lemma UpsertThenParse(text: string, values: Entries)
    requires Accepted(values) && DistinctKeys(values)
    ensures Parse(Upsert(text, values)) == Overridden(Parse(text), values) <==> forall k :: Settles(text, values, k)
  {
    var after, target := Parse(Upsert(text, values)), Overridden(Parse(text), values);
    forall k
      ensures k in target <==> k in after
      ensures k in target ==> (after[k] == target[k] <==> Settles(text, values, k))
      ensures k !in target ==> Settles(text, values, k)
    {
      KeyLaw(text, values, k);
    }
    SameMap(after, target, set k | k in target && Settles(text, values, k));
  }

  /** Two maps over the same keys are equal exactly when they agree on all of them. */
  lemma SameMap(a: Values, b: Values, agreed: set<string>)
    requires a.Keys == b.Keys && forall k :: k in agreed <==> k in b && a[k] == b[k]
    ensures a == b <==> forall k :: k in b ==> k in agreed
  {
  }

  lemma SplitNoNewline(line: string)
    requires '\n' !in line
    ensures Split(line) == [line]
  {
  }

  lemma AssignmentIsOneLine(k: string, v: string)
    requires ValidKey(k) && SingleLine(v)
    ensures '\n' !in Assignment(k, v) && !EndsInCr(Assignment(k, v))
  {
    ValidKeyIsTight(k);
    AssignmentEnd(k, v);
  }

  /** Two assignments of one key: the first is replaced, and the second still decides. */
  lemma SecondAssignmentDecides(k: string, a: string, b: string, c: string)
    requires ValidKey(k) && SingleLine(a) && SingleLine(b) && SingleLine(c) && ValueOf(b) != ValueOf(c)
    ensures var text, values := Assignment(k, a) + "\n" + Assignment(k, b), [(k, c)];
            && Accepted(values) && DistinctKeys(values)
            && Parse(Upsert(text, values)) != Overridden(Parse(text), values)
  {
    var first, second := Assignment(k, a), Assignment(k, b);
    var text, values := first + "\n" + second, [(k, c)];
    AssignmentIsOneLine(k, a);
    AssignmentIsOneLine(k, b);
    SplitAt(first, second);
    SplitNoNewline(second);
    var lines := [first] + [second];
    assert LinesOf(text) == lines;
    AssignedTwice(k, a, b);
    ParsedIsFound(Split(text), k);
    assert values[0].0 == k;
    assert Has(values, k) && ValueFor(values, k) == c;
    UpsertThenParse(text, values);
    assert !Settles(text, values, k);
  }

  lemma AssignedTwice(k: string, a: string, b: string)
    requires ValidKey(k)
    ensures var lines := [Assignment(k, a)] + [Assignment(k, b)];
            Count(lines, k) == 2 && Find(lines, k) == Some(ValueOf(b))
  {
    var first, second := Assignment(k, a), Assignment(k, b);
    AssignmentParses(k, a);
    AssignmentParses(k, b);
    assert ([first] + [second])[1..] == [second] && [second][1..] == [];
    assert Count([second], k) == 1 && Find([second], k) == Some(ValueOf(b));
  }
}
