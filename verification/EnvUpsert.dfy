// Setting KEY=value lines in a .env text, and which lines both readers take for a key's.
module EnvUpsert {
  import opened Prelude
  import opened EnvText

  /** `Object.entries(values)`: keys are distinct (`DistinctKeys`). */
  type Entries = seq<(string, string)>

  predicate DistinctKeys(e: Entries) { forall i, j :: 0 <= i < j < |e| ==> e[i].0 != e[j].0 }

  predicate Upper(c: char) { 'A' <= c <= 'Z' }

  /** The key pattern. */
  predicate ValidKey(k: string) {
    k != "" && Upper(k[0]) && forall i :: 0 <= i < |k| ==> Upper(k[i]) || '0' <= k[i] <= '9' || k[i] == '_'
  }

  predicate SingleLine(v: string) { '\r' !in v && '\n' !in v }

  predicate Acceptable(entry: (string, string)) { ValidKey(entry.0) && SingleLine(entry.1) }

  predicate Accepted(values: Entries) { forall i :: 0 <= i < |values| ==> Acceptable(values[i]) }

  // ----- The pending map ---------------------------------------------------------------

  predicate Has(pending: Entries, key: string) { exists i :: 0 <= i < |pending| && pending[i].0 == key }

  function ValueFor(pending: Entries, key: string): string
    requires Has(pending, key)
  {
    if pending[0].0 == key then pending[0].1
    else
      assert Has(pending[1..], key) by {
        var i :| 0 <= i < |pending| && pending[i].0 == key;
        assert pending[1..][i - 1].0 == key;
      }
      ValueFor(pending[1..], key)
  }

  function Remove(pending: Entries, key: string): Entries {
    if pending == [] then []
    else (if pending[0].0 == key then [] else [pending[0]]) + Remove(pending[1..], key)
  }

  lemma {:induction false} RemoveProperties(pending: Entries, key: string)
    ensures !Has(Remove(pending, key), key)
    ensures forall k :: k != key ==> (Has(Remove(pending, key), k) <==> Has(pending, k))
    ensures forall k :: k != key && Has(pending, k) ==> ValueFor(Remove(pending, key), k) == ValueFor(pending, k)
    ensures Accepted(pending) ==> Accepted(Remove(pending, key))
  {
    if pending != [] {
      RemoveProperties(pending[1..], key);
      HasSplit(pending);
      var rest := Remove(pending[1..], key);
      if pending[0].0 == key {
        assert Remove(pending, key) == rest;
      } else {
        assert Remove(pending, key) == [pending[0]] + rest && ([pending[0]] + rest)[1..] == rest;
        HasSplit([pending[0]] + rest);
      }
    }
  }

  lemma HasSplit(pending: Entries)
    requires pending != []
    ensures forall k :: Has(pending, k) <==> pending[0].0 == k || Has(pending[1..], k)
    ensures Accepted(pending) <==> Acceptable(pending[0]) && Accepted(pending[1..])
  {
    forall k ensures Has(pending, k) <==> pending[0].0 == k || Has(pending[1..], k) {
      if Has(pending[1..], k) {
        var i :| 0 <= i < |pending[1..]| && pending[1..][i].0 == k;
        assert pending[i + 1].0 == k;
      }
      if Has(pending, k) && pending[0].0 != k {
        var i :| 0 <= i < |pending| && pending[i].0 == k;
        assert pending[1..][i - 1].0 == k;
      }
    }
    assert forall i :: 1 <= i < |pending| ==> pending[i] == pending[1..][i - 1];
  }

  // ----- The upsert ----------------------------------------------------------------------

  function Assignment(key: string, value: string): string { key + "=" + value }

  /** The key of a line as the upsert reads it. */
  function UpsertKey(line: string): Option<string> {
    var eq := IndexOf(line, '=');
    if eq == -1 || (TrimStart(line) != "" && TrimStart(line)[0] == '#') then None
    else Some(Trim(line[..eq]))
  }

  predicate Hits(line: string, pending: Entries) { UpsertKey(line).Some? && Has(pending, UpsertKey(line).value) }

  datatype Walk = Walk(lines: seq<string>, pending: Entries)

  /** One line of the walk, and what stays pending behind it. */
  function Rewrite(line: string, pending: Entries): (string, Entries) {
    if Hits(line, pending) then
      var key := UpsertKey(line).value;
      (Assignment(key, ValueFor(pending, key)), Remove(pending, key))
    else (line, pending)
  }

  /** `lines.map(...)`: the first line of each pending key is replaced. */
  function Update(lines: seq<string>, pending: Entries): Walk {
    if lines == [] then Walk([], pending)
    else
      var (line, left) := Rewrite(lines[0], pending);
      var rest := Update(lines[1..], left);
      Walk([line] + rest.lines, rest.pending)
  }

  lemma UpdateStep(lines: seq<string>, pending: Entries, i: nat, before: seq<string>)
    requires i < |lines|
    ensures var (line, left) := Rewrite(lines[i], pending);
            && Update(lines[i..], pending).pending == Update(lines[i + 1..], left).pending
            && before + Update(lines[i..], pending).lines == before + [line] + Update(lines[i + 1..], left).lines
  {
    assert lines[i..][1..] == lines[i + 1..];
  }

  function DropBlanks(lines: seq<string>): seq<string> {
    if lines != [] && lines[|lines| - 1] == "" then DropBlanks(lines[..|lines| - 1]) else lines
  }

  function Appended(pending: Entries): seq<string> {
    seq(|pending|, i requires 0 <= i < |pending| => Assignment(pending[i].0, pending[i].1))
  }

  function LinesOf(text: string): seq<string> { if text == "" then [] else Split(text) }

  function FinalLines(text: string, values: Entries): seq<string> {
    var walk := Update(LinesOf(text), values);
    DropBlanks(walk.lines) + Appended(walk.pending)
  }

  predicate HasCrlf(text: string) { exists i :: 0 <= i < |text| - 1 && text[i] == '\r' && text[i + 1] == '\n' }

  function Newline(text: string): string { if HasCrlf(text) then "\r\n" else "\n" }

  function Join(lines: seq<string>, newline: string): string {
    if lines == [] then ""
    else if |lines| == 1 then lines[0]
    else lines[0] + newline + Join(lines[1..], newline)
  }

  function Upsert(text: string, values: Entries): string {
    Join(FinalLines(text, values), Newline(text)) + Newline(text)
  }

  /** The walk over the lines, taking each key off the pending map as it is written. */
  method UpdateLines(lines: seq<string>, values: Entries) returns (updated: seq<string>, pending: Entries)
    ensures Update(lines, values) == Walk(updated, pending)
  {
    updated, pending := [], values;
    for i := 0 to |lines|
      invariant Update(lines, values).lines == updated + Update(lines[i..], pending).lines
      invariant Update(lines, values).pending == Update(lines[i..], pending).pending
    {
      var line := lines[i];
      UpdateStep(lines, pending, i, updated);
      var eq := IndexOf(line, '=');
      if eq == -1 || (TrimStart(line) != "" && TrimStart(line)[0] == '#') {
        updated := updated + [line];
        continue;
      }
      var key := Trim(line[..eq]);
      if !Has(pending, key) {
        updated := updated + [line];
        continue;
      }
      var value := ValueFor(pending, key);
      pending := Remove(pending, key);
      updated := updated + [Assignment(key, value)];
    }
  }

  method Validate(values: Entries) returns (accepted: bool)
    ensures accepted <==> Accepted(values)
  {
    for i := 0 to |values|
      invariant Accepted(values[..i])
    {
      if !ValidKey(values[i].0) || !SingleLine(values[i].1) {
        assert !Acceptable(values[i]);
        return false;
      }
    }
    assert values[..|values|] == values;
    return true;
  }

  /** `while (... === "") updated.pop()`. */
  method PopBlanks(lines: seq<string>) returns (kept: seq<string>)
    ensures kept == DropBlanks(lines)
  {
    kept := lines;
    while kept != [] && kept[|kept| - 1] == ""
      invariant DropBlanks(kept) == DropBlanks(lines)
    {
      kept := kept[..|kept| - 1];
    }
  }

  /** `for (const [key, value] of pending) updated.push(...)`. */
  method PushPending(lines: seq<string>, pending: Entries) returns (all: seq<string>)
    ensures all == lines + Appended(pending)
  {
    all := lines;
    for i := 0 to |pending|
      invariant all == lines + Appended(pending[..i])
    {
      all := all + [Assignment(pending[i].0, pending[i].1)];
    }
    assert pending[..|pending|] == pending;
  }

  /** A file that may be missing; a missing file reads as empty text. */
  class EnvFile {
    var content: Option<string>

    /** Refuses before it reads anything. */
    method UpsertEnvValues(values: Entries) returns (accepted: bool)
      modifies this
      ensures accepted <==> Accepted(values)
      ensures !accepted ==> content == old(content)
      ensures accepted ==> content == Some(Upsert(if old(content).Some? then old(content).value else "", values))
    {
      accepted := Validate(values);
      if !accepted { return; }
      var original := if content.Some? then content.value else "";
      var newline := if HasCrlf(original) then "\r\n" else "\n";
      var lines := if |original| != 0 then Split(original) else [];
      var updated, pending := UpdateLines(lines, values);
      updated := PopBlanks(updated);
      updated := PushPending(updated, pending);
      content := Some(Join(updated, newline) + newline);
    }
  }

  // ----- Both readers see the same keys -------------------------------------------------

  lemma ValidKeyIsTight(k: string)
    requires ValidKey(k)
    ensures Tight(k) && Trim(k) == k && '=' !in k && '\n' !in k && k != "__proto__"
  {
    TrimOf("", k, "");
    assert "" + k + "" == k;
    assert "__proto__"[0] == '_';
  }

  lemma SpacesTrimAway(s: string)
    requires AllSpaces(s)
    ensures Trim(s) == ""
  {
    TrimOf(s, "", "");
    assert s + "" + "" == s;
  }

  /** Trimming such a line cuts the value only. */
  lemma AssignmentTrimmed(k: string, v: string) returns (tail: string)
    requires ValidKey(k)
    ensures Trim(Assignment(k, v)) == k + "=" + tail && Trim(tail) == Trim(v)
  {
    var before, after := TrimParts(v);
    var w := Trim(v);
    if w == "" {
      tail := "";
      assert v == before + after;
      assert Assignment(k, v) == "" + (k + "=") + v;
      TrimOf("", k + "=", v);
      SpacesTrimAway("");
    } else {
      tail := before + w;
      assert Assignment(k, v) == "" + (k + "=" + tail) + after;
      TrimOf("", k + "=" + tail, after);
      TrimOf(before, w, "");
      assert before + w + "" == tail;
    }
    assert k + "=" + "" == k + "=";
  }

  /** A line of the form key=value is that assignment. */
  lemma AssignmentParses(k: string, v: string)
    requires ValidKey(k)
    ensures ParseLine(Assignment(k, v)) == Some((k, ValueOf(v)))
    ensures UpsertKey(Assignment(k, v)) == Some(k)
  {
    ValidKeyIsTight(k);
    var line := Assignment(k, v);
    var tail := AssignmentTrimmed(k, v);
    var kept := k + "=" + tail;
    assert kept[..|k|] == k && kept[|k| + 1..] == tail && line[..|k|] == k;
    IndexIs(kept, '=', |k|);
    IndexIs(line, '=', |k|);
  }

  /** On any line, the upsert finds a valid key exactly when the parser does. */
  lemma SameKeys(line: string, k: string)
    requires ValidKey(k)
    ensures UpsertKey(line) == Some(k) <==> Assigns(line, k)
  {
    ValidKeyIsTight(k);
    var before, after := TrimParts(line);
    var t := Trim(line);
    if t == "" {
      assert forall i :: 0 <= i < |line| ==> IsSpace(line[i]);
      assert IndexOf(line, '=') == -1;
    } else {
      assert line == before + (t + after);
      TrimStartOf(before, t + after);
      var eq := IndexOf(t, '=');
      if eq == -1 {
        assert '=' !in line;
      } else {
        assert line[..|before| + eq] == before + t[..eq];
        IndexIs(line, '=', |before| + eq);
        TrimPrefix(before, t[..eq]);
        if eq == 0 { SpacesTrimAway(""); }
      }
    }
  }

  lemma TrimPrefix(before: string, s: string)
    requires AllSpaces(before)
    ensures Trim(before + s) == Trim(s)
  {
    var b, a := TrimParts(s);
    TrimOf(before + b, Trim(s), a);
    assert before + s == before + b + Trim(s) + a;
  }

  lemma BlankAssignsNothing(key: string)
    ensures !Assigns("", key) && UpsertKey("") == None
  {
    SpacesTrimAway("");
  }
}
