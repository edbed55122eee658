// Reading .env text: JavaScript's trim, line splitting, and KEY=value lines.
module EnvText {
  import opened Prelude

  // ----- Trimming ---------------------------------------------------------------

  /** The characters `String.prototype.trim` removes. */
  predicate IsSpace(c: char) {
    || c in {'\t', '\n', '\U{000B}', '\U{000C}', '\r', ' ', '\U{00A0}', '\U{1680}'}
    || '\U{2000}' <= c <= '\U{200A}'
    || c in {'\U{2028}', '\U{2029}', '\U{202F}', '\U{205F}', '\U{3000}', '\U{FEFF}'}
  }

  predicate AllSpaces(s: string) { forall i :: 0 <= i < |s| ==> IsSpace(s[i]) }

  function TrimStart(s: string): string {
    if s != "" && IsSpace(s[0]) then TrimStart(s[1..]) else s
  }

  function TrimEnd(s: string): string {
    if s != "" && IsSpace(s[|s| - 1]) then TrimEnd(s[..|s| - 1]) else s
  }

  function Trim(s: string): string { TrimStart(TrimEnd(s)) }

  /** No space at either end. */
  predicate Tight(s: string) { s != "" ==> !IsSpace(s[0]) && !IsSpace(s[|s| - 1]) }

  lemma {:induction false} TrimStartParts(s: string) returns (before: string)
    ensures s == before + TrimStart(s) && AllSpaces(before)
    ensures TrimStart(s) != "" ==> !IsSpace(TrimStart(s)[0])
  {
    if s != "" && IsSpace(s[0]) {
      var rest := TrimStartParts(s[1..]);
      before := [s[0]] + rest;
    } else {
      before := "";
    }
  }

  lemma {:induction false} TrimEndParts(s: string) returns (after: string)
    ensures s == TrimEnd(s) + after && AllSpaces(after)
    ensures TrimEnd(s) != "" ==> !IsSpace(TrimEnd(s)[|TrimEnd(s)| - 1])
  {
    if s != "" && IsSpace(s[|s| - 1]) {
      var rest := TrimEndParts(s[..|s| - 1]);
      after := rest + [s[|s| - 1]];
    } else {
      after := "";
    }
  }

  lemma TrimParts(s: string) returns (before: string, after: string)
    ensures s == before + Trim(s) + after && AllSpaces(before) && AllSpaces(after) && Tight(Trim(s))
  {
    after := TrimEndParts(s);
    before := TrimStartParts(TrimEnd(s));
    assert Trim(s) != "" ==> Trim(s)[|Trim(s)| - 1] == TrimEnd(s)[|TrimEnd(s)| - 1];
  }

  lemma {:induction false} TrimStartOf(before: string, s: string)
    requires AllSpaces(before) && (s != "" ==> !IsSpace(s[0]))
    ensures TrimStart(before + s) == s
  {
    if before == "" {
      assert before + s == s;
    } else {
      assert (before + s)[1..] == before[1..] + s;
      TrimStartOf(before[1..], s);
    }
  }

  lemma {:induction false} TrimEndOf(s: string, after: string)
    requires AllSpaces(after) && (s != "" ==> !IsSpace(s[|s| - 1]))
    ensures TrimEnd(s + after) == s
  {
    if after == "" {
      assert s + after == s;
    } else {
      assert (s + after)[..|s + after| - 1] == s + after[..|after| - 1];
      TrimEndOf(s, after[..|after| - 1]);
    }
  }

  /** The trimmed part is the only tight text between spaces. */
  lemma TrimOf(before: string, s: string, after: string)
    requires AllSpaces(before) && AllSpaces(after) && Tight(s)
    ensures Trim(before + s + after) == s
  {
    if s == "" {
      assert before + s + after == "" + (before + after);
      TrimEndOf("", before + after);
    } else {
      TrimEndOf(before + s, after);
      TrimStartOf(before, s);
    }
  }

  // ----- Lines ----------------------------------------------------------------------

  /** `s.indexOf(c)`. */
  function IndexOf(s: string, c: char): (r: int)
    ensures r == -1 ==> c !in s
    ensures r != -1 ==> 0 <= r < |s| && s[r] == c && c !in s[..r]
  {
    if s == "" then -1
    else if s[0] == c then 0
    else
      var rest := IndexOf(s[1..], c);
      if rest == -1 then -1
      else
        assert s[..rest + 1] == [s[0]] + s[1..][..rest];
        rest + 1
  }

  lemma {:induction false} IndexIs(s: string, c: char, i: nat)
    requires i < |s| && s[i] == c && c !in s[..i]
    ensures IndexOf(s, c) == i
  {
    if i > 0 {
      assert s[..i] == [s[0]] + s[1..][..i - 1];
      assert s[..i][0] == s[0];
      IndexIs(s[1..], c, i - 1);
    }
  }

  predicate EndsInCr(s: string) { s != "" && s[|s| - 1] == '\r' }

  /** A line loses the one carriage return in front of its newline. */
  function Chomp(line: string): string { if EndsInCr(line) then line[..|line| - 1] else line }

  /** `text.split(/\r?\n/)`. */
  function Split(text: string): (lines: seq<string>)
    ensures |lines| >= 1
    decreases |text|
  {
    var i := IndexOf(text, '\n');
    if i == -1 then [text] else [Chomp(text[..i])] + Split(text[i + 1..])
  }

  lemma SplitAt(line: string, rest: string)
    requires '\n' !in line
    ensures Split(line + "\n" + rest) == [Chomp(line)] + Split(rest)
  {
    var text := line + "\n" + rest;
    assert text[..|line|] == line && text[|line| + 1..] == rest;
    IndexIs(text, '\n', |line|);
  }

  lemma {:induction false} SplitHasNoNewlines(text: string)
    ensures forall line :: line in Split(text) ==> '\n' !in line
    decreases |text|
  {
    var i := IndexOf(text, '\n');
    if i != -1 { SplitHasNoNewlines(text[i + 1..]); }
  }

  // ----- KEY=value lines --------------------------------------------------------------

  predicate LineTerminator(c: char) { c in {'\n', '\r', '\U{2028}', '\U{2029}'} }

  /** `s.replace(/^"(.*)"$/, "$1")`: the dot matches no line terminator. */
  function Unquote(s: string): string {
    if |s| >= 2 && s[0] == '"' && s[|s| - 1] == '"' && forall i :: 0 <= i < |s| ==> !LineTerminator(s[i])
    then s[1..|s| - 1]
    else s
  }

  /** A text loses its quotes exactly when it has one at either end and no line terminator inside. */
  lemma UnquotesExactlyWhen(s: string)
    ensures forall inner :: s == "\"" + inner + "\"" && (forall c :: c in inner ==> !LineTerminator(c)) ==> Unquote(s) == inner
    ensures Unquote(s) != s ==>
              s == "\"" + Unquote(s) + "\"" && forall c :: c in Unquote(s) ==> !LineTerminator(c)
  {
    forall inner | s == "\"" + inner + "\"" && (forall c :: c in inner ==> !LineTerminator(c)) ensures Unquote(s) == inner {
      assert s[1..|s| - 1] == inner;
      forall i | 0 <= i < |s| ensures !LineTerminator(s[i]) {
        if 0 < i < |s| - 1 { assert s[i] == inner[i - 1]; }
      }
    }
  }

  /** What parsing makes of an assigned value. */
  function ValueOf(value: string): string { Unquote(Trim(value)) }

  /** The assignment a line makes. Assigning text to `__proto__` changes no JavaScript object. */
  function ParseLine(raw: string): Option<(string, string)> {
    var line := Trim(raw);
    if line == "" || line[0] == '#' then None
    else
      var eq := IndexOf(line, '=');
      if eq <= 0 || Trim(line[..eq]) == "__proto__" then None
      else Some((Trim(line[..eq]), ValueOf(line[eq + 1..])))
  }

  type Values = map<string, string>

  function Assign(values: Values, raw: string): Values {
    match ParseLine(raw)
    case Some(entry) => values[entry.0 := entry.1]
    case None => values
  }

  function ParseLines(lines: seq<string>): Values {
    if lines == [] then map[] else Assign(ParseLines(lines[..|lines| - 1]), lines[|lines| - 1])
  }

  function Parse(text: string): Values { ParseLines(Split(text)) }

  method ParseEnvText(text: string) returns (values: Values)
    ensures values == Parse(text)
  {
    values := map[];
    var lines := Split(text);
    for i := 0 to |lines|
      invariant values == ParseLines(lines[..i])
    {
      assert lines[..i + 1][..i] == lines[..i];
      var line := Trim(lines[i]);
      if line == "" || line[0] == '#' { continue; }
      var eq := IndexOf(line, '=');
      if eq <= 0 { continue; }
      var key := Trim(line[..eq]);
      if key != "__proto__" {
        values := values[key := Unquote(Trim(line[eq + 1..]))];
      }
    }
    assert lines[..|lines|] == lines;
  }

  /** Does the line assign `key`? */
  predicate Assigns(line: string, key: string) { ParseLine(line).Some? && ParseLine(line).value.0 == key }

  /** The last assignment of `key`. */
  function Find(lines: seq<string>, key: string): Option<string> {
    if lines == [] then None
    else if Find(lines[1..], key).Some? then Find(lines[1..], key)
    else if Assigns(lines[0], key) then Some(ParseLine(lines[0]).value.1)
    else None
  }

  function Count(lines: seq<string>, key: string): nat {
    if lines == [] then 0 else (if Assigns(lines[0], key) then 1 else 0) + Count(lines[1..], key)
  }

  lemma {:induction false} FindConcat(a: seq<string>, b: seq<string>, key: string)
    ensures Find(a + b, key) == if Find(b, key).Some? then Find(b, key) else Find(a, key)
  {
    if a == [] {
      assert a + b == b;
    } else {
      assert (a + b)[1..] == a[1..] + b;
      FindConcat(a[1..], b, key);
    }
  }

  /** Parsing finds each key's last assignment. */
  lemma {:induction false} ParsedIsFound(lines: seq<string>, key: string)
    ensures key in ParseLines(lines) <==> Find(lines, key).Some?
    ensures key in ParseLines(lines) ==> Find(lines, key) == Some(ParseLines(lines)[key])
  {
    if lines != [] {
      var init, last := lines[..|lines| - 1], lines[|lines| - 1];
      ParsedIsFound(init, key);
      assert lines == init + [last];
      FindConcat(init, [last], key);
      assert [last][1..] == [];
    }
  }

  lemma {:induction false} CountPositive(lines: seq<string>, key: string)
    ensures Count(lines, key) > 0 <==> Find(lines, key).Some?
  {
    if lines != [] { CountPositive(lines[1..], key); }
  }
}
