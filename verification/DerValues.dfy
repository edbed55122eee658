// The values tls-certs.ts puts inside DER: integers, object identifiers, times and
// subject alternative names, each with the reader its standard prescribes.
module DerValues {
  import opened Prelude
  import opened Der

  // ----- INTEGER (section 8.3 of X.690) ------------------------------------

  function IntegerTree(value: int): Tlv { Prim(0x02, [value % 256]) }

  /** Two's complement value, most significant octet first. */
  function Signed(bs: octets): int
    requires bs != []
  {
    if |bs| == 1 then if bs[0] < 128 then bs[0] else bs[0] - 256
    else 256 * Signed(bs[..|bs| - 1]) + bs[|bs| - 1]
  }

  function ReadInteger(t: Tlv): Option<int> {
    if t.Prim? && t.tag == 0x02 && t.content != [] then Some(Signed(t.content)) else None
  }

  /** One octet is kept, so an integer is recovered exactly when it fits a signed octet. */
  lemma IntegerRoundTrip(value: int)
    ensures ReadInteger(IntegerTree(value)) == Some(value) <==> -128 <= value < 128
  {
  }

  // ----- OBJECT IDENTIFIER (section 8.19 of X.690) ---------------------------

  /** The continuation octets the `while (val > 0)` loop puts in front. */
  function HighOctets(val: int): octets
    decreases if val < 0 then 0 else val
  {
    if val <= 0 then [] else HighOctets(val / 128) + [val % 128 + 128]
  }

  function ArcOctets(arc: nat): octets {
    HighOctets(ToInt32(arc) / 128) + [ToInt32(arc) % 128]
  }

  function ArcsOctets(arcs: seq<nat>): octets {
    if arcs == [] then [] else ArcOctets(arcs[0]) + ArcsOctets(arcs[1..])
  }

  lemma {:induction false} ArcsOctetsAppend(arcs: seq<nat>, arc: nat)
    ensures ArcsOctets(arcs + [arc]) == ArcsOctets(arcs) + ArcOctets(arc)
  {
    if arcs == [] {
      assert ArcsOctets([arc]) == ArcOctets(arc) + ArcsOctets([]);
    } else {
      ArcsOctetsAppend(arcs[1..], arc);
      assert (arcs + [arc])[1..] == arcs[1..] + [arc];
    }
  }

  function OidContent(arcs: seq<nat>): octets
    requires |arcs| >= 2
  {
    [(40 * arcs[0] + arcs[1]) % 256] + ArcsOctets(arcs[2..])
  }

  function OidTree(arcs: seq<nat>): Tlv
    requires |arcs| >= 2
  {
    Prim(0x06, OidContent(arcs))
  }

  /** The inner loop of derOid: one arc, low digit first. */
  method ArcLoop(arc: nat) returns (encoded: octets)
    ensures encoded == ArcOctets(arc)
  {
    var val := ToInt32(arc);
    encoded := [val % 128];
    val := val / 128;
    while val > 0
      invariant ArcOctets(arc) == HighOctets(val) + encoded
      decreases if val < 0 then 0 else val
    {
      encoded := [val % 128 + 128] + encoded;
      val := val / 128;
    }
  }

  lemma ArcAdded(first: octet, parts: seq<nat>, i: nat)
    requires 2 <= i < |parts|
    ensures [first] + ArcsOctets(parts[2..i + 1]) == [first] + ArcsOctets(parts[2..i]) + ArcOctets(parts[i])
  {
    ArcsOctetsAppend(parts[2..i], parts[i]);
    assert parts[2..i + 1] == parts[2..i] + [parts[i]];
  }

  method DerOid(parts: seq<nat>) returns (r: octets)
    requires |parts| >= 2
    ensures r == Encode(OidTree(parts))
  {
    var first: octet := (40 * parts[0] + parts[1]) % 256;
    var bytes: octets := [first];
    for i := 2 to |parts|
      invariant bytes == [first] + ArcsOctets(parts[2..i])
    {
      var encoded := ArcLoop(parts[i]);
      ArcAdded(first, parts, i);
      bytes := bytes + encoded;
    }
    assert parts[2..|parts|] == parts[2..];
    r := DerTlv(0x06, bytes);
  }

  /** Reads base-128 digits up to and including the first octet below 128. */
  function ReadDigits(b: octets, acc: nat): (r: Option<(nat, octets)>)
    ensures r.Some? ==> |r.value.1| < |b|
  {
    if b == [] then None
    else if b[0] < 128 then Some((128 * acc + b[0], b[1..]))
    else ReadDigits(b[1..], 128 * acc + b[0] - 128)
  }

  /** One subidentifier; a leading 0x80 would be padding and is refused. */
  function ReadArc(b: octets): (r: Option<(nat, octets)>)
    ensures r.Some? ==> |r.value.1| < |b|
  {
    if b != [] && b[0] == 128 then None else ReadDigits(b, 0)
  }

  function ReadArcs(b: octets): Option<seq<nat>>
    decreases |b|
  {
    if b == [] then Some([])
    else
      var (arc, rest) :- ReadArc(b);
      var arcs :- ReadArcs(rest);
      Some([arc] + arcs)
  }

  function ReadOid(t: Tlv): Option<seq<nat>> {
    if t.Cons? || t.tag != 0x06 then None
    else
      var (x, rest) :- ReadArc(t.content);
      var arcs :- ReadArcs(rest);
      Some((if x < 40 then [0, x] else if x < 80 then [1, x - 40] else [2, x - 80]) + arcs)
  }

  /** What an arc is read back as: itself when it fits 31 bits. */
  function ArcRead(arc: nat): nat {
    if ToInt32(arc) / 128 > 0 then ToInt32(arc) else ToInt32(arc) % 128
  }

  lemma {:induction false} ReadHighOctets(val: nat, tail: octets)
    ensures ReadDigits(HighOctets(val) + tail, 0) == ReadDigits(tail, val)
    ensures val > 0 ==> HighOctets(val) != [] && HighOctets(val)[0] > 128
    decreases val
  {
    if val == 0 {
      assert HighOctets(val) + tail == tail;
    } else {
      var digit: octets := [val % 128 + 128];
      ReadHighOctets(val / 128, digit + tail);
      assert HighOctets(val) + tail == HighOctets(val / 128) + (digit + tail);
      assert (digit + tail)[1..] == tail;
      assert 128 * (val / 128) + val % 128 == val;
    }
  }

  /** An arc survives being written and read exactly when it fits 31 bits. */
  lemma ArcRoundTrip(arc: nat, suffix: octets)
    ensures ReadArc(ArcOctets(arc) + suffix) == Some((ArcRead(arc), suffix))
    ensures ArcRead(arc) == arc <==> arc < TWO_31
  {
    var m := ToInt32(arc);
    var tail := [m % 128] + suffix;
    assert tail[1..] == suffix;
    if m / 128 > 0 {
      ReadHighOctets(m / 128, tail);
      assert ArcOctets(arc) + suffix == HighOctets(m / 128) + tail;
    } else {
      assert ArcOctets(arc) + suffix == tail;
    }
  }

  function ArcsRead(arcs: seq<nat>): seq<nat> {
    if arcs == [] then [] else [ArcRead(arcs[0])] + ArcsRead(arcs[1..])
  }

  lemma {:induction false} ArcsRoundTrip(arcs: seq<nat>)
    ensures ReadArcs(ArcsOctets(arcs)) == Some(ArcsRead(arcs))
    ensures ArcsRead(arcs) == arcs <==> forall i :: 0 <= i < |arcs| ==> arcs[i] < TWO_31
  {
    if arcs != [] {
      ArcRoundTrip(arcs[0], ArcsOctets(arcs[1..]));
      ArcsRoundTrip(arcs[1..]);
      assert arcs == [arcs[0]] + arcs[1..];
      assert ArcsRead(arcs)[1..] == ArcsRead(arcs[1..]);
      assert (forall i :: 0 <= i < |arcs| ==> arcs[i] < TWO_31)
        <==> arcs[0] < TWO_31 && (forall i :: 0 <= i < |arcs[1..]| ==> arcs[1..][i] < TWO_31) by {
        if forall i :: 0 <= i < |arcs[1..]| ==> arcs[1..][i] < TWO_31 {
          forall i | 1 <= i < |arcs| ensures arcs[i] < TWO_31 { assert arcs[i] == arcs[1..][i - 1]; }
        }
      }
    }
  }

  /** How many subidentifiers end in `b`. */
  function LowCount(b: octets): nat {
    if b == [] then 0 else (if b[0] < 128 then 1 else 0) + LowCount(b[1..])
  }

  lemma {:induction false} LowCountAppend(a: octets, b: octets)
    ensures LowCount(a + b) == LowCount(a) + LowCount(b)
  {
    if a == [] {
      assert a + b == b;
    } else {
      LowCountAppend(a[1..], b);
      assert (a + b)[1..] == a[1..] + b;
    }
  }

  lemma {:induction false} LowCountHigh(val: int)
    ensures LowCount(HighOctets(val)) == 0
    decreases if val < 0 then 0 else val
  {
    if val > 0 {
      LowCountHigh(val / 128);
      LowCountAppend(HighOctets(val / 128), [val % 128 + 128]);
    }
  }

  lemma {:induction false} LowCountArcs(arcs: seq<nat>)
    ensures LowCount(ArcsOctets(arcs)) == |arcs|
  {
    if arcs != [] {
      LowCountHigh(ToInt32(arcs[0]) / 128);
      LowCountAppend(HighOctets(ToInt32(arcs[0]) / 128), [ToInt32(arcs[0]) % 128]);
      LowCountAppend(ArcOctets(arcs[0]), ArcsOctets(arcs[1..]));
      LowCountArcs(arcs[1..]);
    }
  }

  lemma {:induction false} LowCountDigits(b: octets, acc: nat)
    requires ReadDigits(b, acc).Some?
    ensures LowCount(b) == 1 + LowCount(ReadDigits(b, acc).value.1)
  {
    if b[0] >= 128 { LowCountDigits(b[1..], 128 * acc + b[0] - 128); }
  }

  lemma {:induction false} LowCountRead(b: octets)
    requires ReadArcs(b).Some?
    ensures |ReadArcs(b).value| == LowCount(b)
    decreases |b|
  {
    if b != [] {
      LowCountDigits(b, 0);
      LowCountRead(ReadArc(b).value.1);
    }
  }

  /** The identifiers the encoder supports: two root arcs that share one octet below 128,
      and every later arc within 31 bits. */
  ghost predicate OidSupported(arcs: seq<nat>) {
    && |arcs| >= 2
    && arcs[0] <= 2
    && (arcs[0] < 2 ==> arcs[1] < 40)
    && 40 * arcs[0] + arcs[1] < 128
    && forall i :: 0 <= i < |arcs[2..]| ==> arcs[2..][i] < TWO_31
  }

  lemma OidFirstOctetLow(arcs: seq<nat>)
    requires |arcs| >= 2 && (40 * arcs[0] + arcs[1]) % 256 < 128
    ensures var x := (40 * arcs[0] + arcs[1]) % 256;
            ReadOid(OidTree(arcs)) ==
              Some((if x < 40 then [0, x] else if x < 80 then [1, x - 40] else [2, x - 80]) + ArcsRead(arcs[2..]))
  {
    assert OidContent(arcs)[1..] == ArcsOctets(arcs[2..]);
    ArcsRoundTrip(arcs[2..]);
  }

  lemma OidFirstOctetHigh(arcs: seq<nat>)
    requires |arcs| >= 2 && (40 * arcs[0] + arcs[1]) % 256 >= 128
    ensures ReadOid(OidTree(arcs)) != Some(arcs)
  {
    var c := OidContent(arcs);
    if ReadOid(OidTree(arcs)).Some? {
      LowCountDigits(c, 0);
      LowCountRead(ReadArc(c).value.1);
      assert c[1..] == ArcsOctets(arcs[2..]);
      LowCountArcs(arcs[2..]);
    }
  }

  /** An object identifier is recovered exactly when it is one the encoder supports. */
  lemma OidRoundTrip(arcs: seq<nat>)
    requires |arcs| >= 2
    ensures ReadOid(OidTree(arcs)) == Some(arcs) <==> OidSupported(arcs)
  {
    var x := (40 * arcs[0] + arcs[1]) % 256;
    if x >= 128 {
      OidFirstOctetHigh(arcs);
    } else {
      OidFirstOctetLow(arcs);
      ArcsRoundTrip(arcs[2..]);
      var root := if x < 40 then [0, x] else if x < 80 then [1, x - 40] else [2, x - 80];
      var read := root + ArcsRead(arcs[2..]);
      assert read[2..] == ArcsRead(arcs[2..]);
      assert read[0] == root[0] && read[1] == root[1];
      assert arcs == [arcs[0], arcs[1]] + arcs[2..];
    }
  }

  // ----- UTCTime and GeneralizedTime (section 4.1.2.5 of RFC 5280) ------------

  /** The UTC fields of a JavaScript Date, `month` counted from 0; milliseconds are not written. */
  datatype UtcDate = UtcDate(year: int, month: nat, day: nat, hour: nat, minute: nat, second: nat)

  predicate InRange(d: UtcDate) {
    d.month < 12 && 1 <= d.day <= 31 && d.hour < 24 && d.minute < 60 && d.second < 60
  }

  /** `String(n)` in ASCII. */
  function Decimal(n: nat): octets {
    if n < 10 then [48 + n] else Decimal(n / 10) + [48 + n % 10]
  }

  function YearText(year: int): octets {
    if year < 0 then [45] + Decimal(-year) else Decimal(year)
  }

  /** `String(n).padStart(2, "0")`. */
  function Pad2(n: nat): octets {
    if |Decimal(n)| < 2 then [48] + Decimal(n) else Decimal(n)
  }

  function RestText(d: UtcDate): octets {
    Pad2(d.month + 1) + Pad2(d.day) + Pad2(d.hour) + Pad2(d.minute) + Pad2(d.second) + [90]
  }

  function TimeTree(d: UtcDate): Tlv {
    if 1950 <= d.year <= 2049 then Prim(0x17, Pad2(d.year % 100) + RestText(d))
    else Prim(0x18, YearText(d.year) + RestText(d))
  }

  predicate IsDigit(b: octet) { 48 <= b < 58 }

  predicate Digits(b: octets, n: nat)
    requires n <= |b|
  {
    forall k :: 0 <= k < n ==> IsDigit(b[k])
  }

  function Two(hi: octet, lo: octet): nat
    requires IsDigit(hi) && IsDigit(lo)
  {
    10 * (hi as int - 48) + (lo as int - 48)
  }

  /** Five two-digit fields and a `Z`. */
  function ReadRest(year: int, b: octets): Option<UtcDate>
    requires |b| == 11
  {
    if !Digits(b, 10) || b[10] != 90 || Two(b[0], b[1]) == 0 then None
    else
      var d := UtcDate(year, Two(b[0], b[1]) - 1, Two(b[2], b[3]), Two(b[4], b[5]),
                       Two(b[6], b[7]), Two(b[8], b[9]));
      if InRange(d) then Some(d) else None
  }

  function ReadTime(t: Tlv): Option<UtcDate> {
    if t.Cons? then None
    else if t.tag == 0x17 && |t.content| == 13 && Digits(t.content, 2) then
      var yy := Two(t.content[0], t.content[1]);
      ReadRest(if yy >= 50 then 1900 + yy else 2000 + yy, t.content[2..])
    else if t.tag == 0x18 && |t.content| == 15 && Digits(t.content, 4) then
      var year := 100 * Two(t.content[0], t.content[1]) + Two(t.content[2], t.content[3]);
      if 1950 <= year <= 2049 then None else ReadRest(year, t.content[4..])
    else None
  }

  lemma Pad2Digits(n: nat)
    requires n < 100
    ensures Pad2(n) == [48 + n / 10, 48 + n % 10]
    ensures IsDigit(48 + n / 10) && IsDigit(48 + n % 10) && Two(48 + n / 10, 48 + n % 10) == n
  {
    if n >= 10 { assert Decimal(n / 10) == [48 + n / 10]; }
  }

  lemma RestTextOctets(d: UtcDate)
    requires InRange(d)
    ensures |RestText(d)| == 11
    ensures RestText(d)[0..2] == Pad2(d.month + 1)
    ensures RestText(d)[2..4] == Pad2(d.day)
    ensures RestText(d)[4..6] == Pad2(d.hour)
    ensures RestText(d)[6..8] == Pad2(d.minute)
    ensures RestText(d)[8..10] == Pad2(d.second)
    ensures RestText(d)[10] == 90
  {
    Pad2Digits(d.month + 1);
    Pad2Digits(d.day);
    Pad2Digits(d.hour);
    Pad2Digits(d.minute);
    Pad2Digits(d.second);
  }

  /** A two-digit field inside a longer text. */
  lemma FieldAt(b: octets, i: nat, n: nat)
    requires i + 2 <= |b| && n < 100 && b[i..i + 2] == Pad2(n)
    ensures IsDigit(b[i]) && IsDigit(b[i + 1]) && Two(b[i], b[i + 1]) == n
  {
    Pad2Digits(n);
    assert b[i] == b[i..i + 2][0] && b[i + 1] == b[i..i + 2][1];
  }

  lemma ReadRestBack(d: UtcDate, year: int)
    requires InRange(d)
    ensures |RestText(d)| == 11 && ReadRest(year, RestText(d)) == Some(d.(year := year))
  {
    var b := RestText(d);
    RestTextOctets(d);
    FieldAt(b, 0, d.month + 1);
    FieldAt(b, 2, d.day);
    FieldAt(b, 4, d.hour);
    FieldAt(b, 6, d.minute);
    FieldAt(b, 8, d.second);
  }

  lemma DecimalLength(n: nat)
    ensures |Decimal(n)| >= 1
    ensures n < 10 <==> |Decimal(n)| == 1
    ensures n < 100 <==> |Decimal(n)| <= 2
    ensures n < 1000 <==> |Decimal(n)| <= 3
    ensures n < 10000 <==> |Decimal(n)| <= 4
  {
    if n >= 10 { DecimalLength(n / 10); }
  }

  lemma FourDigits(n: nat)
    requires 1000 <= n <= 9999
    ensures |Decimal(n)| == 4 && Digits(Decimal(n), 4)
    ensures 100 * Two(Decimal(n)[0], Decimal(n)[1]) + Two(Decimal(n)[2], Decimal(n)[3]) == n
  {
    var a, b, c := n / 10, n / 10 / 10, n / 10 / 10 / 10;
    assert Decimal(c) == [48 + c];
    assert Decimal(b) == [48 + c, 48 + b % 10];
    assert Decimal(a) == [48 + c, 48 + b % 10, 48 + a % 10];
    assert Decimal(n) == [48 + c, 48 + b % 10, 48 + a % 10, 48 + n % 10];
  }

  lemma TwoDigitWindow(year: int)
    requires 1950 <= year <= 2049
    ensures var yy := year % 100; year == if yy >= 50 then 1900 + yy else 2000 + yy
  {
  }

  lemma UtcTimeReadsField(yy: nat, rest: octets, year: int)
    requires yy < 100 && |rest| == 11 && year == if yy >= 50 then 1900 + yy else 2000 + yy
    ensures ReadTime(Prim(0x17, Pad2(yy) + rest)) == ReadRest(year, rest)
  {
    Pad2Digits(yy);
    var c := Pad2(yy) + rest;
    assert c[2..] == rest;
    assert c[0] == Pad2(yy)[0] && c[1] == Pad2(yy)[1];
  }

  lemma UtcTimeRoundTrip(d: UtcDate)
    requires InRange(d) && 1950 <= d.year <= 2049
    ensures ReadTime(TimeTree(d)) == Some(d)
  {
    ReadRestBack(d, d.year);
    TwoDigitWindow(d.year);
    UtcTimeReadsField(d.year % 100, RestText(d), d.year);
  }

  lemma GeneralizedTimeReadsField(lead: octets, rest: octets, year: int)
    requires |lead| == 4 && |rest| == 11 && Digits(lead, 4) && !(1950 <= year <= 2049)
    requires year == 100 * Two(lead[0], lead[1]) + Two(lead[2], lead[3])
    ensures ReadTime(Prim(0x18, lead + rest)) == ReadRest(year, rest)
  {
    var c := lead + rest;
    assert c[4..] == rest;
    assert c[0] == lead[0] && c[1] == lead[1] && c[2] == lead[2] && c[3] == lead[3];
  }

  lemma GeneralizedTimeRoundTrip(d: UtcDate)
    requires InRange(d) && 1000 <= d.year <= 9999 && !(1950 <= d.year <= 2049)
    ensures ReadTime(TimeTree(d)) == Some(d)
  {
    FourDigits(d.year);
    ReadRestBack(d, d.year);
    GeneralizedTimeReadsField(Decimal(d.year), RestText(d), d.year);
  }

  /** An instant comes back to the second exactly when its year has four digits; the
      1950 to 2049 window is the two-digit form. */
  lemma TimeRoundTrip(d: UtcDate)
    requires InRange(d)
    ensures ReadTime(TimeTree(d)) == Some(d) <==> 1000 <= d.year <= 9999
    ensures 1950 <= d.year <= 2049 <==> TimeTree(d).tag == 0x17
  {
    if 1950 <= d.year <= 2049 {
      UtcTimeRoundTrip(d);
    } else if 1000 <= d.year <= 9999 {
      GeneralizedTimeRoundTrip(d);
    } else {
      RestTextOctets(d);
      if d.year < 0 {
        assert TimeTree(d).content[0] == 45;
      } else {
        DecimalLength(d.year);
      }
    }
  }

  // ----- Subject alternative names ------------------------------------------

  /** A DNS name as UTF-16 code units, or the numbers between the dots of an address. */
  datatype GeneralName = Dns(units: seq<nat>) | Ip(parts: seq<int>)

  function LowOctets(xs: seq<int>): (r: octets)
    ensures |r| == |xs| && forall i :: 0 <= i < |xs| ==> r[i] == xs[i] % 256
  {
    seq(|xs|, i requires 0 <= i < |xs| => xs[i] % 256)
  }

  function NameTree(n: GeneralName): Tlv {
    match n
    case Dns(units) => Prim(0x82, LowOctets(units))
    case Ip(parts) => Prim(0x87, LowOctets(parts))
  }

  function NameTrees(names: seq<GeneralName>): seq<Tlv> {
    if names == [] then [] else [NameTree(names[0])] + NameTrees(names[1..])
  }

  function ReadNames(ts: seq<Tlv>): Option<seq<GeneralName>> {
    if ts == [] then Some([])
    else if ts[0].Cons? then None
    else
      var rest :- ReadNames(ts[1..]);
      if ts[0].tag == 0x82 then Some([Dns(ts[0].content)] + rest)
      else if ts[0].tag == 0x87 then Some([Ip(ts[0].content)] + rest)
      else None
  }

  predicate NameInOctets(n: GeneralName) {
    match n
    case Dns(units) => forall i :: 0 <= i < |units| ==> units[i] < 256
    case Ip(parts) => forall i :: 0 <= i < |parts| ==> 0 <= parts[i] < 256
  }

  function NameRead(n: GeneralName): GeneralName {
    match n
    case Dns(units) => Dns(LowOctets(units))
    case Ip(parts) => Ip(LowOctets(parts))
  }

  lemma NameReadBack(n: GeneralName)
    ensures NameRead(n) == n <==> NameInOctets(n)
  {
    match n
    case Dns(units) =>
      var low := LowOctets(units);
      if NameInOctets(n) { assert low == units; }
      if low == units {
        forall i | 0 <= i < |units| ensures units[i] < 256 { assert low[i] == units[i]; }
      }
    case Ip(parts) =>
      var low := LowOctets(parts);
      if NameInOctets(n) { assert low == parts; }
      if low == parts {
        forall i | 0 <= i < |parts| ensures 0 <= parts[i] < 256 { assert low[i] == parts[i]; }
      }
  }

  function NamesRead(names: seq<GeneralName>): (r: seq<GeneralName>)
    ensures |r| == |names| && forall i :: 0 <= i < |names| ==> r[i] == NameRead(names[i])
  {
    if names == [] then [] else [NameRead(names[0])] + NamesRead(names[1..])
  }

  lemma {:induction false} NameTreesReadBack(names: seq<GeneralName>)
    ensures ReadNames(NameTrees(names)) == Some(NamesRead(names))
    ensures AllShaped(NameTrees(names))
  {
    if names != [] {
      NameTreesReadBack(names[1..]);
      assert NameTrees(names)[1..] == NameTrees(names[1..]);
    }
  }

  /** The names of a subjectAltName come back, in order and kind, exactly when every code
      unit and every address part fits one octet. */
  lemma NamesRoundTrip(names: seq<GeneralName>)
    ensures ReadNames(NameTrees(names)) == Some(names) <==>
            forall i :: 0 <= i < |names| ==> NameInOctets(names[i])
  {
    NameTreesReadBack(names);
    var read := NamesRead(names);
    forall i | 0 <= i < |names| ensures NameRead(names[i]) == names[i] <==> NameInOctets(names[i]) {
      NameReadBack(names[i]);
    }
    if read == names {
      forall i | 0 <= i < |names| ensures NameInOctets(names[i]) { assert read[i] == names[i]; }
    }
  }
}
