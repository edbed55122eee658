// DER lengths and tag-length-value trees, as tls-certs.ts writes them, and a
// strict reader for them (section 10.1 of X.690: definite form, fewest octets).
module Der {
  import opened Prelude

  // ----- Lengths ---------------------------------------------------------

  /** The octets the `while (remaining > 0)` loop collects, most significant first.
      `& 0xff` and `>>` see the 32-bit value of `remaining`. */
  function LoopOctets(remaining: int): octets
    decreases if remaining < 0 then 0 else remaining
  {
    if remaining <= 0 then []
    else
      assert ToInt32(remaining) <= remaining;
      LoopOctets(ToInt32(remaining) / 256) + [ToInt32(remaining) % 256]
  }

  lemma LoopOctetsAtMost(remaining: int, k: nat, bound: int)
    requires remaining < bound
    requires (k == 0 && bound == 1) || (k == 1 && bound == 0x100) || (k == 2 && bound == 0x1_0000)
             || (k == 3 && bound == 0x100_0000) || (k == 4 && bound == TWO_31)
    ensures |LoopOctets(remaining)| <= k
    decreases k
  {
    if remaining > 0 {
      assert ToInt32(remaining) == remaining;
      var rest := remaining / 256;
      if k == 1 { LoopOctetsAtMost(rest, 0, 1); }
      else if k == 2 { LoopOctetsAtMost(rest, 1, 0x100); }
      else if k == 3 { LoopOctetsAtMost(rest, 2, 0x1_0000); }
      else { LoopOctetsAtMost(rest, 3, 0x100_0000); }
    }
  }

  lemma LoopOctetsAtMost4(remaining: int)
    ensures |LoopOctets(remaining)| <= 4
  {
    if remaining > 0 {
      var rest := ToInt32(remaining) / 256;
      assert rest < 0x100_0000;
      LoopOctetsAtMost(rest, 3, 0x100_0000);
    }
  }

  function LengthOctets(length: nat): octets {
    if length < 0x80 then [length]
    else
      LoopOctetsAtMost4(length);
      [0x80 + |LoopOctets(length)|] + LoopOctets(length)
  }

  lemma LoopStep(remaining: int)
    requires remaining > 0
    ensures ToInt32(remaining) / 256 < remaining
    ensures LoopOctets(remaining) == LoopOctets(ToInt32(remaining) / 256) + [ToInt32(remaining) % 256]
  {
    assert ToInt32(remaining) <= remaining;
  }

  method DerLength(length: nat) returns (r: octets)
    ensures r == LengthOctets(length)
  {
    if length < 0x80 {
      return [length];
    }
    var bytes: octets := [];
    var remaining: int := length;
    while remaining > 0
      invariant LoopOctets(length) == LoopOctets(remaining) + bytes
      decreases if remaining < 0 then 0 else remaining
    {
      LoopStep(remaining);
      bytes := [ToInt32(remaining) % 256] + bytes;
      remaining := ToInt32(remaining) / 256;
    }
    LoopOctetsAtMost4(length);
    r := [0x80 + |bytes|] + bytes;
  }

  /** Big-endian value of a run of octets. */
  function BigEndian(bs: octets): nat {
    if bs == [] then 0 else 256 * BigEndian(bs[..|bs| - 1]) + bs[|bs| - 1]
  }

  /** Reads one length; refuses the indefinite form and every form that is not the shortest. */
  function ReadLength(b: octets): (r: Option<(nat, octets)>)
    ensures r.Some? ==> |r.value.1| < |b|
  {
    if b == [] then None
    else if b[0] < 0x80 then Some((b[0], b[1..]))
    else
      var k := b[0] - 0x80;
      if k == 0 || |b| < 1 + k || b[1] == 0 then None
      else
        var n := BigEndian(b[1..1 + k]);
        if n < 0x80 then None else Some((n, b[1 + k..]))
  }

  lemma {:induction false} LoopOctetsValue(n: nat)
    requires n < TWO_31
    ensures BigEndian(LoopOctets(n)) == n
    ensures n > 0 ==> LoopOctets(n) != [] && LoopOctets(n)[0] != 0
    decreases n
  {
    if n > 0 {
      assert ToInt32(n) == n;
      LoopOctetsValue(n / 256);
      var bs := LoopOctets(n);
      assert bs[..|bs| - 1] == LoopOctets(n / 256);
    }
  }

  lemma {:induction false} BigEndianBelow(bs: octets)
    requires |bs| <= 4
    ensures BigEndian(bs) < TWO_32
    ensures |bs| <= 3 ==> BigEndian(bs) < 0x100_0000
    ensures |bs| <= 2 ==> BigEndian(bs) < 0x1_0000
    ensures |bs| <= 1 ==> BigEndian(bs) < 0x100
  {
    if bs != [] { BigEndianBelow(bs[..|bs| - 1]); }
  }

  /** What the loop's octets are worth when the length does not fit 31 bits. */
  lemma {:induction false} LoopOctetsOverflow(n: nat)
    requires n >= TWO_31
    ensures BigEndian(LoopOctets(n)) != n
  {
    var m := ToInt32(n);
    if m / 256 > 0 {
      LoopOctetsValue(m);
      assert ToInt32(m) == m;
      assert LoopOctets(n) == LoopOctets(m);
      assert m < TWO_31;
    } else {
      assert LoopOctets(m / 256) == [];
      assert LoopOctets(n) == [m % 256];
      BigEndianBelow(LoopOctets(n));
    }
  }

  lemma ReadLongForm(bs: octets, suffix: octets)
    requires 1 <= |bs| <= 4
    ensures ReadLength([0x80 + |bs|] + bs + suffix) ==
            if bs[0] == 0 || BigEndian(bs) < 0x80 then None else Some((BigEndian(bs), suffix))
  {
    var b := [0x80 + |bs|] + bs + suffix;
    assert b[1..1 + |bs|] == bs;
    assert b[1 + |bs|..] == suffix;
  }

  /** A length survives being written and read exactly when it fits 31 bits. */
  lemma LengthRoundTrip(n: nat, suffix: octets)
    ensures ReadLength(LengthOctets(n) + suffix) == Some((n, suffix)) <==> n < TWO_31
  {
    if n < 0x80 {
      assert ([n] + suffix)[1..] == suffix;
    } else {
      LoopOctetsAtMost4(n);
      ReadLongForm(LoopOctets(n), suffix);
      if n < TWO_31 { LoopOctetsValue(n); } else { LoopOctetsOverflow(n); }
    }
  }

  /** The first length that is lost: the shift makes it negative, and the loop ends after one octet. */
  lemma LengthLost(n: nat, suffix: octets)
    requires n == TWO_31
    ensures LoopOctets(n) == [0] && ReadLength(LengthOctets(n) + suffix) != Some((n, suffix))
  {
    assert ToInt32(n) == -TWO_31;
    var shifted := ToInt32(n) / 256;
    assert shifted < 0 && LoopOctets(shifted) == [];
    LengthRoundTrip(n, suffix);
  }

  lemma LoopOctetsStep(n: nat, high: nat, low: octet)
    requires 0 < n < TWO_31 && n == 256 * high + low
    ensures LoopOctets(n) == LoopOctets(high) + [low]
  {
    assert ToInt32(n) == n;
    assert n / 256 == high && n % 256 == low;
  }

  lemma {:induction false} BigEndianCanonical(bs: octets)
    requires bs != [] ==> bs[0] != 0
    requires BigEndian(bs) < TWO_31
    ensures LoopOctets(BigEndian(bs)) == bs
    ensures bs != [] ==> BigEndian(bs) > 0
  {
    if bs != [] {
      var init, last := bs[..|bs| - 1], bs[|bs| - 1];
      BigEndianCanonical(init);
      LoopOctetsStep(BigEndian(bs), BigEndian(init), last);
      assert bs == init + [last];
    }
  }

  lemma LongFormCanonical(bs: octets)
    requires bs != [] && bs[0] != 0 && 0x80 <= BigEndian(bs) < TWO_31
    ensures LengthOctets(BigEndian(bs)) == [0x80 + |LoopOctets(BigEndian(bs))|] + bs
    ensures LoopOctets(BigEndian(bs)) == bs
  {
    BigEndianCanonical(bs);
  }

  /** What the reader accepts is what the writer would have written, the one minimal encoding of
      the length, exactly when the length fits 31 bits. */
  lemma LengthCanonical(b: octets)
    requires ReadLength(b).Some?
    ensures var (n, rest) := ReadLength(b).value;
            b == LengthOctets(n) + rest <==> n < TWO_31
  {
    var (n, rest) := ReadLength(b).value;
    LengthRoundTrip(n, rest);
    if n < TWO_31 { ReadIsWritten(b); }
  }

  lemma ReadIsWritten(b: octets)
    requires ReadLength(b).Some? && ReadLength(b).value.0 < TWO_31
    ensures b == LengthOctets(ReadLength(b).value.0) + ReadLength(b).value.1
  {
    if b[0] < 0x80 {
      assert b == [b[0]] + b[1..];
    } else {
      var k := b[0] - 0x80;
      LongFormCanonical(b[1..1 + k]);
      assert b == [b[0]] + b[1..1 + k] + b[1 + k..];
    }
  }

  // ----- Trees -----------------------------------------------------------

  /** A primitive value holds octets; a constructed one (bit 6 of the tag) holds values. */
  datatype Tlv = Prim(tag: octet, content: octets) | Cons(tag: octet, items: seq<Tlv>)

  predicate Constructed(tag: octet) { tag / 32 % 2 == 1 }

  function DerTlv(tag: octet, content: octets): octets {
    [tag] + LengthOctets(|content|) + content
  }

  function Encode(t: Tlv): octets
    decreases t, 0
  {
    match t
    case Prim(tag, content) => DerTlv(tag, content)
    case Cons(tag, items) => DerTlv(tag, EncodeAll(items))
  }

  function EncodeAll(items: seq<Tlv>): octets
    decreases items, 1
  {
    if items == [] then [] else Encode(items[0]) + EncodeAll(items[1..])
  }

  /** Every tag's constructed bit says which kind of value it heads. */
  ghost predicate Shaped(t: Tlv)
    decreases t, 0
  {
    match t
    case Prim(tag, _) => !Constructed(tag)
    case Cons(tag, items) => Constructed(tag) && AllShaped(items)
  }

  ghost predicate AllShaped(items: seq<Tlv>)
    decreases items, 1
  {
    items == [] || (Shaped(items[0]) && AllShaped(items[1..]))
  }

  function Decode(b: octets): (r: Option<(Tlv, octets)>)
    ensures r.Some? ==> |r.value.1| < |b|
    decreases |b|, 0
  {
    if b == [] then None
    else
      match ReadLength(b[1..])
      case None => None
      case Some((n, rest)) =>
        if n > |rest| then None
        else if !Constructed(b[0]) then Some((Prim(b[0], rest[..n]), rest[n..]))
        else
          match DecodeAll(rest[..n])
          case None => None
          case Some(items) => Some((Cons(b[0], items), rest[n..]))
  }

  function DecodeAll(b: octets): Option<seq<Tlv>>
    decreases |b|, 1
  {
    if b == [] then Some([])
    else
      match Decode(b)
      case None => None
      case Some((t, rest)) =>
        match DecodeAll(rest)
        case None => None
        case Some(ts) => Some([t] + ts)
  }

  lemma DerTlvSplit(tag: octet, content: octets, suffix: octets)
    requires |content| < TWO_31
    ensures var b := DerTlv(tag, content) + suffix;
            b != [] && b[0] == tag && ReadLength(b[1..]) == Some((|content|, content + suffix))
  {
    var b := DerTlv(tag, content) + suffix;
    assert b[1..] == LengthOctets(|content|) + (content + suffix);
    LengthRoundTrip(|content|, content + suffix);
  }

  /** The content octets of a tree's encoding; their number is the length that is written. */
  function Content(t: Tlv): octets { if t.Prim? then t.content else EncodeAll(t.items) }

  lemma EncodeIsTlv(t: Tlv)
    ensures Encode(t) == DerTlv(t.tag, Content(t)) && |Encode(t)| > |Content(t)|
  {
  }

  /** Reading back a tree whose content fits 31 bits, followed by any octets, gives that tree and
      those octets. */
  lemma {:induction false} ReadsBack(t: Tlv, suffix: octets)
    requires Shaped(t) && |Content(t)| < TWO_31
    ensures Decode(Encode(t) + suffix) == Some((t, suffix))
    decreases t, 0
  {
    var content := Content(t);
    DerTlvSplit(t.tag, content, suffix);
    assert (content + suffix)[..|content|] == content;
    assert (content + suffix)[|content|..] == suffix;
    if t.Cons? {
      ReadsBackAll(t.items);
    }
  }

  lemma {:induction false} ReadsBackAll(items: seq<Tlv>)
    requires AllShaped(items) && |EncodeAll(items)| < TWO_31
    ensures DecodeAll(EncodeAll(items)) == Some(items)
    decreases items, 1
  {
    if items != [] {
      EncodeIsTlv(items[0]);
      ReadsBack(items[0], EncodeAll(items[1..]));
      ReadsBackAll(items[1..]);
      assert items == [items[0]] + items[1..];
    }
  }

  /** A length that does not fit 31 bits is refused or read as another one; either way, what
      follows it is still what was written behind it. */
  lemma LongLengthMisread(n: nat, rest: octets)
    requires n >= TWO_31
    ensures var r := ReadLength(LengthOctets(n) + rest);
            r.Some? ==> r.value.1 == rest && r.value.0 != n
  {
    var bs := LoopOctets(n);
    LoopOctetsAtMost4(n);
    LoopOctetsOverflow(n);
    assert LoopOctets(n) != [];
    ReadLongForm(bs, rest);
  }

  /** No octets are left behind a whole encoding, unless its length was misread. */
  lemma LongContentLeaves(t: Tlv, suffix: octets)
    requires |Content(t)| >= TWO_31
    ensures var r := Decode(Encode(t) + suffix);
            r.Some? ==> r.value.1 != suffix
  {
    var content := Content(t);
    var b := Encode(t) + suffix;
    EncodeIsTlv(t);
    assert b[1..] == LengthOctets(|content|) + (content + suffix);
    LongLengthMisread(|content|, content + suffix);
    var read := ReadLength(b[1..]);
    if read.Some? && read.value.0 <= |content + suffix| {
      assert |(content + suffix)[read.value.0..]| != |suffix|;
    }
  }

  /** Reading back any tree followed by any octets gives that tree and those octets exactly when
      the tree's content fits 31 bits. */
  lemma RoundTrip(t: Tlv, suffix: octets)
    requires Shaped(t)
    ensures Decode(Encode(t) + suffix) == Some((t, suffix)) <==> |Content(t)| < TWO_31
  {
    if |Content(t)| < TWO_31 { ReadsBack(t, suffix); } else { LongContentLeaves(t, suffix); }
  }

  lemma Reassociate(tag: octet, len: octets, content: octets, rest: octets)
    ensures [tag] + (len + (content + rest)) == [tag] + len + content + rest
  {
  }

  lemma CanonicalSplit(b: octets, n: nat, rest: octets)
    requires b != [] && ReadLength(b[1..]) == Some((n, rest))
    requires n <= |rest| && n < TWO_31
    ensures b == DerTlv(b[0], rest[..n]) + rest[n..]
  {
    LengthCanonical(b[1..]);
    assert b == [b[0]] + b[1..];
    assert rest == rest[..n] + rest[n..];
    Reassociate(b[0], LengthOctets(n), rest[..n], rest[n..]);
  }

  /** Everything that is read is a well-shaped tree, whatever its size. */
  lemma {:induction false} DecodeShaped(b: octets)
    requires Decode(b).Some?
    ensures Shaped(Decode(b).value.0)
    decreases |b|, 0
  {
    if Constructed(b[0]) {
      var (n, rest) := ReadLength(b[1..]).value;
      DecodeAllShaped(rest[..n]);
    }
  }

  lemma {:induction false} DecodeAllShaped(b: octets)
    requires DecodeAll(b).Some?
    ensures AllShaped(DecodeAll(b).value)
    decreases |b|, 1
  {
    if b != [] {
      var (t, rest) := Decode(b).value;
      DecodeShaped(b);
      DecodeAllShaped(rest);
      var ts := DecodeAll(rest).value;
      assert ([t] + ts)[1..] == ts;
    }
  }

  /** A content that fits 31 bits is read from what the encoder writes. */
  lemma {:induction false} ContentIsWritten(b: octets)
    requires Decode(b).Some? && ReadLength(b[1..]).value.0 < TWO_31
    ensures b == Encode(Decode(b).value.0) + Decode(b).value.1
    decreases |b|, 0
  {
    var (n, rest) := ReadLength(b[1..]).value;
    CanonicalSplit(b, n, rest);
    if Constructed(b[0]) { ContentsAreWritten(rest[..n]); }
  }

  lemma {:induction false} ContentsAreWritten(b: octets)
    requires DecodeAll(b).Some? && |b| < TWO_31
    ensures b == EncodeAll(DecodeAll(b).value)
    decreases |b|, 1
  {
    if b != [] {
      var (t, rest) := Decode(b).value;
      ContentIsWritten(b);
      ContentsAreWritten(rest);
      var ts := DecodeAll(rest).value;
      assert ([t] + ts)[1..] == ts;
    }
  }

  /** Octets that are an encoding and are read as its tree carry that tree's length, which fits. */
  lemma WrittenFits(b: octets, t: Tlv, rest: octets)
    requires Decode(b) == Some((t, rest)) && b == Encode(t) + rest
    ensures ReadLength(b[1..]).value.0 < TWO_31
  {
    DecodeShaped(b);
    RoundTrip(t, rest);
    EncodeIsTlv(t);
    DerTlvSplit(t.tag, Content(t), rest);
  }

  /** Whatever is read is a well-shaped tree, and it was written by the encoder, so that no second
      encoding of it exists, exactly when the length that was read fits 31 bits. */
  lemma Canonical(b: octets, t: Tlv, rest: octets)
    requires Decode(b) == Some((t, rest))
    ensures Shaped(t)
    ensures b == Encode(t) + rest <==> ReadLength(b[1..]).value.0 < TWO_31
  {
    DecodeShaped(b);
    if ReadLength(b[1..]).value.0 < TWO_31 { ContentIsWritten(b); }
    if b == Encode(t) + rest { WrittenFits(b, t, rest); }
  }

  /** No encoding is a proper prefix of another, and different trees have different encodings. */
  lemma PrefixFree(a: Tlv, b: Tlv)
    requires Shaped(a) && Shaped(b)
    requires |Content(a)| < TWO_31 && |Content(b)| < TWO_31
    requires Encode(a) <= Encode(b)
    ensures a == b
  {
    var suffix := Encode(b)[|Encode(a)|..];
    assert Encode(b) == Encode(a) + suffix;
    assert Encode(b) + [] == Encode(b);
    RoundTrip(a, suffix);
    RoundTrip(b, []);
  }

  /** Beyond 32 bits the loop sees the length modulo 2^32, so a tree that is too long begins like
      one that is not: the bound on the second tree is needed. */
  lemma LongBeginsLikeShort(a: Tlv, b: Tlv)
    requires a.Prim? && b.Prim? && a.tag == b.tag && !Constructed(a.tag)
    requires 0x80 <= |a.content| < TWO_31 && |b.content| == |a.content| + TWO_32
    requires a.content <= b.content
    ensures Encode(a) <= Encode(b) && a != b
  {
    var n, m := |a.content|, |b.content|;
    assert ToInt32(m) == ToInt32(n) == n;
    LoopStep(m);
    LoopStep(n);
    assert LengthOctets(m) == LengthOctets(n);
    var rest := b.content[n..];
    assert b.content == a.content + rest;
    assert Encode(b) == Encode(a) + rest;
  }
}
