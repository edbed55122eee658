// The X.509 v3 certificates tls-certs.ts assembles, and the reader a relying party
// would use (section 4.1 of RFC 5280).
module X509 {
  import opened Prelude
  import opened Der
  import opened DerValues

  datatype Extension = Extension(oid: seq<nat>, critical: bool, value: octets)

  /** `issuer` and `subject` are the UTF-8 octets of the common names; `key` is the
      SubjectPublicKeyInfo, one well-formed value. */
  datatype Request = Request(serial: int, issuer: octets, subject: octets, notBefore: UtcDate,
                             notAfter: UtcDate, key: Tlv, extensions: seq<Extension>)

  ghost predicate WellFormed(r: Request) {
    && InRange(r.notBefore) && InRange(r.notAfter) && Shaped(r.key)
    && forall i :: 0 <= i < |r.extensions| ==> |r.extensions[i].oid| >= 2
  }

  /** The identifiers every certificate carries; the ones tls-certs.ts uses are TLS_CERTS. */
  datatype IdentifierPair = IdentifierPair(signatureAlgorithm: seq<nat>, commonName: seq<nat>)
  type Identifiers = p: IdentifierPair | |p.signatureAlgorithm| >= 2 && |p.commonName| >= 2
    witness IdentifierPair([0, 0], [0, 0])

  ghost predicate Known(ids: Identifiers) {
    OidSupported(ids.signatureAlgorithm) && OidSupported(ids.commonName)
  }

  const TLS_CERTS: Identifiers := IdentifierPair([1, 2, 840, 113549, 1, 1, 11], [2, 5, 4, 3])

  /** sha256WithRSAEncryption and id-at-commonName are within the encoder's reach. */
  lemma TlsCertsKnown()
    ensures Known(TLS_CERTS)
  {
    assert TLS_CERTS.signatureAlgorithm[2..] == [840, 113549, 1, 1, 11];
    assert TLS_CERTS.commonName[2..] == [4, 3];
  }

  // ----- Writing, octet by octet as the source does ---------------------------

  function Concat(items: seq<octets>): octets {
    if items == [] then [] else items[0] + Concat(items[1..])
  }

  function DerSequence(items: seq<octets>): octets { DerTlv(0x30, Concat(items)) }

  function DerSet(items: seq<octets>): octets { DerTlv(0x31, Concat(items)) }

  function DerInteger(value: int): octets { DerTlv(0x02, [value % 256]) }

  function DerBoolean(value: bool): octets { DerTlv(0x01, [if value then 0xff else 0x00]) }

  function DerBitString(content: octets, unusedBits: octet): octets { DerTlv(0x03, [unusedBits] + content) }

  function DerTime(d: UtcDate): octets { Encode(TimeTree(d)) }

  function DerCommonName(ids: Identifiers, cn: octets): octets {
    DerSequence([DerSet([DerSequence([DerTlv(0x06, OidContent(ids.commonName)), DerTlv(0x0c, cn)])])])
  }

  function DerExtension(e: Extension): octets
    requires |e.oid| >= 2
  {
    DerSequence([DerTlv(0x06, OidContent(e.oid))]
                + (if e.critical then [DerBoolean(true)] else [])
                + [DerTlv(0x04, e.value)])
  }

  function DerExtensions(es: seq<Extension>): seq<octets>
    requires forall i :: 0 <= i < |es| ==> |es[i].oid| >= 2
  {
    if es == [] then [] else [DerExtension(es[0])] + DerExtensions(es[1..])
  }

  function AlgorithmId(ids: Identifiers): octets {
    DerSequence([DerTlv(0x06, OidContent(ids.signatureAlgorithm)), [0x05, 0x00]])
  }

  function TbsOctets(ids: Identifiers, r: Request): seq<octets>
    requires WellFormed(r)
  {
    [DerTlv(0xa0, DerInteger(2)),
     DerInteger(r.serial),
     AlgorithmId(ids),
     DerCommonName(ids, r.issuer),
     DerSequence([DerTime(r.notBefore), DerTime(r.notAfter)]),
     DerCommonName(ids, r.subject),
     Encode(r.key),
     DerTlv(0xa3, DerSequence(DerExtensions(r.extensions)))]
  }

  function DerTbs(ids: Identifiers, r: Request): octets
    requires WellFormed(r)
  {
    DerSequence(TbsOctets(ids, r))
  }

  function DerCertificate(ids: Identifiers, r: Request, sign: octets -> octets): octets
    requires WellFormed(r)
  {
    DerSequence([DerTbs(ids, r), AlgorithmId(ids), DerBitString(sign(DerTbs(ids, r)), 0)])
  }

  // ----- The same certificate as a tree ---------------------------------------

  function NameTreeOf(ids: Identifiers, cn: octets): Tlv {
    Cons(0x30, [Cons(0x31, [Cons(0x30, [OidTree(ids.commonName), Prim(0x0c, cn)])])])
  }

  function ExtensionTree(e: Extension): Tlv
    requires |e.oid| >= 2
  {
    Cons(0x30, if e.critical then [OidTree(e.oid), Prim(0x01, [0xff]), Prim(0x04, e.value)]
               else [OidTree(e.oid), Prim(0x04, e.value)])
  }

  function ExtensionTrees(es: seq<Extension>): (ts: seq<Tlv>)
    requires forall i :: 0 <= i < |es| ==> |es[i].oid| >= 2
    ensures |ts| == |es|
  {
    if es == [] then [] else [ExtensionTree(es[0])] + ExtensionTrees(es[1..])
  }

  function AlgorithmTree(ids: Identifiers): Tlv { Cons(0x30, [OidTree(ids.signatureAlgorithm), Prim(0x05, [])]) }

  function TbsTrees(ids: Identifiers, r: Request): seq<Tlv>
    requires WellFormed(r)
  {
    [Cons(0xa0, [IntegerTree(2)]), IntegerTree(r.serial), AlgorithmTree(ids),
     NameTreeOf(ids, r.issuer), Cons(0x30, [TimeTree(r.notBefore), TimeTree(r.notAfter)]),
     NameTreeOf(ids, r.subject), r.key,
     Cons(0xa3, [Cons(0x30, ExtensionTrees(r.extensions))])]
  }

  function TbsTree(ids: Identifiers, r: Request): Tlv
    requires WellFormed(r)
  {
    Cons(0x30, TbsTrees(ids, r))
  }

  function CertificateTree(ids: Identifiers, r: Request, signature: octets): Tlv
    requires WellFormed(r)
  {
    Cons(0x30, [TbsTree(ids, r), AlgorithmTree(ids), Prim(0x03, [0] + signature)])
  }

  /** Joining encodings one by one is encoding the list. */
  lemma {:induction false} ConcatEncodes(items: seq<octets>, trees: seq<Tlv>)
    requires |items| == |trees| && forall i :: 0 <= i < |items| ==> items[i] == Encode(trees[i])
    ensures Concat(items) == EncodeAll(trees)
  {
    if items != [] { ConcatEncodes(items[1..], trees[1..]); }
  }

  lemma {:induction false} AllShapedIntro(trees: seq<Tlv>)
    requires forall i :: 0 <= i < |trees| ==> Shaped(trees[i])
    ensures AllShaped(trees)
  {
    if trees != [] { AllShapedIntro(trees[1..]); }
  }

  /** A constructed value from the encodings of its parts. */
  lemma Node(tag: octet, items: seq<octets>, trees: seq<Tlv>)
    requires Constructed(tag) && |items| == |trees|
    requires forall i :: 0 <= i < |items| ==> items[i] == Encode(trees[i]) && Shaped(trees[i])
    ensures DerTlv(tag, Concat(items)) == Encode(Cons(tag, trees))
    ensures Shaped(Cons(tag, trees))
  {
    ConcatEncodes(items, trees);
    AllShapedIntro(trees);
  }

  lemma ConcatOne(item: octets)
    ensures Concat([item]) == item
  {
    assert [item][1..] == [];
    assert item + [] == item;
  }

  lemma CommonNameIsTree(ids: Identifiers, cn: octets)
    ensures DerCommonName(ids, cn) == Encode(NameTreeOf(ids, cn)) && Shaped(NameTreeOf(ids, cn))
  {
    var parts := [OidTree(ids.commonName), Prim(0x0c, cn)];
    Node(0x30, [Encode(parts[0]), Encode(parts[1])], parts);
    var pair := Cons(0x30, parts);
    Node(0x31, [Encode(pair)], [pair]);
    var rdn := Cons(0x31, [pair]);
    Node(0x30, [Encode(rdn)], [rdn]);
  }

  lemma OidWithNull(oid: seq<nat>)
    requires |oid| >= 2
    ensures var t := Cons(0x30, [OidTree(oid), Prim(0x05, [])]);
            DerSequence([DerTlv(0x06, OidContent(oid)), [0x05, 0x00]]) == Encode(t) && Shaped(t)
  {
    var parts := [OidTree(oid), Prim(0x05, [])];
    assert Encode(parts[1]) == [0x05, 0x00];
    Node(0x30, [Encode(parts[0]), Encode(parts[1])], parts);
  }

  lemma AlgorithmIsTree(ids: Identifiers)
    ensures AlgorithmId(ids) == Encode(AlgorithmTree(ids)) && Shaped(AlgorithmTree(ids))
  {
    OidWithNull(ids.signatureAlgorithm);
  }

  lemma ExtensionIsTree(e: Extension)
    requires |e.oid| >= 2
    ensures DerExtension(e) == Encode(ExtensionTree(e)) && Shaped(ExtensionTree(e))
  {
    var first, last := OidTree(e.oid), Prim(0x04, e.value);
    if e.critical {
      var flag := Prim(0x01, [0xff]);
      var items := [Encode(first), Encode(flag), Encode(last)];
      Node(0x30, items, [first, flag, last]);
      assert items == [Encode(first)] + [DerBoolean(true)] + [Encode(last)];
    } else {
      var items := [Encode(first), Encode(last)];
      Node(0x30, items, [first, last]);
      assert items == [Encode(first)] + [] + [Encode(last)];
    }
  }

  lemma {:induction false} ExtensionsAreTrees(es: seq<Extension>)
    requires forall i :: 0 <= i < |es| ==> |es[i].oid| >= 2
    ensures Concat(DerExtensions(es)) == EncodeAll(ExtensionTrees(es))
    ensures AllShaped(ExtensionTrees(es))
  {
    if es != [] {
      ExtensionIsTree(es[0]);
      ExtensionsAreTrees(es[1..]);
      assert DerExtensions(es)[1..] == DerExtensions(es[1..]);
      assert ExtensionTrees(es)[1..] == ExtensionTrees(es[1..]);
    }
  }

  lemma ExtensionBlockIsTree(es: seq<Extension>)
    requires forall i :: 0 <= i < |es| ==> |es[i].oid| >= 2
    ensures var t := Cons(0xa3, [Cons(0x30, ExtensionTrees(es))]);
            DerTlv(0xa3, DerSequence(DerExtensions(es))) == Encode(t) && Shaped(t)
  {
    ExtensionsAreTrees(es);
    var list := Cons(0x30, ExtensionTrees(es));
    Node(0xa3, [Encode(list)], [list]);
    ConcatOne(Encode(list));
  }

  lemma ValidityIsTree(r: Request)
    requires WellFormed(r)
    ensures var t := Cons(0x30, [TimeTree(r.notBefore), TimeTree(r.notAfter)]);
            DerSequence([DerTime(r.notBefore), DerTime(r.notAfter)]) == Encode(t) && Shaped(t)
  {
    var ts := [TimeTree(r.notBefore), TimeTree(r.notAfter)];
    Node(0x30, [Encode(ts[0]), Encode(ts[1])], ts);
  }

  lemma VersionIsTree()
    ensures DerTlv(0xa0, DerInteger(2)) == Encode(Cons(0xa0, [IntegerTree(2)]))
    ensures Shaped(Cons(0xa0, [IntegerTree(2)]))
  {
    Node(0xa0, [DerInteger(2)], [IntegerTree(2)]);
    ConcatOne(DerInteger(2));
  }

  lemma NodeOf8(a: seq<octets>, t: seq<Tlv>)
    requires |a| == |t| == 8
    requires a[0] == Encode(t[0]) && Shaped(t[0]) && a[1] == Encode(t[1]) && Shaped(t[1])
    requires a[2] == Encode(t[2]) && Shaped(t[2]) && a[3] == Encode(t[3]) && Shaped(t[3])
    requires a[4] == Encode(t[4]) && Shaped(t[4]) && a[5] == Encode(t[5]) && Shaped(t[5])
    requires a[6] == Encode(t[6]) && Shaped(t[6]) && a[7] == Encode(t[7]) && Shaped(t[7])
    ensures DerSequence(a) == Encode(Cons(0x30, t)) && Shaped(Cons(0x30, t))
  {
    Node(0x30, a, t);
  }

  lemma NamesAndAlgorithmAreTrees(ids: Identifiers, r: Request)
    requires WellFormed(r)
    ensures var a, t := TbsOctets(ids, r), TbsTrees(ids, r);
            && a[2] == Encode(t[2]) && Shaped(t[2])
            && a[3] == Encode(t[3]) && Shaped(t[3])
            && a[5] == Encode(t[5]) && Shaped(t[5])
  {
    AlgorithmIsTree(ids);
    CommonNameIsTree(ids, r.issuer);
    CommonNameIsTree(ids, r.subject);
  }

  lemma VersionAndSerialAreTrees(ids: Identifiers, r: Request)
    requires WellFormed(r)
    ensures var a, t := TbsOctets(ids, r), TbsTrees(ids, r);
            && a[0] == Encode(t[0]) && Shaped(t[0])
            && a[1] == Encode(t[1]) && Shaped(t[1])
  {
    VersionIsTree();
  }

  lemma ValidityPartIsTree(ids: Identifiers, r: Request)
    requires WellFormed(r)
    ensures TbsOctets(ids, r)[4] == Encode(TbsTrees(ids, r)[4]) && Shaped(TbsTrees(ids, r)[4])
  {
    ValidityIsTree(r);
  }

  lemma ExtensionPartIsTree(ids: Identifiers, r: Request)
    requires WellFormed(r)
    ensures TbsOctets(ids, r)[7] == Encode(TbsTrees(ids, r)[7]) && Shaped(TbsTrees(ids, r)[7])
  {
    ExtensionBlockIsTree(r.extensions);
  }

  lemma OtherPartsAreTrees(ids: Identifiers, r: Request)
    requires WellFormed(r)
    ensures var a, t := TbsOctets(ids, r), TbsTrees(ids, r);
            && a[0] == Encode(t[0]) && Shaped(t[0])
            && a[1] == Encode(t[1]) && Shaped(t[1])
            && a[4] == Encode(t[4]) && Shaped(t[4])
            && a[7] == Encode(t[7]) && Shaped(t[7])
  {
    VersionAndSerialAreTrees(ids, r);
    ValidityPartIsTree(ids, r);
    ExtensionPartIsTree(ids, r);
  }

  lemma TbsIsTree(ids: Identifiers, r: Request)
    requires WellFormed(r)
    ensures DerTbs(ids, r) == Encode(TbsTree(ids, r)) && Shaped(TbsTree(ids, r))
  {
    NamesAndAlgorithmAreTrees(ids, r);
    OtherPartsAreTrees(ids, r);
    NodeOf8(TbsOctets(ids, r), TbsTrees(ids, r));
  }

  lemma CertificateIsTree(ids: Identifiers, r: Request, sign: octets -> octets)
    requires WellFormed(r)
    ensures var t := CertificateTree(ids, r, sign(DerTbs(ids, r)));
            DerCertificate(ids, r, sign) == Encode(t) && Shaped(t)
  {
    TbsIsTree(ids, r);
    AlgorithmIsTree(ids);
    var bits := Prim(0x03, [0] + sign(DerTbs(ids, r)));
    Node(0x30, [DerTbs(ids, r), AlgorithmId(ids), Encode(bits)], [TbsTree(ids, r), AlgorithmTree(ids), bits]);
  }

  // ----- Reading ----------------------------------------------------------------

  /** The part that is signed. */
  datatype Tbs = Tbs(version: int, serial: int, algorithm: seq<nat>, issuer: octets, notBefore: UtcDate,
                     notAfter: UtcDate, subject: octets, key: Tlv, extensions: seq<Extension>)

  /** What a relying party learns; `signedPart` is what the signature must cover. */
  datatype Certificate = Certificate(tbs: Tbs, algorithm: seq<nat>, signature: octets, signedPart: octets)

  /** The parts of a constructed value with this tag and this many parts. */
  function Parts(t: Tlv, tag: octet, n: nat): (r: Option<seq<Tlv>>)
    ensures r.Some? ==> |r.value| == n
  {
    if t.Cons? && t.tag == tag && |t.items| == n then Some(t.items) else None
  }

  function ReadName(ids: Identifiers, t: Tlv): Option<octets> {
    var names :- Parts(t, 0x30, 1);
    var rdn :- Parts(names[0], 0x31, 1);
    var pair :- Parts(rdn[0], 0x30, 2);
    var oid :- ReadOid(pair[0]);
    if oid == ids.commonName && pair[1].Prim? && pair[1].tag == 0x0c then Some(pair[1].content) else None
  }

  function ReadAlgorithm(t: Tlv): Option<seq<nat>> {
    var parts :- Parts(t, 0x30, 2);
    if parts[1] == Prim(0x05, []) then ReadOid(parts[0]) else None
  }

  /** `critical` is DEFAULT FALSE, so DER writes the flag only when it is TRUE. */
  function ReadExtension(t: Tlv): Option<Extension> {
    if t.Prim? || t.tag != 0x30 || !(2 <= |t.items| <= 3) then None
    else
      var last := t.items[|t.items| - 1];
      var oid :- ReadOid(t.items[0]);
      if last.Cons? || last.tag != 0x04 then None
      else if |t.items| == 2 then Some(Extension(oid, false, last.content))
      else if t.items[1] == Prim(0x01, [0xff]) then Some(Extension(oid, true, last.content))
      else None
  }

  function ReadExtensions(ts: seq<Tlv>): Option<seq<Extension>> {
    if ts == [] then Some([])
    else
      var e :- ReadExtension(ts[0]);
      var es :- ReadExtensions(ts[1..]);
      Some([e] + es)
  }

  function ReadExtensionBlock(t: Tlv): Option<seq<Extension>> {
    var block :- Parts(t, 0xa3, 1);
    if block[0].Prim? || block[0].tag != 0x30 then None else ReadExtensions(block[0].items)
  }

  function ReadVersion(t: Tlv): Option<int> {
    var parts :- Parts(t, 0xa0, 1);
    ReadInteger(parts[0])
  }

  function ReadValidity(t: Tlv): Option<(UtcDate, UtcDate)> {
    var times :- Parts(t, 0x30, 2);
    var notBefore :- ReadTime(times[0]);
    var notAfter :- ReadTime(times[1]);
    Some((notBefore, notAfter))
  }

  function ReadTbs(ids: Identifiers, t: Tlv): Option<Tbs> {
    var parts :- Parts(t, 0x30, 8);
    var version :- ReadVersion(parts[0]);
    var serial :- ReadInteger(parts[1]);
    var algorithm :- ReadAlgorithm(parts[2]);
    var issuer :- ReadName(ids, parts[3]);
    var validity :- ReadValidity(parts[4]);
    var subject :- ReadName(ids, parts[5]);
    var extensions :- ReadExtensionBlock(parts[7]);
    Some(Tbs(version, serial, algorithm, issuer, validity.0, validity.1, subject, parts[6], extensions))
  }

  function ReadTree(ids: Identifiers, t: Tlv): Option<Certificate> {
    var outer :- Parts(t, 0x30, 3);
    var tbs :- ReadTbs(ids, outer[0]);
    var algorithm :- ReadAlgorithm(outer[1]);
    if outer[2].Cons? || outer[2].tag != 0x03 || outer[2].content == [] || outer[2].content[0] != 0 then None
    else Some(Certificate(tbs, algorithm, outer[2].content[1..], Encode(outer[0])))
  }

  function ReadCertificate(ids: Identifiers, b: octets): Option<Certificate> {
    var (t, rest) :- Decode(b);
    if rest == [] then ReadTree(ids, t) else None
  }

  function ExpectedTbs(ids: Identifiers, r: Request): Tbs {
    Tbs(2, r.serial, ids.signatureAlgorithm, r.issuer, r.notBefore, r.notAfter, r.subject, r.key, r.extensions)
  }

  function Expected(ids: Identifiers, r: Request, sign: octets -> octets): Certificate
    requires WellFormed(r)
  {
    Certificate(ExpectedTbs(ids, r), ids.signatureAlgorithm, sign(DerTbs(ids, r)), DerTbs(ids, r))
  }

  /** Requests whose every field the encoder can express. */
  ghost predicate Supported(r: Request) {
    && -128 <= r.serial < 128
    && 1000 <= r.notBefore.year <= 9999 && 1000 <= r.notAfter.year <= 9999
    && forall i :: 0 <= i < |r.extensions| ==> OidSupported(r.extensions[i].oid)
  }

  lemma NameReadsBack(ids: Identifiers, cn: octets)
    requires Known(ids)
    ensures ReadName(ids, NameTreeOf(ids, cn)) == Some(cn)
  {
    OidRoundTrip(ids.commonName);
  }

  lemma AlgorithmReadsBack(ids: Identifiers)
    requires Known(ids)
    ensures ReadAlgorithm(AlgorithmTree(ids)) == Some(ids.signatureAlgorithm)
  {
    OidRoundTrip(ids.signatureAlgorithm);
  }

  /** An extension is recovered, critical flag and all, exactly when its identifier is supported. */
  lemma ExtensionRoundTrip(e: Extension)
    requires |e.oid| >= 2
    ensures ReadExtension(ExtensionTree(e)) == Some(e) <==> OidSupported(e.oid)
  {
    OidRoundTrip(e.oid);
  }

  ghost predicate AllSupported(es: seq<Extension>) { forall i :: 0 <= i < |es| ==> OidSupported(es[i].oid) }

  lemma AllSupportedSplit(es: seq<Extension>)
    requires es != []
    ensures AllSupported(es) <==> OidSupported(es[0].oid) && AllSupported(es[1..])
  {
    assert forall i :: 1 <= i < |es| ==> es[i] == es[1..][i - 1];
    assert forall i :: 0 <= i < |es[1..]| ==> es[1..][i] == es[i + 1];
  }

  lemma {:induction false} ExtensionsRoundTrip(es: seq<Extension>)
    requires forall i :: 0 <= i < |es| ==> |es[i].oid| >= 2
    ensures ReadExtensions(ExtensionTrees(es)) == Some(es) <==> AllSupported(es)
  {
    if es != [] {
      ExtensionRoundTrip(es[0]);
      ExtensionsRoundTrip(es[1..]);
      AllSupportedSplit(es);
      assert ExtensionTrees(es)[1..] == ExtensionTrees(es[1..]);
      assert es == [es[0]] + es[1..];
    }
  }

  lemma ValidityRoundTrip(notBefore: UtcDate, notAfter: UtcDate)
    requires InRange(notBefore) && InRange(notAfter)
    ensures ReadValidity(Cons(0x30, [TimeTree(notBefore), TimeTree(notAfter)])) == Some((notBefore, notAfter))
            <==> 1000 <= notBefore.year <= 9999 && 1000 <= notAfter.year <= 9999
  {
    TimeRoundTrip(notBefore);
    TimeRoundTrip(notAfter);
  }

  /** The reader puts the parts together: it recovers the request exactly when the serial
      number, the validity and the extensions come back. */
  lemma PartsDecide(ids: Identifiers, r: Request, t: seq<Tlv>)
    requires |t| == 8 && ReadVersion(t[0]) == Some(2) && ReadAlgorithm(t[2]) == Some(ids.signatureAlgorithm)
    requires ReadName(ids, t[3]) == Some(r.issuer) && ReadName(ids, t[5]) == Some(r.subject) && t[6] == r.key
    ensures ReadTbs(ids, Cons(0x30, t)) == Some(ExpectedTbs(ids, r)) <==>
            && ReadInteger(t[1]) == Some(r.serial)
            && ReadValidity(t[4]) == Some((r.notBefore, r.notAfter))
            && ReadExtensionBlock(t[7]) == Some(r.extensions)
  {
    assert Parts(Cons(0x30, t), 0x30, 8) == Some(t);
  }

  lemma VersionPart(ids: Identifiers, r: Request)
    requires WellFormed(r)
    ensures ReadVersion(TbsTrees(ids, r)[0]) == Some(2)
  {
    var t := Cons(0xa0, [IntegerTree(2)]);
    assert Parts(t, 0xa0, 1) == Some([IntegerTree(2)]);
    IntegerRoundTrip(2);
  }

  lemma SerialPart(ids: Identifiers, r: Request)
    requires WellFormed(r)
    ensures ReadInteger(TbsTrees(ids, r)[1]) == Some(r.serial) <==> -128 <= r.serial < 128
  {
    IntegerRoundTrip(r.serial);
  }

  lemma NameAndAlgorithmParts(ids: Identifiers, r: Request)
    requires WellFormed(r) && Known(ids)
    ensures ReadAlgorithm(TbsTrees(ids, r)[2]) == Some(ids.signatureAlgorithm)
    ensures ReadName(ids, TbsTrees(ids, r)[3]) == Some(r.issuer)
    ensures ReadName(ids, TbsTrees(ids, r)[5]) == Some(r.subject)
  {
    AlgorithmReadsBack(ids);
    NameReadsBack(ids, r.issuer);
    NameReadsBack(ids, r.subject);
  }

  lemma ValidityPart(ids: Identifiers, r: Request)
    requires WellFormed(r)
    ensures ReadValidity(TbsTrees(ids, r)[4]) == Some((r.notBefore, r.notAfter)) <==>
            1000 <= r.notBefore.year <= 9999 && 1000 <= r.notAfter.year <= 9999
  {
    ValidityRoundTrip(r.notBefore, r.notAfter);
  }

  lemma {:induction false} ExtensionBlockRoundTrip(es: seq<Extension>)
    requires forall i :: 0 <= i < |es| ==> |es[i].oid| >= 2
    ensures ReadExtensionBlock(Cons(0xa3, [Cons(0x30, ExtensionTrees(es))])) == Some(es) <==>
            forall i :: 0 <= i < |es| ==> OidSupported(es[i].oid)
  {
    ExtensionsRoundTrip(es);
    var list := Cons(0x30, ExtensionTrees(es));
    assert Parts(Cons(0xa3, [list]), 0xa3, 1) == Some([list]);
  }

  lemma ExtensionPart(ids: Identifiers, r: Request)
    requires WellFormed(r)
    ensures ReadExtensionBlock(TbsTrees(ids, r)[7]) == Some(r.extensions) <==>
            forall i :: 0 <= i < |r.extensions| ==> OidSupported(r.extensions[i].oid)
  {
    ExtensionBlockRoundTrip(r.extensions);
  }

  lemma TbsRoundTrip(ids: Identifiers, r: Request)
    requires WellFormed(r) && Known(ids)
    ensures ReadTbs(ids, TbsTree(ids, r)) == Some(ExpectedTbs(ids, r)) <==> Supported(r)
  {
    VersionPart(ids, r);
    SerialPart(ids, r);
    NameAndAlgorithmParts(ids, r);
    ValidityPart(ids, r);
    ExtensionPart(ids, r);
    PartsDecide(ids, r, TbsTrees(ids, r));
  }

  lemma OuterDecides(ids: Identifiers, tbs: Tlv, algorithm: Tlv, signature: octets, c: Certificate)
    requires ReadAlgorithm(algorithm) == Some(ids.signatureAlgorithm)
    requires c == Certificate(c.tbs, ids.signatureAlgorithm, signature, Encode(tbs))
    ensures ReadTree(ids, Cons(0x30, [tbs, algorithm, Prim(0x03, [0] + signature)])) == Some(c) <==>
            ReadTbs(ids, tbs) == Some(c.tbs)
  {
    assert ([0] + signature)[1..] == signature;
  }

  lemma TreeRoundTrip(ids: Identifiers, r: Request, sign: octets -> octets)
    requires WellFormed(r) && Known(ids)
    ensures ReadTree(ids, CertificateTree(ids, r, sign(DerTbs(ids, r)))) == Some(Expected(ids, r, sign)) <==> Supported(r)
  {
    TbsRoundTrip(ids, r);
    AlgorithmReadsBack(ids);
    TbsIsTree(ids, r);
    OuterDecides(ids, TbsTree(ids, r), AlgorithmTree(ids), sign(DerTbs(ids, r)), Expected(ids, r, sign));
  }

  /** The certificate's three parts, encoded one behind the other. */
  function CertificateParts(ids: Identifiers, r: Request, signature: octets): octets
    requires WellFormed(r)
  {
    DerTbs(ids, r) + AlgorithmId(ids) + DerBitString(signature, 0)
  }

  lemma EncodeThree(x: Tlv, y: Tlv, z: Tlv)
    ensures EncodeAll([x, y, z]) == Encode(x) + Encode(y) + Encode(z)
  {
    assert [x, y, z][1..] == [y, z] && [y, z][1..] == [z] && [z][1..] == [];
    var a, b, c := Encode(x), Encode(y), Encode(z);
    assert EncodeAll([z]) == c + [] == c;
    assert a + (b + c) == a + b + c;
  }

  lemma PartsAreContent(ids: Identifiers, r: Request, sign: octets -> octets)
    requires WellFormed(r)
    ensures var signature := sign(DerTbs(ids, r));
            Content(CertificateTree(ids, r, signature)) == CertificateParts(ids, r, signature)
  {
    var signature := sign(DerTbs(ids, r));
    TbsIsTree(ids, r);
    AlgorithmIsTree(ids);
    EncodeThree(TbsTree(ids, r), AlgorithmTree(ids), Prim(0x03, [0] + signature));
  }

  /** Reading a built certificate recovers every field, both algorithm identifiers agree,
      and the signature covers exactly the part that was signed; this holds for exactly
      the requests the encoder supports, and a certificate whose length fits 31 bits. */
  lemma CertificateRoundTrip(ids: Identifiers, r: Request, sign: octets -> octets)
    requires WellFormed(r) && Known(ids)
    ensures ReadCertificate(ids, DerCertificate(ids, r, sign)) == Some(Expected(ids, r, sign)) <==>
            Supported(r) && |CertificateParts(ids, r, sign(DerTbs(ids, r)))| < TWO_31
    ensures Supported(r) && |CertificateParts(ids, r, sign(DerTbs(ids, r)))| < TWO_31 ==>
              var c := ReadCertificate(ids, DerCertificate(ids, r, sign)).value;
              c.tbs.algorithm == c.algorithm && c.signature == sign(c.signedPart)
  {
    var b := DerCertificate(ids, r, sign);
    var t := CertificateTree(ids, r, sign(DerTbs(ids, r)));
    CertificateIsTree(ids, r, sign);
    PartsAreContent(ids, r, sign);
    assert b + [] == b;
    if |Content(t)| < TWO_31 {
      RoundTrip(t, []);
      TreeRoundTrip(ids, r, sign);
    } else {
      LongContentLeaves(t, []);
    }
  }

  // ----- Subject alternative names -----------------------------------------------

  const SUBJECT_ALT_NAME: seq<nat> := [2, 5, 29, 17]

  function SubjectAltName(names: seq<GeneralName>): Extension {
    Extension(SUBJECT_ALT_NAME, false, Encode(Cons(0x30, NameTrees(names))))
  }

  /** The names inside a subjectAltName extension value. */
  function ReadSubjectAltName(e: Extension): Option<seq<GeneralName>> {
    var (t, rest) :- Decode(e.value);
    if e.oid == SUBJECT_ALT_NAME && rest == [] && t.Cons? && t.tag == 0x30 then ReadNames(t.items) else None
  }

  lemma SubjectAltNameDecodes(names: seq<GeneralName>)
    ensures var t := Cons(0x30, NameTrees(names));
            if |EncodeAll(NameTrees(names))| < TWO_31 then Decode(Encode(t)) == Some((t, []))
            else Decode(Encode(t)).Some? ==> Decode(Encode(t)).value.1 != []
  {
    var t := Cons(0x30, NameTrees(names));
    NameTreesReadBack(names);
    assert Encode(t) + [] == Encode(t);
    if |Content(t)| < TWO_31 { RoundTrip(t, []); } else { LongContentLeaves(t, []); }
  }

  /** The names of a subjectAltName extension come back exactly when each fits octets and their
      encodings together fit 31 bits. */
  lemma SubjectAltNameRoundTrip(names: seq<GeneralName>)
    ensures ReadSubjectAltName(SubjectAltName(names)) == Some(names) <==>
            && (forall i :: 0 <= i < |names| ==> NameInOctets(names[i]))
            && |EncodeAll(NameTrees(names))| < TWO_31
  {
    SubjectAltNameDecodes(names);
    NamesRoundTrip(names);
  }
}
