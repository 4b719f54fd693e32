/** Signing, parsing and verifying whole COSE_Sign1 objects. */
module Signing {
  import opened Octets
  import opened Options
  import opened Grammar
  import opened Values
  import opened Admission
  import opened Codec
  import opened Deterministic
  import opened Cose
  import opened CoseOctets

  /** The structure that is signed: context, protected header, no external data, payload. */
  method SigStructure(protected: seq<Octet>, payload: seq<Octet>, lib: Library) returns (b: seq<Octet>)
    requires lib.Lawful()
    requires |protected| < TWO_64 && |payload| < TWO_64
    ensures b == StructureSpelling(protected, payload) == Enc(ToBeSigned(protected, payload))
  {
    ToBeSignedIsPlain(protected, payload);
    ToBeSignedOctets(protected, payload);
    b := lib.marshal(ToBeSigned(protected, payload));
  }

  lemma ToBeSignedIsPlain(protected: seq<Octet>, payload: seq<Octet>)
    requires |protected| < TWO_64 && |payload| < TWO_64
    ensures Plain(ToBeSigned(protected, payload))
  {
    var xs := [TextString(Ascii("Signature1")), ByteString(protected), ByteString([]), ByteString(payload)];
    assert |Ascii("Signature1")| == 10;
    assert Plain(xs[0]) && Plain(xs[1]) && Plain(xs[2]) && Plain(xs[3]);
    assert forall x | x in xs :: Plain(x);
  }

  /** Signing is over an injective image of the protected header and the payload. */
  lemma ToBeSignedInjective(p: seq<Octet>, q: seq<Octet>, p': seq<Octet>, q': seq<Octet>)
    requires |p| < TWO_64 && |q| < TWO_64 && |p'| < TWO_64 && |q'| < TWO_64
    requires Enc(ToBeSigned(p, q)) == Enc(ToBeSigned(p', q'))
    ensures p == p' && q == q'
  {
    ToBeSignedIsPlain(p, q);
    ToBeSignedIsPlain(p', q');
    EncInjective(ToBeSigned(p, q), ToBeSigned(p', q'), [], []);
    assert ToBeSigned(p, q).elements[1] == ToBeSigned(p', q').elements[1];
    assert ToBeSigned(p, q).elements[3] == ToBeSigned(p', q').elements[3];
  }

  /** An Ed25519 signature is always 64 octets long. */
  type Signer = f: (seq<Octet>, seq<Octet>) -> seq<Octet> | forall key, message :: |f(key, message)| == 64
    witness (key: seq<Octet>, message: seq<Octet>) => seq(64, i => 0)

  method SignPayload(kind: Kind, v: Value, key: seq<Octet>, sign: Signer, rules: PayloadRules, lib: Library)
    returns (r: Option<seq<Octet>>)
    requires lib.Lawful() && rules.Lawful()
    requires v.Map?
    ensures r.Some? ==> rules.typed(kind, v) && |key| == 64 && ExpectedKeyId(kind, v).Some?
    ensures r.Some? ==> Accepted(kind, v, sign(key, Enc(ToBeSigned(Protected(kind, v), Enc(v)))), rules, r.value)
    ensures r.Some? ==>
              var header := HeaderSpelling(ContentType(kind), ExpectedKeyId(kind, v).value);
              r.value == ObjectSpelling(header, Enc(v), sign(key, StructureSpelling(header, Enc(v))))
    ensures r.None? <==> !(|key| == 64 && rules.typed(kind, v) && IsSigned(kind) && rules.full(kind, v) && Admissible(v, DEFAULT_LIMITS)
                           && ExpectedKeyId(kind, v).Some?
                           && |Representation(kind, v, sign(key, Enc(ToBeSigned(Protected(kind, v), Enc(v)))))| <= MaximumBytes(kind))
  {
    hide Enc, Fits, Wire, Plain, Admissible, HeaderSpelling, StructureSpelling, ObjectSpelling, Header;
    if |key| != 64 {
      return None;
    }
    if !rules.typed(kind, v) {
      return None;
    }
    if !IsSigned(kind) {
      return None;
    }
    if !rules.full(kind, v) {
      return None;
    }
    var payload := EncodeDeterministicWithLimits(v, DEFAULT_LIMITS, lib);
    if payload.None? {
      return None;
    }
    var keyId := ExpectedKeyId(kind, v);
    if keyId.None? {
      return None;
    }
    KeyIdIsSmall(kind, v, rules);
    SmallHeaderIsPlain(kind, keyId.value);
    var protected := lib.marshal(Map(Header(ContentType(kind), keyId.value)));
    HeaderOctets(ContentType(kind), keyId.value);
    AdmissibleIsShort(v, DEFAULT_LIMITS);
    var toSign := SigStructure(protected, payload.value, lib);
    var signature := sign(key, toSign);
    Sign1IsPlain(protected, payload.value, signature);
    var representation := lib.marshal(Sign1(protected, payload.value, signature));
    Sign1Octets(protected, payload.value, signature);
    if |representation| > MaximumBytes(kind) {
      return None;
    }
    return Some(representation);
  }

  lemma AdmissibleIsShort(v: Value, l: Limits)
    requires Admissible(v, l)
    ensures |Enc(v)| < TWO_64
  {
  }

  lemma KeyIdIsSmall(kind: Kind, v: Value, rules: PayloadRules)
    requires rules.Lawful() && IsSigned(kind) && rules.full(kind, v)
    ensures ExpectedKeyId(kind, v).Some?
    ensures |ExpectedKeyId(kind, v).value| <= 64 && Utf8(ExpectedKeyId(kind, v).value)
    ensures EmbeddedKeyId(kind, v) == [] || EmbeddedKeyId(kind, v) == ExpectedKeyId(kind, v).value
  {
    hide Utf8;
    var signer := TextField(v, SignerField(kind)).value;
    var id := signer + Ascii("#") + KeyRole(kind);
    assert forall i | 0 <= i < 8 :: signer[i] == signer[..8][i];
    assert forall i | 0 <= i < |signer| :: signer[i] < 128;
    AsciiIsUtf8(id);
  }

  lemma ContentTypeIsSmall(kind: Kind)
    ensures |ContentType(kind)| <= 64 && Utf8(ContentType(kind))
  {
    hide Utf8;
    AsciiIsUtf8(ContentType(kind));
  }

  /** The header of a valid payload is representable, and so is its encoding. */
  lemma SmallHeaderIsPlain(kind: Kind, kid: seq<Octet>)
    requires |kid| <= 64 && Utf8(kid)
    ensures Plain(Map(Header(ContentType(kind), kid)))
    ensures |Enc(Map(Header(ContentType(kind), kid)))| < TWO_64
    ensures HeaderIs(Enc(Map(Header(ContentType(kind), kid))), ContentType(kind), kid)
  {
    hide Enc, Plain, Utf8, Header, ContentType;
    ContentTypeIsSmall(kind);
    HeaderFits(ContentType(kind), kid);
    HeaderSizes(ContentType(kind), kid);
  }

  lemma Sign1IsPlain(p: seq<Octet>, q: seq<Octet>, s: seq<Octet>)
    requires |p| < TWO_64 && |q| < TWO_64 && |s| < TWO_64
    ensures Plain(Sign1(p, q, s))
  {
    var empty: map<Value, Value> := map[];
    var items := [ByteString(p), Map(empty), ByteString(q), ByteString(s)];
    assert Plain(Map(empty));
    assert forall x | x in items :: Plain(x);
    assert Plain(Array(items));
  }

  // ---------------------------------------------------------------- parsing

  datatype Parsed = Parsed(kind: Kind, keyId: seq<Octet>, payload: Value, payloadBytes: seq<Octet>, protected: seq<Octet>, signature: seq<Octet>)

  ghost function ParsedFrom(kind: Kind, v: Value, signature: seq<Octet>): Parsed
    requires ExpectedKeyId(kind, v).Some?
  {
    Parsed(kind, ExpectedKeyId(kind, v).value, v, Enc(v), Protected(kind, v), signature)
  }

  method DecodePayload(kind: Kind, data: seq<Octet>, rules: PayloadRules, lib: Library) returns (r: Option<Value>)
    requires lib.Lawful()
    ensures r.Some? ==> Admissible(r.value, DEFAULT_LIMITS) && r.value.Map? && rules.full(kind, r.value) && data == Enc(r.value)
    ensures forall v | Admissible(v, DEFAULT_LIMITS) && v.Map? && rules.full(kind, v) && data == Enc(v) :: r == Some(v)
  {
    hide Admissible, Enc;
    r := DecodeDeterministicWithLimits(data, DEFAULT_LIMITS, lib);
    if r.None? || !r.value.Map? || !rules.full(kind, r.value) {
      return None;
    }
  }

  /** The octets of what is parsed, piece by piece. */
  ghost predicate SpelledBy(p: Parsed, representation: seq<Octet>) {
    && p.protected == HeaderSpelling(ContentType(p.kind), p.keyId)
    && |p.signature| == 64 && representation == ObjectSpelling(p.protected, p.payloadBytes, p.signature)
  }

  lemma AcceptedIsSpelled(kind: Kind, v: Value, s: seq<Octet>, rules: PayloadRules, representation: seq<Octet>)
    requires Accepted(kind, v, s, rules, representation)
    ensures SpelledBy(ParsedFrom(kind, v, s), representation)
  {
    hide Enc, Header, HeaderSpelling, ObjectSpelling, Admissible;
    HeaderOctets(ContentType(kind), ExpectedKeyId(kind, v).value);
    Sign1Octets(Protected(kind, v), Enc(v), s);
  }

  /**
   * Parsing accepts exactly the representations of valid payloads with some signature, and gives
   * back the payload, its key id and the signature that the representation was made of.
   */
  method ParseCose(kind: Kind, representation: seq<Octet>, rules: PayloadRules, lib: Library) returns (r: Option<Parsed>)
    requires lib.Lawful() && rules.Lawful()
    ensures r.Some? ==> Accepted(kind, r.value.payload, r.value.signature, rules, representation)
    ensures r.Some? ==> r.value == ParsedFrom(kind, r.value.payload, r.value.signature) && SpelledBy(r.value, representation)
    ensures forall v, s | Accepted(kind, v, s, rules, representation) :: r == Some(ParsedFrom(kind, v, s))
  {
    hide SpelledBy, Admissible, Enc, Utf8, Header, EmbeddedKeyId, ContentType, KeyRole;
    if !IsSigned(kind) {
      return None;
    }
    ContentTypeIsSmall(kind);
    forall v, s | Accepted(kind, v, s, rules, representation)
      ensures HeaderIs(Protected(kind, v), ContentType(kind), ExpectedKeyId(kind, v).value)
    {
      KeyIdIsSmall(kind, v, rules);
      SmallHeaderIsPlain(kind, ExpectedKeyId(kind, v).value);
    }
    var outer := ParseOuter(representation, MaximumBytes(kind), lib);
    if outer.None? {
      return None;
    }
    var Outer(protected, payload, signature) := outer.value;
    var kid := ParseHeader(protected, ContentType(kind), lib);
    if kid.None? {
      return None;
    }
    var v := DecodePayload(kind, payload, rules, lib);
    if v.None? {
      return None;
    }
    KeyIdIsSmall(kind, v.value, rules);
    var expected := ExpectedKeyId(kind, v.value);
    if expected.None? || kid.value != expected.value {
      return None;
    }
    var embedded := EmbeddedKeyId(kind, v.value);
    if embedded != [] && embedded != kid.value {
      return None;
    }
    AcceptedIsSpelled(kind, v.value, signature, rules, representation);
    return Some(Parsed(kind, kid.value, v.value, payload, protected, signature));
  }

  method VerifySignedPayload(kind: Kind, representation: seq<Octet>, verifier: (seq<Octet>, seq<Octet>, seq<Octet>) -> bool,
                             rules: PayloadRules, lib: Library)
    returns (r: Option<Parsed>)
    requires lib.Lawful() && rules.Lawful()
    ensures r.Some? <==> exists v, s :: Accepted(kind, v, s, rules, representation)
                          && verifier(ExpectedKeyId(kind, v).value, Enc(ToBeSigned(Protected(kind, v), Enc(v))), s)
    ensures r.Some? ==> Accepted(kind, r.value.payload, r.value.signature, rules, representation)
    ensures r.Some? ==> r.value == ParsedFrom(kind, r.value.payload, r.value.signature) && SpelledBy(r.value, representation)
    ensures r.Some? ==> verifier(r.value.keyId, StructureSpelling(r.value.protected, r.value.payloadBytes), r.value.signature)
  {
    hide Admissible, Enc, ToBeSigned, SpelledBy, StructureSpelling;
    var parsed := ParseCose(kind, representation, rules, lib);
    if parsed.None? {
      return None;
    }
    AcceptedIsShort(kind, parsed.value.payload, parsed.value.signature, rules, representation);
    var structure := SigStructure(parsed.value.protected, parsed.value.payloadBytes, lib);
    if !verifier(parsed.value.keyId, structure, parsed.value.signature) {
      return None;
    }
    return parsed;
  }

  lemma AcceptedIsShort(kind: Kind, v: Value, s: seq<Octet>, rules: PayloadRules, representation: seq<Octet>)
    requires Accepted(kind, v, s, rules, representation)
    ensures |Protected(kind, v)| < TWO_64 && |Enc(v)| < TWO_64
  {
    Sign1Sizes(Protected(kind, v), Enc(v), s);
  }

  // ---------------------------------------------------------------- what a representation determines

  /**
   * A byte string is accepted for at most one kind, and it determines the payload and the
   * signature: nothing else goes into a representation.
   */
  lemma RepresentationDeterminesAll(a: Kind, v: Value, s: seq<Octet>, b: Kind, w: Value, t: seq<Octet>,
                                    rules: PayloadRules, representation: seq<Octet>)
    requires rules.Lawful()
    requires Accepted(a, v, s, rules, representation) && Accepted(b, w, t, rules, representation)
    ensures a == b && v == w && s == t
  {
    hide Admissible, Enc, Plain, Header, ContentType, KeyRole;
    AcceptedIsShort(a, v, s, rules, representation);
    AcceptedIsShort(b, w, t, rules, representation);
    Sign1IsPlain(Protected(a, v), Enc(v), s);
    Sign1IsPlain(Protected(b, w), Enc(w), t);
    SameSign1(Protected(a, v), Enc(v), s, Protected(b, w), Enc(w), t);
    OneValuePerEncoding(v, DEFAULT_LIMITS, w, DEFAULT_LIMITS);
    KeyIdIsSmall(a, v, rules);
    KeyIdIsSmall(b, w, rules);
    SmallHeaderIsPlain(a, ExpectedKeyId(a, v).value);
    SmallHeaderIsPlain(b, ExpectedKeyId(b, w).value);
    SameHeader(ContentType(a), ExpectedKeyId(a, v).value, ContentType(b), ExpectedKeyId(b, w).value);
    ContentTypeInjective(a, b);
  }

  lemma SameSign1(p: seq<Octet>, q: seq<Octet>, s: seq<Octet>, p': seq<Octet>, q': seq<Octet>, s': seq<Octet>)
    requires Plain(Sign1(p, q, s)) && Plain(Sign1(p', q', s'))
    requires Enc(Sign1(p, q, s)) == Enc(Sign1(p', q', s'))
    ensures p == p' && q == q' && s == s'
  {
    EncInjective(Sign1(p, q, s), Sign1(p', q', s'), [], []);
    var a, b := Sign1(p, q, s).inner.elements, Sign1(p', q', s').inner.elements;
    assert a[0] == b[0] && a[2] == b[2] && a[3] == b[3];
  }

  lemma SameHeader(c: seq<Octet>, k: seq<Octet>, c': seq<Octet>, k': seq<Octet>)
    requires Plain(Map(Header(c, k))) && Plain(Map(Header(c', k')))
    requires Enc(Map(Header(c, k))) == Enc(Map(Header(c', k')))
    ensures c == c' && k == k'
  {
    EncInjective(Map(Header(c, k)), Map(Header(c', k')), [], []);
    assert Header(c, k)[Int(3)] == Header(c', k')[Int(3)];
    assert Header(c, k)[Int(4)] == Header(c', k')[Int(4)];
  }
}
