/**
 * Tagged COSE_Sign1 objects, section 4.2 of RFC 9052, as the codec signs and parses them. A
 * payload is its CBOR map; which maps are valid payloads of a kind is a parameter.
 */
module Cose {
  import opened Octets
  import opened Options
  import opened Grammar
  import opened KeyOrder
  import opened Values
  import opened Admission
  import opened Scanning
  import opened Codec
  import opened Deterministic

  // ---------------------------------------------------------------- kinds

  datatype Kind =
    | AddressBinding
    | SenderProfile
    | Grant
    | ConnectionInvitation
    | ConnectionConfirmation
    | ConnectionGrant
    | ConnectionControl
    | Conversation
    | ConversationRevival
    | Envelope
    | DeliveryStatus
    | Body(profile: nat)

  function Ascii(s: string): (octets: seq<Octet>)
    ensures |octets| == |s|
    ensures forall i | 0 <= i < |s| :: octets[i] < 128
    ensures forall i | 0 <= i < |s| && s[i] as int < 128 :: octets[i] == s[i] as int
  {
    seq(|s|, i requires 0 <= i < |s| => if s[i] as int < 128 then s[i] as int else 63)
  }

  /** Message bodies are payloads, but not signed ones. */
  predicate IsSigned(kind: Kind) { !kind.Body? }

  function Name(kind: Kind): string {
    match kind
    case AddressBinding => "address-binding"
    case SenderProfile => "sender-profile"
    case Grant => "grant"
    case ConnectionInvitation => "connection-invitation"
    case ConnectionConfirmation => "connection-confirmation"
    case ConnectionGrant => "connection-grant"
    case ConnectionControl => "connection-control"
    case Conversation => "conversation"
    case ConversationRevival => "conversation-revival"
    case Envelope => "envelope"
    case DeliveryStatus => "delivery-status"
    case Body(_) => "body"
  }

  function ContentType(kind: Kind): seq<Octet> {
    Ascii("application/hail-") + Ascii(Name(kind)) + Ascii("+cbor")
  }

  function KeyRole(kind: Kind): seq<Octet> {
    if kind.AddressBinding? || kind.Grant? || kind.ConnectionInvitation? || kind.ConnectionConfirmation? || kind.ConnectionGrant?
    then Ascii("hail-identity") else Ascii("hail-messaging")
  }

  function MaximumBytes(kind: Kind): GoInt {
    if kind.SenderProfile? then 65536 else if kind.Grant? then 262144 else 16384
  }

  function SignerField(kind: Kind): string {
    if kind.AddressBinding? || kind.SenderProfile? then "did"
    else if kind.Grant? || kind.ConnectionGrant? then "grantor"
    else "from"
  }

  /** The kinds whose payload repeats its key id. */
  predicate EmbedsKeyId(kind: Kind) {
    kind.AddressBinding? || kind.SenderProfile? || kind.Grant? || kind.ConnectionInvitation?
    || kind.ConnectionConfirmation? || kind.ConnectionGrant? || kind.ConnectionControl?
  }

  lemma ContentTypeInjective(a: Kind, b: Kind)
    requires IsSigned(a) && IsSigned(b) && ContentType(a) == ContentType(b)
    ensures a == b
  {
    var p, q := Ascii("application/hail-"), Ascii("+cbor");
    var m, n := Ascii(Name(a)), Ascii(Name(b));
    assert |p + m + q| == |p| + |m| + |q| && |p + n + q| == |p| + |n| + |q|;
    assert (p + m + q)[|p|..|p| + |m|] == m && (p + n + q)[|p|..|p| + |n|] == n;
    hide Ascii, Name;
    NameInjective(a, b);
  }

  lemma NameInjective(a: Kind, b: Kind)
    requires IsSigned(a) && IsSigned(b) && Ascii(Name(a)) == Ascii(Name(b))
    ensures a == b
  {
    var m, n := Ascii(Name(a)), Ascii(Name(b));
    assert |m| == |n| && m[0] == n[0];
    assert Name(a)[0] == Name(b)[0];
  }

  /** Content type, key role, signer's member, size limit, and whether the key id is repeated, of a signed kind. */
  predicate Profile(kind: Kind, name: string, role: string, signer: string, most: GoInt, repeated: bool) {
    && ContentType(kind) == Ascii("application/hail-") + Ascii(name) + Ascii("+cbor") && KeyRole(kind) == Ascii(role)
    && SignerField(kind) == signer && MaximumBytes(kind) == most && EmbedsKeyId(kind) == repeated
  }

  /** The eleven signed kinds and their profiles, written out. */
  lemma Profiles()
    ensures Profile(AddressBinding, "address-binding", "hail-identity", "did", 16384, true)
    ensures Profile(SenderProfile, "sender-profile", "hail-messaging", "did", 65536, true)
    ensures Profile(Grant, "grant", "hail-identity", "grantor", 262144, true)
    ensures Profile(ConnectionInvitation, "connection-invitation", "hail-identity", "from", 16384, true)
    ensures Profile(ConnectionConfirmation, "connection-confirmation", "hail-identity", "from", 16384, true)
    ensures Profile(ConnectionGrant, "connection-grant", "hail-identity", "grantor", 16384, true)
    ensures Profile(ConnectionControl, "connection-control", "hail-messaging", "from", 16384, true)
    ensures Profile(Conversation, "conversation", "hail-messaging", "from", 16384, false)
    ensures Profile(ConversationRevival, "conversation-revival", "hail-messaging", "from", 16384, false)
    ensures Profile(Envelope, "envelope", "hail-messaging", "from", 16384, false)
    ensures Profile(DeliveryStatus, "delivery-status", "hail-messaging", "from", 16384, false)
  {
    hide Ascii;
  }

  // ---------------------------------------------------------------- payloads

  function TextField(v: Value, name: string): Option<seq<Octet>> {
    var key := TextString(Ascii(name));
    if v.Map? && key in v.entries && v.entries[key].TextString? then Some(v.entries[key].octets) else None
  }

  /** The key a payload of this kind must be signed with: its signer and the role of the kind. */
  function ExpectedKeyId(kind: Kind, v: Value): Option<seq<Octet>> {
    if !IsSigned(kind) then None else
      match TextField(v, SignerField(kind))
      case None => None
      case Some(signer) => Some(signer + Ascii("#") + KeyRole(kind))
  }

  function EmbeddedKeyId(kind: Kind, v: Value): seq<Octet> {
    if !EmbedsKeyId(kind) then [] else
      match TextField(v, "key_id")
      case None => []
      case Some(id) => id
  }

  /** The key id is the text under the signer's member, a number sign and the role of the kind; other values have none. */
  lemma KeyIdsAre(kind: Kind, name: string, role: string, signer: string, most: GoInt, repeated: bool, v: Value, id: seq<Octet>)
    requires IsSigned(kind) && Profile(kind, name, role, signer, most, repeated)
    ensures ExpectedKeyId(kind, v) == Some(id) <==>
            v.Map? && exists did ::
              (TextString(Ascii(signer)), TextString(did)) in v.entries.Items && id == did + Ascii("#") + Ascii(role)
  {
    hide Ascii, ContentType, KeyRole, SignerField;
    var key := TextString(Ascii(signer));
    if ExpectedKeyId(kind, v) == Some(id) {
      assert (key, TextString(v.entries[key].octets)) in v.entries.Items;
    }
  }

  /** Which payloads pass the prefilter on the typed struct, and which pass the full map validator. */
  datatype PayloadRules = PayloadRules(typed: (Kind, Value) -> bool, full: (Kind, Value) -> bool) {
    /** Every validator demands a canonical signer, and a key id built from it where there is one. */
    ghost predicate Lawful() {
      forall kind, v | IsSigned(kind) && full(kind, v) ::
        && TextField(v, SignerField(kind)).Some?
        && IsDid(TextField(v, SignerField(kind)).value)
        && (EmbedsKeyId(kind) ==> TextField(v, "key_id") == ExpectedKeyId(kind, v))
    }
  }

  predicate IsDid(s: seq<Octet>) {
    && |s| == 32
    && s[..8] == Ascii("did:plc:")
    && forall i | 8 <= i < 32 :: 97 <= s[i] <= 122 || 50 <= s[i] <= 55
  }

  // ---------------------------------------------------------------- the signed object

  const TAG_SIGN1 := 18

  function Header(contentType: seq<Octet>, kid: seq<Octet>): map<Value, Value> {
    map[Int(1) := Int(-19), Int(3) := TextString(contentType), Int(4) := ByteString(kid)]
  }

  function Sign1(protected: seq<Octet>, payload: seq<Octet>, signature: seq<Octet>): Value {
    Tagged(TAG_SIGN1, Array([ByteString(protected), Map(map[]), ByteString(payload), ByteString(signature)]))
  }

  /** What is signed, section 4.4 of RFC 9052. */
  function ToBeSigned(protected: seq<Octet>, payload: seq<Octet>): Value {
    Array([TextString(Ascii("Signature1")), ByteString(protected), ByteString([]), ByteString(payload)])
  }

  ghost function Protected(kind: Kind, v: Value): seq<Octet>
    requires ExpectedKeyId(kind, v).Some?
  {
    Enc(Map(Header(ContentType(kind), ExpectedKeyId(kind, v).value)))
  }

  /** The one octet string that represents this payload, signed with this signature. */
  ghost function Representation(kind: Kind, v: Value, signature: seq<Octet>): seq<Octet>
    requires ExpectedKeyId(kind, v).Some?
  {
    Enc(Sign1(Protected(kind, v), Enc(v), signature))
  }

  ghost predicate Accepted(kind: Kind, v: Value, signature: seq<Octet>, rules: PayloadRules, representation: seq<Octet>) {
    && IsSigned(kind)
    && rules.full(kind, v) && v.Map?
    && Admissible(v, DEFAULT_LIMITS)
    && ExpectedKeyId(kind, v).Some?
    && |signature| == 64
    && representation == Representation(kind, v, signature)
    && |representation| <= MaximumBytes(kind)
  }

  function CoseLimits(maximumBytes: GoInt): Limits {
    Limits(maximumBytes, 8, 256, 8, 8, 1024, maximumBytes)
  }

  // ---------------------------------------------------------------- the outer array

  datatype Outer = Outer(protected: seq<Octet>, payload: seq<Octet>, signature: seq<Octet>)

  function OuterRules(most: GoInt): Rules { Rules(CoseLimits(most), true, false) }

  method ParseOuter(data: seq<Octet>, most: GoInt, lib: Library) returns (r: Option<Outer>)
    requires lib.Lawful()
    ensures r.Some? ==> |data| <= most && |r.value.signature| == 64
    ensures r.Some? ==> data == Enc(Sign1(r.value.protected, r.value.payload, r.value.signature))
    ensures forall p, q, s | |data| <= most && |s| == 64 && data == Enc(Sign1(p, q, s)) :: r == Some(Outer(p, q, s))
  {
    hide Enc, Wire, Fits, Scans;
    if |data| > most {
      return None;
    }
    forall p, q, s | |s| == 64 && data == Enc(Sign1(p, q, s))
      ensures OuterPasses(data, most, p, q, s)
    {
      Sign1Passes(data, most, p, q, s);
    }
    if |data| == 0 || data[0] != 0xd2 {
      return None;
    }
    ghost var it;
    var ok;
    ok, it := ScanCbor(data, OuterRules(most));
    if !ok {
      return None;
    }
    LibraryReads(lib, data, OuterRules(most), it);
    forall p, q, s | |s| == 64 && data == Enc(Sign1(p, q, s))
      ensures Unmarshal(it) == Some(Sign1(p, q, s))
    {
      UniquePrefix(it, Wire(Sign1(p, q, s)), data);
    }
    var tagged := lib.unmarshalTagged(data);
    if tagged.None? || !tagged.value.Tagged? || tagged.value.number != TAG_SIGN1 {
      return None;
    }
    UnmarshalIsPlain(it);
    var canonical := lib.marshal(tagged.value);
    if canonical != data {
      return None;
    }
    var content := tagged.value.inner;
    if !content.Array? || |content.elements| != 4 {
      return None;
    }
    var items := content.elements;
    if !items[0].ByteString? || !items[1].Map? || |items[1].entries| != 0 || !items[2].ByteString? {
      return None;
    }
    if !items[3].ByteString? || |items[3].octets| != 64 {
      return None;
    }
    assert items[1].entries == map[];
    assert items == [ByteString(items[0].octets), Map(map[]), ByteString(items[2].octets), ByteString(items[3].octets)];
    return Some(Outer(items[0].octets, items[2].octets, items[3].octets));
  }

  ghost predicate OuterPasses(data: seq<Octet>, most: GoInt, p: seq<Octet>, q: seq<Octet>, s: seq<Octet>) {
    && data != [] && data[0] == 0xd2
    && Scans(data, OuterRules(most), Wire(Sign1(p, q, s)))
    && WellFormed(Wire(Sign1(p, q, s))) && Bytes(Wire(Sign1(p, q, s))) == data
    && Unmarshal(Wire(Sign1(p, q, s))) == Some(Sign1(p, q, s))
  }

  lemma Sign1Passes(data: seq<Octet>, most: GoInt, p: seq<Octet>, q: seq<Octet>, s: seq<Octet>)
    requires |data| <= most && |s| == 64 && data == Enc(Sign1(p, q, s))
    ensures OuterPasses(data, most, p, q, s)
  {
    var v := Sign1(p, q, s);
    Sign1Sizes(p, q, s);
    Sign1Fits(most, p, q, s);
    hide Fits, Wire, Plain;
    WireWithin(v, OuterRules(most), 0, true);
    WireIsWellFormed(v);
    UnmarshalOfWire(v);
  }

  lemma Sign1Fits(most: GoInt, p: seq<Octet>, q: seq<Octet>, s: seq<Octet>)
    requires |p| <= most && |q| <= most && |s| <= most
    ensures Fits(Sign1(p, q, s), OuterRules(most), 0, true, LEAST_SCANNED)
    ensures Plain(Sign1(p, q, s))
  {
    var rules := OuterRules(most);
    var empty: map<Value, Value> := map[];
    assert Fits(ByteString(p), rules, 2, false, LEAST_SCANNED);
    assert Fits(Map(empty), rules, 2, false, LEAST_SCANNED);
    assert Fits(ByteString(q), rules, 2, false, LEAST_SCANNED);
    assert Fits(ByteString(s), rules, 2, false, LEAST_SCANNED);
    var items := [ByteString(p), Map(empty), ByteString(q), ByteString(s)];
    assert forall x | x in items :: Fits(x, rules, 2, false, LEAST_SCANNED);
    assert Fits(Array(items), rules, 1, false, LEAST_SCANNED);
    assert Plain(Map(empty));
    assert forall x | x in items :: Plain(x);
    assert Plain(Array(items));
  }

  /** The first octet, the item count, and a lower bound on the length. */
  lemma Sign1Sizes(p: seq<Octet>, q: seq<Octet>, s: seq<Octet>)
    ensures Nodes(Wire(Sign1(p, q, s))) == 6
    ensures |Enc(Sign1(p, q, s))| >= |p| + |q| + |s|
    ensures Enc(Sign1(p, q, s))[0] == 0xd2
  {
    var empty: map<Value, Value> := map[];
    var xs := [ByteString(p), Map(empty), ByteString(q), ByteString(s)];
    Sign1Wire(p, q, s);
    EmptySizes();
    LeafTally(ByteString(p));
    LeafTally(ByteString(q));
    LeafTally(ByteString(s));
    hide Wire, Bytes, Nodes, ValueNodes, RunTally;
    Admission.ArrayTally(xs);
    RunOfFour(xs[0], xs[1], xs[2], xs[3]);
  }

  /** A signed object is the tag octet and the array behind it. */
  lemma Sign1Wire(p: seq<Octet>, q: seq<Octet>, s: seq<Octet>)
    ensures var content := Wire(Array([ByteString(p), Map(map[]), ByteString(q), ByteString(s)]));
            && Nodes(Wire(Sign1(p, q, s))) == 1 + Nodes(content)
            && Enc(Sign1(p, q, s)) == [0xd2] + Bytes(content)
  {
    var xs := [ByteString(p), Map(map[]), ByteString(q), ByteString(s)];
    var it, content := Wire(Sign1(p, q, s)), Wire(Array(xs));
    assert it == Item(6, 0, 18, [], [content]);
    AllNone();
    AllCons([content]);
    assert [content][1..] == [] && Bytes(content) + [] == Bytes(content);
    assert Head(6, 0, 18) == [0xd2];
    hide Wire, BytesAll, NodesAll;
    assert Bytes(it) == [0xd2] + [] + BytesAll([content]);
  }

  lemma EmptySizes()
    ensures ValueTally(Map(map[])) == (1, 1, 1)
  {
    var empty: map<Value, Value> := map[];
    Admission.MapTally(empty);
    ListsLength(Order(empty), empty.Keys);
    assert Order(empty) == [];
    TallyNone(empty);
  }

  lemma RunOfFour(a: Value, b: Value, c: Value, d: Value)
    ensures RunTally([a, b, c, d]) == Sum(ValueTally(a), Sum(ValueTally(b), Sum(ValueTally(c), ValueTally(d))))
  {
    hide RunTally, ValueTally;
    RunTallyNone();
    RunTallyCons([a, b, c, d]);
    RunTallyCons([b, c, d]);
    RunTallyCons([c, d]);
    RunTallyCons([d]);
    assert [a, b, c, d][1..] == [b, c, d] && [b, c, d][1..] == [c, d] && [c, d][1..] == [d] && [d][1..] == [];
  }

  // ---------------------------------------------------------------- the protected header

  function HeaderRules(): Rules { Rules(CoseLimits(1024), false, false) }

  /** The one value, if any, of which these octets are the canonical encoding within the header's limits. */
  method DecodeHeader(protected: seq<Octet>, lib: Library) returns (r: Option<Value>)
    requires lib.Lawful()
    ensures r.Some? ==> protected == Enc(r.value) && |protected| <= 1024
    ensures forall v | Canonical(protected, v) :: r == Some(v)
  {
    hide Wire, Scans, Unmarshal, Plain;
    ghost var it;
    var ok;
    ok, it := ScanCbor(protected, HeaderRules());
    if !ok {
      return None;
    }
    LibraryReads(lib, protected, HeaderRules(), it);
    forall v | Canonical(protected, v)
      ensures it == Wire(v)
    {
      UniquePrefix(it, Wire(v), protected);
    }
    hide WellFormed;
    var decoded := lib.unmarshal(protected);
    if decoded.None? {
      return None;
    }
    UnmarshalIsPlain(it);
    var canonical := lib.marshal(decoded.value);
    if canonical != protected {
      return None;
    }
    return decoded;
  }

  ghost predicate Canonical(protected: seq<Octet>, v: Value) {
    && Scans(protected, HeaderRules(), Wire(v))
    && Plain(v) && WellFormed(Wire(v)) && Enc(v) == protected && Unmarshal(Wire(v)) == Some(v)
  }

  method ParseHeader(protected: seq<Octet>, contentType: seq<Octet>, lib: Library) returns (r: Option<seq<Octet>>)
    requires lib.Lawful() && Utf8(contentType)
    ensures forall kid :: r == Some(kid) <==> HeaderIs(protected, contentType, kid)
  {
    hide Enc, Utf8, Canonical;
    var decoded := DecodeHeader(protected, lib);
    forall kid | HeaderIs(protected, contentType, kid)
      ensures decoded == Some(Map(Header(contentType, kid))) && |Header(contentType, kid)| == 3
    {
      HeaderIsCanonical(protected, contentType, kid);
      HeaderEntries(contentType, kid);
    }
    if decoded.None? || !decoded.value.Map? || |decoded.value.entries| != 3 {
      return None;
    }
    var header := decoded.value.entries;
    if Int(1) !in header || header[Int(1)] != Int(-19) {
      return None;
    }
    if Int(3) !in header || header[Int(3)] != TextString(contentType) {
      return None;
    }
    if Int(4) !in header || !header[Int(4)].ByteString? || !Utf8(header[Int(4)].octets) {
      return None;
    }
    if exists key | key in header :: key != Int(1) && key != Int(3) && key != Int(4) {
      return None;
    }
    HeaderFound(header, contentType);
    return Some(header[Int(4)].octets);
  }

  lemma HeaderFound(h: map<Value, Value>, contentType: seq<Octet>)
    requires Int(1) in h && Int(3) in h && Int(4) in h
    requires forall k | k in h :: k == Int(1) || k == Int(3) || k == Int(4)
    requires h[Int(1)] == Int(-19) && h[Int(3)] == TextString(contentType) && h[Int(4)].ByteString?
    ensures h == Header(contentType, h[Int(4)].octets)
  {
    HeaderEntries(contentType, h[Int(4)].octets);
    assert h.Keys == {Int(1), Int(3), Int(4)};
  }

  /** The canonical header of this content type and key id, within the header's limit of 1024 octets. */
  ghost predicate HeaderIs(protected: seq<Octet>, contentType: seq<Octet>, kid: seq<Octet>) {
    Utf8(kid) && protected == Enc(Map(Header(contentType, kid))) && |protected| <= 1024
  }

  lemma HeaderIsCanonical(protected: seq<Octet>, contentType: seq<Octet>, kid: seq<Octet>)
    requires Utf8(contentType) && HeaderIs(protected, contentType, kid)
    ensures Canonical(protected, Map(Header(contentType, kid)))
  {
    var v := Map(Header(contentType, kid));
    HeaderSizes(contentType, kid);
    HeaderFits(contentType, kid);
    HeaderEntries(contentType, kid);
    hide Fits, Wire, Plain;
    WireIsWellFormed(v);
    UnmarshalOfWire(v);
    WireWithin(v, HeaderRules(), 0, true);
  }

  lemma HeaderEntries(contentType: seq<Octet>, kid: seq<Octet>)
    ensures Header(contentType, kid).Keys == {Int(1), Int(3), Int(4)}
    ensures |Header(contentType, kid)| == 3
  {
    assert Header(contentType, kid).Keys == {Int(1), Int(3), Int(4)};
    assert |{Int(1), Int(3), Int(4)}| == 3;
  }

  lemma HeaderFits(contentType: seq<Octet>, kid: seq<Octet>)
    requires Utf8(contentType) && |contentType| <= 1024 && |kid| <= 1024
    ensures Fits(Map(Header(contentType, kid)), HeaderRules(), 0, true, LEAST_SCANNED)
    ensures Plain(Map(Header(contentType, kid)))
  {
    var h := Header(contentType, kid);
    HeaderEntries(contentType, kid);
    hide Fits, Plain;
    forall k | k in h
      ensures LeafFits(k) && LeafFits(h[k]) && Hashable(k)
    {
      LeavesFit(contentType, kid);
    }
    MapOfLeavesFits(h);
  }

  ghost predicate LeafFits(v: Value) { Fits(v, HeaderRules(), 1, false, LEAST_SCANNED) && Plain(v) }

  lemma LeavesFit(contentType: seq<Octet>, kid: seq<Octet>)
    requires Utf8(contentType) && |contentType| <= 1024 && |kid| <= 1024
    ensures LeafFits(Int(1)) && LeafFits(Int(3)) && LeafFits(Int(4)) && LeafFits(Int(-19))
    ensures LeafFits(TextString(contentType)) && LeafFits(ByteString(kid))
    ensures Hashable(Int(1)) && Hashable(Int(3)) && Hashable(Int(4))
  {
    hide Utf8;
  }

  lemma MapOfLeavesFits(m: map<Value, Value>)
    requires |m| == 3
    requires forall k | k in m :: LeafFits(k) && LeafFits(m[k]) && Hashable(k)
    ensures Fits(Map(m), HeaderRules(), 0, true, LEAST_SCANNED) && Plain(Map(m))
  {
  }

  /** A header has seven items, and is little longer than its content type and key id together. */
  lemma HeaderSizes(contentType: seq<Octet>, kid: seq<Octet>)
    ensures var v := Map(Header(contentType, kid));
            && Nodes(Wire(v)) == 7
            && |contentType| + |kid| <= |Enc(v)| <= 23 + |contentType| + |kid|
  {
    hide Wire, Nodes, Tally, Order, EntryTally, Enc;
    var h := Header(contentType, kid);
    var ks := [Int(1), Int(3), Int(4)];
    HeaderEntries(contentType, kid);
    assert Lists(ks, h.Keys);
    SizesOfMap(h);
    TallyOrder(h, ks, Order(h));
    TallyNone(h);
    assert [Int(4)] + [] == [Int(4)] && [Int(3)] + [Int(4)] == [Int(3), Int(4)] && [Int(1)] + [Int(3), Int(4)] == ks;
    TallyCons(h, Int(4), []);
    TallyCons(h, Int(3), [Int(4)]);
    TallyCons(h, Int(1), [Int(3), Int(4)]);
    HeaderEntrySizes(contentType, kid);
  }

  lemma SizesOfMap(m: map<Value, Value>)
    ensures Nodes(Wire(Map(m))) == 1 + Tally(m, Order(m)).1
    ensures |Enc(Map(m))| == 1 + ShortestWidth(|m|) + Tally(m, Order(m)).0
  {
    hide Tally, Order;
    Admission.MapTally(m);
  }

  lemma HeaderEntrySizes(contentType: seq<Octet>, kid: seq<Octet>)
    ensures var h := Header(contentType, kid);
            && EntryTally(h, Int(1)).1 == 2 && EntryTally(h, Int(3)).1 == 2 && EntryTally(h, Int(4)).1 == 2
            && EntryTally(h, Int(1)).0 == 2
            && 2 + |contentType| <= EntryTally(h, Int(3)).0 <= 10 + |contentType|
            && 2 + |kid| <= EntryTally(h, Int(4)).0 <= 10 + |kid|
  {
    hide Wire, Nodes, Enc;
    LeafTally(Int(1));
    LeafTally(Int(3));
    LeafTally(Int(4));
    LeafTally(Int(-19));
    LeafTally(TextString(contentType));
    LeafTally(ByteString(kid));
  }
}
