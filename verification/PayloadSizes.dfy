/**
 * The payload structs as reflection sees them, with the cbor tags of their fields, and what a passed
 * size preflight says of the integers in them.
 */
module PayloadSizes {
  import opened Octets
  import opened Options
  import opened Grammar
  import opened Values
  import opened Admission
  import opened Deterministic
  import opened TypedPreflight
  import Cose
  import P = Payloads

  /** How a Go string is spelled. */
  type Spelling = string -> seq<Octet>

  function Tagged(name: string, value: Typed): Field { Field(Cose.Ascii(name), false, false, value) }

  function OmitEmpty(name: string, value: Typed): Field { Field(Cose.Ascii(name), false, true, value) }

  function OptionalInteger(n: Option<int>): Typed { Pointer(if n.Some? then Some(Integer(n.value)) else None) }

  function DigestStruct(d: P.Digest, spell: Spelling): Typed {
    Struct([Tagged("algorithm", Text(spell(d.algorithm))), Tagged("value", TypedPreflight.Octets(false, d.value))])
  }

  function AuthorizationStruct(a: P.Authorization, spell: Spelling): Typed {
    Struct([
      OmitEmpty("creator", Text(spell(a.creator))),
      OmitEmpty("conversation_id", Text(spell(a.conversationId))),
      OmitEmpty("membership_revision", Integer(a.membershipRevision)),
      OmitEmpty("descriptor_hash", Pointer(if a.descriptorHash.Some? then Some(DigestStruct(a.descriptorHash.value, spell)) else None)),
      Tagged("type", Text(spell(a.kind))),
      OmitEmpty("grant_id", Text(spell(a.grantId))),
      OmitEmpty("reply_to", Text(spell(a.replyTo))),
      OmitEmpty("connection_id", Text(spell(a.connectionId))),
      OmitEmpty("epoch", Integer(a.epoch))])
  }

  function AccessStruct(a: P.Access, spell: Spelling): Typed {
    Struct([Tagged("type", Text(spell(a.kind))), Tagged("token", TypedPreflight.Octets(false, a.token)), Tagged("expires_at", Integer(a.expiresAt))])
  }

  function BodyStruct(b: P.Body, spell: Spelling): Typed {
    Struct([
      Tagged("digest", DigestStruct(b.digest, spell)),
      Tagged("size", Integer(b.size)),
      Tagged("media_type", Text(spell(b.mediaType))),
      Tagged("profile", Text(spell(b.profile))),
      Tagged("available_until", Integer(b.availableUntil)),
      Tagged("access", AccessStruct(b.access, spell))])
  }

  function ReplyStruct(allowed: bool, until: Option<int>): Typed {
    Struct([Tagged("allowed", Boolean(allowed)), OmitEmpty("until", OptionalInteger(until))])
  }

  function ParentStruct(p: P.Parent, spell: Spelling): Typed {
    Struct([Tagged("sender", Text(spell(p.sender))), Tagged("message_id", Text(spell(p.messageId)))])
  }

  function IntroductionStruct(i: P.Introduction, spell: Spelling): Typed {
    Struct([
      Tagged("descriptor", TypedPreflight.Octets(false, i.descriptor)),
      Tagged("connection_id", Text(spell(i.connectionId))),
      Tagged("epoch", Integer(i.epoch))])
  }

  function EnvelopeStruct(e: P.Envelope, spell: Spelling): Typed {
    Struct([
      OmitEmpty("conversation_message_id", Text(spell(e.conversationMessageId))),
      OmitEmpty("conversation_introduction", Pointer(if e.introduction.Some? then Some(IntroductionStruct(e.introduction.value, spell)) else None)),
      OmitEmpty("in_reply_to", Pointer(if e.inReplyTo.Some? then Some(ParentStruct(e.inReplyTo.value, spell)) else None)),
      Tagged("type", Text(spell(e.kind))),
      Tagged("version", Integer(e.version)),
      Tagged("message_id", Text(spell(e.messageId))),
      Tagged("from", Text(spell(e.from))),
      Tagged("to", Text(spell(e.to))),
      Tagged("authorization", AuthorizationStruct(e.authorization, spell)),
      OmitEmpty("category", Text(spell(e.category))),
      OmitEmpty("message_type", Text(spell(e.messageType))),
      Tagged("created_at", Integer(e.createdAt)),
      Tagged("expires_at", Integer(e.expiresAt)),
      Tagged("body", BodyStruct(e.body, spell)),
      Tagged("reply", ReplyStruct(e.allowed, e.until))])
  }

  function TextSlice(values: seq<string>, spell: Spelling): (ts: seq<Typed>)
    ensures |ts| == |values|
    ensures forall i | 0 <= i < |values| :: ts[i] == Text(spell(values[i]))
  {
    seq(|values|, i requires 0 <= i < |values| => Text(spell(values[i])))
  }

  function SelectorStruct(s: P.Selector, spell: Spelling): Typed {
    Struct([
      Tagged("type", Text(spell(s.kind))),
      OmitEmpty("values", if s.values.Some? then Slice(false, TextSlice(s.values.value, spell)) else Slice(true, []))])
  }

  function ScopeSlice(scope: seq<P.Selector>, spell: Spelling): (ts: seq<Typed>)
    ensures |ts| == |scope|
    ensures forall i | 0 <= i < |scope| :: ts[i] == SelectorStruct(scope[i], spell)
  {
    seq(|scope|, i requires 0 <= i < |scope| => SelectorStruct(scope[i], spell))
  }

  function ContextStruct(g: P.Grant, spell: Spelling): Typed {
    Struct([
      Tagged("grantee_address", Text(spell(g.granteeAddress))),
      Tagged("address_binding_hash", DigestStruct(g.addressBindingHash, spell)),
      Tagged("sender_profile_hash", DigestStruct(g.senderProfileHash, spell))])
  }

  function GrantStruct(g: P.Grant, spell: Spelling): Typed {
    Struct([
      Tagged("type", Text(spell(g.kind))),
      Tagged("version", Integer(g.version)),
      Tagged("grant_id", Text(spell(g.grantId))),
      Tagged("revision", Integer(g.revision)),
      Tagged("previous", if g.previous.Some? then TypedPreflight.Octets(false, g.previous.value) else TypedPreflight.Octets(true, [])),
      Tagged("grantor", Text(spell(g.grantor))),
      Tagged("grantee", Text(spell(g.grantee))),
      Tagged("scope", Slice(false, ScopeSlice(g.scope, spell))),
      Tagged("status", Text(spell(g.status))),
      Tagged("issued_at", Integer(g.issuedAt)),
      Tagged("updated_at", Integer(g.updatedAt)),
      Tagged("expires_at", OptionalInteger(g.expiresAt)),
      Tagged("consent_context", ContextStruct(g, spell)),
      Tagged("key_id", Text(spell(g.keyId)))])
  }

  function DeliveryStruct(d: P.Delivery, spell: Spelling): Typed {
    Struct([
      Tagged("type", Text(spell(d.kind))),
      Tagged("version", Integer(d.version)),
      Tagged("message_id", Text(spell(d.messageId))),
      Tagged("envelope_digest", DigestStruct(d.envelopeDigest, spell)),
      Tagged("from", Text(spell(d.from))),
      Tagged("to", Text(spell(d.to))),
      Tagged("revision", Integer(d.revision)),
      Tagged("state", Text(spell(d.state))),
      OmitEmpty("reason", Text(spell(d.reason))),
      OmitEmpty("retry_at", OptionalInteger(d.retryAt)),
      Tagged("occurred_at", Integer(d.occurredAt))])
  }

  // ---------------------------------------------------------------- the structs are well declared

  /** Tags that differ in length or in their first letter. */
  ghost predicate Apart(fs: seq<Field>) {
    forall i, j | 0 <= i < j < |fs| ::
      fs[i].tag != [] && fs[j].tag != [] && (|fs[i].tag| != |fs[j].tag| || fs[i].tag[0] != fs[j].tag[0])
  }

  lemma ApartIsDistinct(fs: seq<Field>)
    requires Apart(fs)
    ensures DistinctTags(fs)
  {
  }

  /** So are tags from which the place of their field can be told. */
  lemma PlacedIsDistinct(fs: seq<Field>, place: seq<Octet> -> int)
    requires forall i | 0 <= i < |fs| :: place(fs[i].tag) == i
    ensures DistinctTags(fs)
  {
  }

  /** A value that holds no struct. */
  predicate Plainly(t: Typed) {
    match t
    case Boolean(_) => true
    case Integer(_) => true
    case Text(_) => true
    case Octets(isNil, s) => isNil ==> s == []
    case Pointer(None) => true
    case Pointer(Some(x)) => x.Integer?
    case _ => false
  }

  lemma DeclaredStruct(fs: seq<Field>)
    requires DistinctTags(fs)
    requires forall i | 0 <= i < |fs| :: Plainly(fs[i].value) || Declared(fs[i].value)
    ensures Declared(Struct(fs))
  {
    forall f | f in fs
      ensures Declared(f.value)
    {
      var i :| 0 <= i < |fs| && fs[i] == f;
    }
  }

  lemma DeclaredPointer(t: Option<Typed>)
    requires t.Some? ==> Declared(t.value)
    ensures Declared(Pointer(t))
  {
  }

  lemma DeclaredDigest(d: P.Digest, spell: Spelling)
    ensures Declared(DigestStruct(d, spell))
  {
    hide Declared;
    ApartIsDistinct(DigestStruct(d, spell).fields);
    DeclaredStruct(DigestStruct(d, spell).fields);
  }

  lemma AuthorizationTags(a: P.Authorization, spell: Spelling)
    ensures DistinctTags(AuthorizationStruct(a, spell).fields)
  {
    hide DigestStruct;
    var fs := AuthorizationStruct(a, spell).fields;
    assert fs[1].tag[0] == 99 && fs[3].tag[0] == 100 && fs[5].tag[0] == 103 && fs[6].tag[0] == 114;
    ApartIsDistinct(fs);
  }

  lemma DeclaredAuthorization(a: P.Authorization, spell: Spelling)
    ensures Declared(AuthorizationStruct(a, spell))
  {
    hide Declared, DigestStruct, DistinctTags;
    AuthorizationTags(a, spell);
    var fs := AuthorizationStruct(a, spell).fields;
    if a.descriptorHash.Some? {
      DeclaredDigest(a.descriptorHash.value, spell);
    }
    DeclaredPointer(if a.descriptorHash.Some? then Some(DigestStruct(a.descriptorHash.value, spell)) else None);
    DeclaredStruct(fs);
  }

  lemma BodyTags(b: P.Body, spell: Spelling)
    ensures DistinctTags(BodyStruct(b, spell).fields)
  {
    hide DigestStruct, AccessStruct;
    var fs := BodyStruct(b, spell).fields;
    assert fs[0].tag[0] == 100 && fs[5].tag[0] == 97;
    ApartIsDistinct(fs);
  }

  lemma DeclaredAccess(a: P.Access, spell: Spelling)
    ensures Declared(AccessStruct(a, spell))
  {
    hide Declared;
    ApartIsDistinct(AccessStruct(a, spell).fields);
    DeclaredStruct(AccessStruct(a, spell).fields);
  }

  lemma DeclaredBody(b: P.Body, spell: Spelling)
    ensures Declared(BodyStruct(b, spell))
  {
    hide Declared, DigestStruct, AccessStruct, DistinctTags;
    BodyTags(b, spell);
    DeclaredAccess(b.access, spell);
    DeclaredDigest(b.digest, spell);
    DeclaredStruct(BodyStruct(b, spell).fields);
  }

  lemma DeclaredReply(allowed: bool, until: Option<int>)
    ensures Declared(ReplyStruct(allowed, until))
  {
    hide Declared;
    ApartIsDistinct(ReplyStruct(allowed, until).fields);
    DeclaredStruct(ReplyStruct(allowed, until).fields);
  }

  lemma DeclaredParent(p: P.Parent, spell: Spelling)
    ensures Declared(ParentStruct(p, spell))
  {
    hide Declared;
    ApartIsDistinct(ParentStruct(p, spell).fields);
    DeclaredStruct(ParentStruct(p, spell).fields);
  }

  lemma DeclaredIntroduction(i: P.Introduction, spell: Spelling)
    ensures Declared(IntroductionStruct(i, spell))
  {
    hide Declared;
    ApartIsDistinct(IntroductionStruct(i, spell).fields);
    DeclaredStruct(IntroductionStruct(i, spell).fields);
  }

  function EnvelopePlace(tag: seq<Octet>): int {
    match |tag|
    case 2 => 7
    case 4 => if tag[0] == 116 then 3 else if tag[0] == 102 then 6 else 13
    case 5 => 14
    case 7 => 4
    case 8 => 9
    case 10 => if tag[0] == 109 then 5 else if tag[0] == 99 then 11 else 12
    case 11 => 2
    case 12 => 10
    case 13 => 8
    case 23 => 0
    case _ => 1
  }

  lemma EnvelopeTags(e: P.Envelope, spell: Spelling)
    ensures DistinctTags(EnvelopeStruct(e, spell).fields)
  {
    var fs := EnvelopeStruct(e, spell).fields;
    assert forall i | 0 <= i < |fs| :: EnvelopePlace(fs[i].tag) == i by {
      hide AuthorizationStruct, BodyStruct, ReplyStruct, ParentStruct, IntroductionStruct;
    }
    hide EnvelopeStruct, EnvelopePlace;
    PlacedIsDistinct(fs, EnvelopePlace);
  }

  lemma DeclaredEnvelope(e: P.Envelope, spell: Spelling)
    ensures Declared(EnvelopeStruct(e, spell))
  {
    hide Declared, AuthorizationStruct, BodyStruct, ReplyStruct, ParentStruct, IntroductionStruct, DistinctTags;
    EnvelopeTags(e, spell);
    DeclaredAuthorization(e.authorization, spell);
    DeclaredBody(e.body, spell);
    DeclaredReply(e.allowed, e.until);
    if e.inReplyTo.Some? {
      DeclaredParent(e.inReplyTo.value, spell);
    }
    if e.introduction.Some? {
      DeclaredIntroduction(e.introduction.value, spell);
    }
    DeclaredPointer(if e.introduction.Some? then Some(IntroductionStruct(e.introduction.value, spell)) else None);
    DeclaredPointer(if e.inReplyTo.Some? then Some(ParentStruct(e.inReplyTo.value, spell)) else None);
    DeclaredStruct(EnvelopeStruct(e, spell).fields);
  }

  lemma DeclaredSelector(s: P.Selector, spell: Spelling)
    ensures Declared(SelectorStruct(s, spell))
  {
    ApartIsDistinct(SelectorStruct(s, spell).fields);
    DeclaredStruct(SelectorStruct(s, spell).fields);
  }

  lemma DeclaredContext(g: P.Grant, spell: Spelling)
    ensures Declared(ContextStruct(g, spell))
  {
    hide Declared, DigestStruct;
    ApartIsDistinct(ContextStruct(g, spell).fields);
    DeclaredDigest(g.addressBindingHash, spell);
    DeclaredDigest(g.senderProfileHash, spell);
    DeclaredStruct(ContextStruct(g, spell).fields);
  }

  lemma DeclaredScope(scope: seq<P.Selector>, spell: Spelling)
    ensures Declared(Slice(false, ScopeSlice(scope, spell)))
  {
    forall s | s in ScopeSlice(scope, spell)
      ensures Declared(s)
    {
      var i :| 0 <= i < |scope| && ScopeSlice(scope, spell)[i] == s;
      DeclaredSelector(scope[i], spell);
    }
    hide ScopeSlice, SelectorStruct;
  }

  /** Tags of one length differ in their first letters, but for grantor and grantee. */
  function GrantPlace(tag: seq<Octet>): int {
    match |tag|
    case 4 => 0
    case 5 => 7
    case 6 => if tag[0] == 115 then 8 else 13
    case 7 => if tag[0] == 118 then 1 else if tag[5] == 111 then 5 else 6
    case 8 => if tag[0] == 103 then 2 else if tag[0] == 114 then 3 else 4
    case 9 => 9
    case 10 => if tag[0] == 117 then 10 else 11
    case _ => 12
  }

  lemma GrantTags(g: P.Grant, spell: Spelling)
    ensures DistinctTags(GrantStruct(g, spell).fields)
  {
    var fs := GrantStruct(g, spell).fields;
    assert forall i | 0 <= i < |fs| :: GrantPlace(fs[i].tag) == i by {
      hide ContextStruct, ScopeSlice;
    }
    hide GrantStruct, GrantPlace;
    PlacedIsDistinct(fs, GrantPlace);
  }

  lemma DeclaredGrant(g: P.Grant, spell: Spelling)
    ensures Declared(GrantStruct(g, spell))
  {
    hide Declared, ContextStruct, ScopeSlice, DistinctTags;
    GrantTags(g, spell);
    DeclaredContext(g, spell);
    DeclaredScope(g.scope, spell);
    DeclaredStruct(GrantStruct(g, spell).fields);
  }

  lemma DeliveryTags(d: P.Delivery, spell: Spelling)
    ensures DistinctTags(DeliveryStruct(d, spell).fields)
  {
    hide DigestStruct;
    var fs := DeliveryStruct(d, spell).fields;
    assert fs[0].tag[0] == 116 && fs[4].tag[0] == 102;
    assert fs[6].tag[2] == 118 && fs[9].tag[2] == 116;
    forall i, j | 0 <= i < j < |fs|
      ensures fs[i].tag != fs[j].tag
    {
      assert |fs[i].tag| != |fs[j].tag| || fs[i].tag[0] != fs[j].tag[0] || (i == 6 && j == 9);
    }
  }

  lemma DeclaredDelivery(d: P.Delivery, spell: Spelling)
    ensures Declared(DeliveryStruct(d, spell))
  {
    hide Declared, DigestStruct, DistinctTags;
    DeliveryTags(d, spell);
    DeclaredDigest(d.envelopeDigest, spell);
    DeclaredStruct(DeliveryStruct(d, spell).fields);
  }

  // ---------------------------------------------------------------- the size preflight

  /** What the typed size preflight asks under the default limits, and nothing more. */
  ghost predicate Sized(t: Typed) {
    && Fits(Project(t), TextRules(DEFAULT_LIMITS), 0, false, LEAST_SAFE)
    && Nodes(Wire(Project(t))) <= DEFAULT_LIMITS.maximumItems
    && |Enc(Project(t))| <= DEFAULT_LIMITS.maximumBytes
  }

  method PreflightSize(t: Typed) returns (ok: bool)
    requires Declared(t)
    ensures ok <==> Sized(t)
  {
    hide Fits, Project, Declared, Enc, Wire, Nodes;
    var fits, size, counted := PreflightTrustedValue(t, DEFAULT_LIMITS, 0, 0);
    if fits {
      DefaultSizesAreExact(Project(t), fits, size, counted);
    }
    return fits && size <= DEFAULT_LIMITS.maximumBytes;
  }

  /** A struct fits only if every field that is not left out does, one level down. */
  lemma FieldFitsToo(fs: seq<Field>, i: nat, depth: nat)
    requires DistinctTags(fs) && i < |fs| && !Omitted(fs[i])
    requires Fits(Project(Struct(fs)), TextRules(DEFAULT_LIMITS), depth, false, LEAST_SAFE)
    ensures Fits(Project(fs[i].value), TextRules(DEFAULT_LIMITS), depth + 1, false, LEAST_SAFE)
  {
    hide DistinctTags, Omitted;
    FieldIsEntry(fs, i);
  }

  /** So every integer field is safe; one left out as empty is zero. */
  lemma IntegerIsSafe(fs: seq<Field>, i: nat, n: int, depth: nat)
    requires DistinctTags(fs) && i < |fs| && !fs[i].dash
    requires fs[i].value == Integer(n) || fs[i].value == Pointer(Some(Integer(n)))
    requires Fits(Project(Struct(fs)), TextRules(DEFAULT_LIMITS), depth, false, LEAST_SAFE)
    ensures P.Safe(n)
  {
    if !Omitted(fs[i]) {
      hide DistinctTags;
      FieldFitsToo(fs, i, depth);
    }
  }

  /** An envelope that has passed the size preflight holds no integer that the time arithmetic could overflow on. */
  lemma SizedEnvelopeIsSafe(e: P.Envelope, spell: Spelling)
    requires Sized(EnvelopeStruct(e, spell))
    ensures P.SafeEnvelope(e)
  {
    hide Fits, Project, Wire, Enc, Nodes, DistinctTags, DigestStruct, IntroductionStruct, ParentStruct, AuthorizationStruct,
      BodyStruct, ReplyStruct;
    var fs := EnvelopeStruct(e, spell).fields;
    EnvelopeTags(e, spell);
    IntegerIsSafe(fs, 4, e.version, 0);
    IntegerIsSafe(fs, 11, e.createdAt, 0);
    IntegerIsSafe(fs, 12, e.expiresAt, 0);
    FieldFitsToo(fs, 8, 0);
    SafeAuthorization(e.authorization, spell);
    FieldFitsToo(fs, 13, 0);
    SafeBody(e.body, spell);
    FieldFitsToo(fs, 14, 0);
    SafeReply(e.allowed, e.until);
  }

  lemma SafeAuthorization(a: P.Authorization, spell: Spelling)
    requires Fits(Project(AuthorizationStruct(a, spell)), TextRules(DEFAULT_LIMITS), 1, false, LEAST_SAFE)
    ensures P.Safe(a.epoch) && P.Safe(a.membershipRevision)
  {
    hide Fits, Project, DistinctTags, DigestStruct;
    AuthorizationTags(a, spell);
    IntegerIsSafe(AuthorizationStruct(a, spell).fields, 2, a.membershipRevision, 1);
    IntegerIsSafe(AuthorizationStruct(a, spell).fields, 8, a.epoch, 1);
  }

  lemma SafeBody(b: P.Body, spell: Spelling)
    requires Fits(Project(BodyStruct(b, spell)), TextRules(DEFAULT_LIMITS), 1, false, LEAST_SAFE)
    ensures P.Safe(b.size) && P.Safe(b.availableUntil) && P.Safe(b.access.expiresAt)
  {
    hide Fits, Project, DistinctTags, DigestStruct;
    var fs, gs := BodyStruct(b, spell).fields, AccessStruct(b.access, spell).fields;
    BodyTags(b, spell);
    IntegerIsSafe(fs, 1, b.size, 1);
    IntegerIsSafe(fs, 4, b.availableUntil, 1);
    FieldFitsToo(fs, 5, 1);
    AccessTags(b.access, spell);
    IntegerIsSafe(gs, 2, b.access.expiresAt, 2);
  }

  lemma AccessTags(a: P.Access, spell: Spelling)
    ensures DistinctTags(AccessStruct(a, spell).fields)
  {
    ApartIsDistinct(AccessStruct(a, spell).fields);
  }

  lemma SafeReply(allowed: bool, until: Option<int>)
    requires Fits(Project(ReplyStruct(allowed, until)), TextRules(DEFAULT_LIMITS), 1, false, LEAST_SAFE)
    ensures until.Some? ==> P.Safe(until.value)
  {
    hide Fits, Project;
    ApartIsDistinct(ReplyStruct(allowed, until).fields);
    if until.Some? {
      IntegerIsSafe(ReplyStruct(allowed, until).fields, 1, until.value, 1);
    }
  }
}
