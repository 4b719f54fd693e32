/**
 * The maps that payload structs are projected to, against what the size preflight makes of the structs:
 * member for member the same, but for two members that the projections add.
 */
module Projections {
  import opened Octets
  import opened Options
  import opened Values
  import opened TypedPreflight
  import opened PayloadSizes
  import Cose
  import P = Payloads

  function ZerothNames(k: P.Key): string {
    match k
    case 0 => "type"
    case 1 => "version"
    case 2 => "message_id"
    case 3 => "from"
    case 4 => "to"
    case 5 => "revision"
    case 6 => "state"
    case 7 => "reason"
    case 8 => "retry_at"
    case 9 => "occurred_at"
    case _ => "envelope_digest"
  }

  function FirstNames(k: P.Key): string {
    match k
    case 11 => "algorithm"
    case 12 => "value"
    case 13 => "grant_id"
    case 14 => "previous"
    case 15 => "grantor"
    case 16 => "grantee"
    case 17 => "scope"
    case 18 => "values"
    case 19 => "status"
    case 20 => "issued_at"
    case _ => "updated_at"
  }

  function SecondNames(k: P.Key): string {
    match k
    case 22 => "expires_at"
    case 23 => "consent_context"
    case 24 => "grantee_address"
    case 25 => "address_binding_hash"
    case 26 => "sender_profile_hash"
    case 27 => "key_id"
    case 28 => "authorization"
    case 29 => "creator"
    case 30 => "conversation_id"
    case 31 => "membership_revision"
    case _ => "descriptor_hash"
  }

  function ThirdNames(k: P.Key): string {
    match k
    case 33 => "reply_to"
    case 34 => "connection_id"
    case 35 => "epoch"
    case 36 => "created_at"
    case 37 => "body"
    case 38 => "digest"
    case 39 => "size"
    case 40 => "media_type"
    case 41 => "profile"
    case 42 => "available_until"
    case _ => "access"
  }

  function FourthNames(k: P.Key): string {
    match k
    case 44 => "token"
    case 45 => "reply"
    case 46 => "allowed"
    case 47 => "until"
    case 48 => "in_reply_to"
    case 49 => "sender"
    case 50 => "category"
    case 51 => "message_type"
    case 52 => "conversation_message_id"
    case 53 => "conversation_introduction"
    case _ => "descriptor"
  }

  /** The member names that the numbered keys stand for. */
  function KeyName(k: P.Key): string {
    if k < 11 then ZerothNames(k) else if k < 22 then FirstNames(k) else if k < 33 then SecondNames(k)
    else if k < 44 then ThirdNames(k) else FourthNames(k)
  }

  function TagOf(k: P.Key): seq<Octet> { Cose.Ascii(KeyName(k)) }

  lemma ZerothNamesAre()
    ensures TagOf(P.KType) == Cose.Ascii("type")
    ensures TagOf(P.KVersion) == Cose.Ascii("version")
    ensures TagOf(P.KMessageId) == Cose.Ascii("message_id")
    ensures TagOf(P.KFrom) == Cose.Ascii("from")
    ensures TagOf(P.KTo) == Cose.Ascii("to")
    ensures TagOf(P.KRevision) == Cose.Ascii("revision")
    ensures TagOf(P.KState) == Cose.Ascii("state")
    ensures TagOf(P.KReason) == Cose.Ascii("reason")
    ensures TagOf(P.KRetryAt) == Cose.Ascii("retry_at")
    ensures TagOf(P.KOccurredAt) == Cose.Ascii("occurred_at")
    ensures TagOf(P.KEnvelopeDigest) == Cose.Ascii("envelope_digest")
  {
    hide Cose.Ascii, FirstNames, SecondNames, ThirdNames, FourthNames;
  }

  lemma FirstNamesAre()
    ensures TagOf(P.KAlgorithm) == Cose.Ascii("algorithm")
    ensures TagOf(P.KValue) == Cose.Ascii("value")
    ensures TagOf(P.KGrantId) == Cose.Ascii("grant_id")
    ensures TagOf(P.KPrevious) == Cose.Ascii("previous")
    ensures TagOf(P.KGrantor) == Cose.Ascii("grantor")
    ensures TagOf(P.KGrantee) == Cose.Ascii("grantee")
    ensures TagOf(P.KScope) == Cose.Ascii("scope")
    ensures TagOf(P.KValues) == Cose.Ascii("values")
    ensures TagOf(P.KStatus) == Cose.Ascii("status")
    ensures TagOf(P.KIssuedAt) == Cose.Ascii("issued_at")
    ensures TagOf(P.KUpdatedAt) == Cose.Ascii("updated_at")
  {
    hide Cose.Ascii, ZerothNames, SecondNames, ThirdNames, FourthNames;
  }

  lemma SecondNamesAre()
    ensures TagOf(P.KExpiresAt) == Cose.Ascii("expires_at")
    ensures TagOf(P.KConsentContext) == Cose.Ascii("consent_context")
    ensures TagOf(P.KGranteeAddress) == Cose.Ascii("grantee_address")
    ensures TagOf(P.KAddressBindingHash) == Cose.Ascii("address_binding_hash")
    ensures TagOf(P.KSenderProfileHash) == Cose.Ascii("sender_profile_hash")
    ensures TagOf(P.KKeyId) == Cose.Ascii("key_id")
    ensures TagOf(P.KAuthorization) == Cose.Ascii("authorization")
    ensures TagOf(P.KCreator) == Cose.Ascii("creator")
    ensures TagOf(P.KConversationId) == Cose.Ascii("conversation_id")
    ensures TagOf(P.KMembershipRevision) == Cose.Ascii("membership_revision")
    ensures TagOf(P.KDescriptorHash) == Cose.Ascii("descriptor_hash")
  {
    hide Cose.Ascii, ZerothNames, FirstNames, ThirdNames, FourthNames;
  }

  lemma ThirdNamesAre()
    ensures TagOf(P.KReplyTo) == Cose.Ascii("reply_to")
    ensures TagOf(P.KConnectionId) == Cose.Ascii("connection_id")
    ensures TagOf(P.KEpoch) == Cose.Ascii("epoch")
    ensures TagOf(P.KCreatedAt) == Cose.Ascii("created_at")
    ensures TagOf(P.KBody) == Cose.Ascii("body")
    ensures TagOf(P.KDigest) == Cose.Ascii("digest")
    ensures TagOf(P.KSize) == Cose.Ascii("size")
    ensures TagOf(P.KMediaType) == Cose.Ascii("media_type")
    ensures TagOf(P.KProfile) == Cose.Ascii("profile")
    ensures TagOf(P.KAvailableUntil) == Cose.Ascii("available_until")
    ensures TagOf(P.KAccess) == Cose.Ascii("access")
  {
    hide Cose.Ascii, ZerothNames, FirstNames, SecondNames, FourthNames;
  }

  lemma FourthNamesAre()
    ensures TagOf(P.KToken) == Cose.Ascii("token")
    ensures TagOf(P.KReply) == Cose.Ascii("reply")
    ensures TagOf(P.KAllowed) == Cose.Ascii("allowed")
    ensures TagOf(P.KUntil) == Cose.Ascii("until")
    ensures TagOf(P.KInReplyTo) == Cose.Ascii("in_reply_to")
    ensures TagOf(P.KSender) == Cose.Ascii("sender")
    ensures TagOf(P.KCategory) == Cose.Ascii("category")
    ensures TagOf(P.KMessageType) == Cose.Ascii("message_type")
    ensures TagOf(P.KConversationMessageId) == Cose.Ascii("conversation_message_id")
    ensures TagOf(P.KConversationIntroduction) == Cose.Ascii("conversation_introduction")
    ensures TagOf(P.KDescriptor) == Cose.Ascii("descriptor")
  {
    hide Cose.Ascii, ZerothNames, FirstNames, SecondNames, ThirdNames;
  }

  lemma NamesAre()
    ensures TagOf(P.KType) == Cose.Ascii("type")
    ensures TagOf(P.KVersion) == Cose.Ascii("version")
    ensures TagOf(P.KMessageId) == Cose.Ascii("message_id")
    ensures TagOf(P.KFrom) == Cose.Ascii("from")
    ensures TagOf(P.KTo) == Cose.Ascii("to")
    ensures TagOf(P.KRevision) == Cose.Ascii("revision")
    ensures TagOf(P.KState) == Cose.Ascii("state")
    ensures TagOf(P.KReason) == Cose.Ascii("reason")
    ensures TagOf(P.KRetryAt) == Cose.Ascii("retry_at")
    ensures TagOf(P.KOccurredAt) == Cose.Ascii("occurred_at")
    ensures TagOf(P.KEnvelopeDigest) == Cose.Ascii("envelope_digest")
    ensures TagOf(P.KAlgorithm) == Cose.Ascii("algorithm")
    ensures TagOf(P.KValue) == Cose.Ascii("value")
    ensures TagOf(P.KGrantId) == Cose.Ascii("grant_id")
    ensures TagOf(P.KPrevious) == Cose.Ascii("previous")
    ensures TagOf(P.KGrantor) == Cose.Ascii("grantor")
    ensures TagOf(P.KGrantee) == Cose.Ascii("grantee")
    ensures TagOf(P.KScope) == Cose.Ascii("scope")
    ensures TagOf(P.KValues) == Cose.Ascii("values")
    ensures TagOf(P.KStatus) == Cose.Ascii("status")
    ensures TagOf(P.KIssuedAt) == Cose.Ascii("issued_at")
    ensures TagOf(P.KUpdatedAt) == Cose.Ascii("updated_at")
    ensures TagOf(P.KExpiresAt) == Cose.Ascii("expires_at")
    ensures TagOf(P.KConsentContext) == Cose.Ascii("consent_context")
    ensures TagOf(P.KGranteeAddress) == Cose.Ascii("grantee_address")
    ensures TagOf(P.KAddressBindingHash) == Cose.Ascii("address_binding_hash")
    ensures TagOf(P.KSenderProfileHash) == Cose.Ascii("sender_profile_hash")
    ensures TagOf(P.KKeyId) == Cose.Ascii("key_id")
    ensures TagOf(P.KAuthorization) == Cose.Ascii("authorization")
    ensures TagOf(P.KCreator) == Cose.Ascii("creator")
    ensures TagOf(P.KConversationId) == Cose.Ascii("conversation_id")
    ensures TagOf(P.KMembershipRevision) == Cose.Ascii("membership_revision")
    ensures TagOf(P.KDescriptorHash) == Cose.Ascii("descriptor_hash")
    ensures TagOf(P.KReplyTo) == Cose.Ascii("reply_to")
    ensures TagOf(P.KConnectionId) == Cose.Ascii("connection_id")
    ensures TagOf(P.KEpoch) == Cose.Ascii("epoch")
    ensures TagOf(P.KCreatedAt) == Cose.Ascii("created_at")
    ensures TagOf(P.KBody) == Cose.Ascii("body")
    ensures TagOf(P.KDigest) == Cose.Ascii("digest")
    ensures TagOf(P.KSize) == Cose.Ascii("size")
    ensures TagOf(P.KMediaType) == Cose.Ascii("media_type")
    ensures TagOf(P.KProfile) == Cose.Ascii("profile")
    ensures TagOf(P.KAvailableUntil) == Cose.Ascii("available_until")
    ensures TagOf(P.KAccess) == Cose.Ascii("access")
    ensures TagOf(P.KToken) == Cose.Ascii("token")
    ensures TagOf(P.KReply) == Cose.Ascii("reply")
    ensures TagOf(P.KAllowed) == Cose.Ascii("allowed")
    ensures TagOf(P.KUntil) == Cose.Ascii("until")
    ensures TagOf(P.KInReplyTo) == Cose.Ascii("in_reply_to")
    ensures TagOf(P.KSender) == Cose.Ascii("sender")
    ensures TagOf(P.KCategory) == Cose.Ascii("category")
    ensures TagOf(P.KMessageType) == Cose.Ascii("message_type")
    ensures TagOf(P.KConversationMessageId) == Cose.Ascii("conversation_message_id")
    ensures TagOf(P.KConversationIntroduction) == Cose.Ascii("conversation_introduction")
    ensures TagOf(P.KDescriptor) == Cose.Ascii("descriptor")
  {
    hide TagOf, Cose.Ascii;
    ZerothNamesAre();
    FirstNamesAre();
    SecondNamesAre();
    ThirdNamesAre();
    FourthNamesAre();
  }

  function Label(k: P.Key): Value { TextString(TagOf(k)) }

  /** The value is the one that this projection stands for, member for member. */
  ghost predicate Represents(a: P.Any, v: Value, spell: Spelling)
    decreases a
  {
    match a
    case Nil => v.Null?
    case Str(s) => v == TextString(spell(s))
    case Num(n) => v == Int(n)
    case Truth(b) => v == Bool(b)
    case Octs(o) => v == ByteString(o)
    case List(items) =>
      v.Array? && |items| == |v.elements| && forall i | 0 <= i < |items| :: Represents(items[i], v.elements[i], spell)
    case Dict(m) =>
      && v.Map?
      && (forall k | k in m :: Label(k) in v.entries && Represents(m[k], v.entries[Label(k)], spell))
      && (forall x | x in v.entries :: IsLabel(m, x))
  }

  ghost predicate IsLabel(m: P.Members, x: Value) { exists k :: k in m && x == Label(k) }

  /** Only the empty string is spelled with no octets. */
  ghost predicate Spells(spell: Spelling) { forall s :: spell(s) == [] <==> s == "" }

  // ---------------------------------------------------------------- one field

  /** The member is there when the field is not omitted, under its tag and with its value. */
  ghost predicate Agrees(m: P.Members, k: P.Key, f: Field, spell: Spelling) {
    && f.tag == TagOf(k)
    && (k in m <==> !Omitted(f))
    && (k in m ==> Represents(m[k], Project(f.value), spell))
  }

  lemma TextAgrees(m: P.Members, k: P.Key, name: string, s: string, spell: Spelling)
    requires TagOf(k) == Cose.Ascii(name)
    requires k in m && m[k] == P.Str(s)
    ensures Agrees(m, k, PayloadSizes.Tagged(name, Text(spell(s))), spell)
  {
    hide TagOf, Cose.Ascii;
  }

  lemma OptionalTextAgrees(m: P.Members, k: P.Key, name: string, s: string, spell: Spelling)
    requires TagOf(k) == Cose.Ascii(name)
    requires Spells(spell) && (k in m <==> s != "") && (s != "" ==> m[k] == P.Str(s))
    ensures Agrees(m, k, OmitEmpty(name, Text(spell(s))), spell)
  {
    hide TagOf, Cose.Ascii;
    assert spell(s) == [] <==> s == "";
  }

  lemma NumberAgrees(m: P.Members, k: P.Key, name: string, n: int, spell: Spelling)
    requires TagOf(k) == Cose.Ascii(name)
    requires k in m && m[k] == P.Num(n)
    ensures Agrees(m, k, PayloadSizes.Tagged(name, Integer(n)), spell)
  {
    hide TagOf, Cose.Ascii;
  }

  lemma OptionalNumberAgrees(m: P.Members, k: P.Key, name: string, n: int, spell: Spelling)
    requires TagOf(k) == Cose.Ascii(name)
    requires (k in m <==> n != 0) && (n != 0 ==> m[k] == P.Num(n))
    ensures Agrees(m, k, OmitEmpty(name, Integer(n)), spell)
  {
    hide TagOf, Cose.Ascii;
  }

  lemma PointedNumberAgrees(m: P.Members, k: P.Key, name: string, n: Option<int>, spell: Spelling)
    requires TagOf(k) == Cose.Ascii(name)
    requires (k in m <==> n.Some?) && (n.Some? ==> m[k] == P.Num(n.value))
    ensures Agrees(m, k, OmitEmpty(name, OptionalInteger(n)), spell)
  {
    hide TagOf, Cose.Ascii;
    assert n.Some? ==> Project(Integer(n.value)) == Int(n.value);
  }

  lemma OctetsAgree(m: P.Members, k: P.Key, name: string, o: P.Bytes, spell: Spelling)
    requires TagOf(k) == Cose.Ascii(name)
    requires k in m && m[k] == P.Octs(o)
    ensures Agrees(m, k, PayloadSizes.Tagged(name, TypedPreflight.Octets(false, o)), spell)
  {
    hide TagOf, Cose.Ascii;
  }

  lemma NestedAgrees(m: P.Members, k: P.Key, name: string, inner: P.Any, t: Typed, spell: Spelling)
    requires TagOf(k) == Cose.Ascii(name)
    requires k in m && m[k] == inner && Represents(inner, Project(t), spell)
    ensures Agrees(m, k, PayloadSizes.Tagged(name, t), spell)
  {
    hide TagOf, Cose.Ascii;
    hide Represents, Project;
  }

  lemma PointedAgrees(m: P.Members, k: P.Key, name: string, inner: P.Any, t: Option<Typed>, spell: Spelling)
    requires TagOf(k) == Cose.Ascii(name)
    requires (k in m <==> t.Some?) && (t.Some? ==> m[k] == inner && Represents(inner, Project(t.value), spell))
    ensures Agrees(m, k, OmitEmpty(name, Pointer(t)), spell)
  {
    hide TagOf, Cose.Ascii;
    hide Represents;
  }

  // ---------------------------------------------------------------- one struct

  /** Field by field, the map agrees with the struct, and has no other members. */
  ghost predicate AllAgree(m: P.Members, keys: seq<P.Key>, fields: seq<Field>, spell: Spelling) {
    && |keys| == |fields|
    && (forall i | 0 <= i < |keys| :: Agrees(m, keys[i], fields[i], spell))
    && (forall k | k in m :: k in keys)
  }

  ghost predicate Among(x: Value, fields: seq<Field>) {
    exists i :: 0 <= i < |fields| && !Omitted(fields[i]) && x == TextString(fields[i].tag)
  }

  lemma {:induction false} EntriesAreFields(fields: seq<Field>)
    ensures forall x | x in ProjectFields(fields) :: Among(x, fields)
    decreases |fields|
  {
    if fields != [] {
      EntriesAreFields(fields[1..]);
      forall x | x in ProjectFields(fields)
        ensures Among(x, fields)
      {
        if x in ProjectFields(fields[1..]) {
          var i :| 0 <= i < |fields[1..]| && !Omitted(fields[1..][i]) && x == TextString(fields[1..][i].tag);
          assert fields[i + 1] == fields[1..][i];
        } else {
          assert !Omitted(fields[0]) && x == TextString(fields[0].tag);
        }
      }
    }
  }

  lemma StructRepresents(m: P.Members, keys: seq<P.Key>, fields: seq<Field>, spell: Spelling)
    requires DistinctTags(fields) && AllAgree(m, keys, fields, spell)
    ensures Represents(P.Dict(m), Project(Struct(fields)), spell)
  {
    var e := ProjectFields(fields);
    forall k | k in m
      ensures Label(k) in e && Represents(m[k], e[Label(k)], spell)
    {
      assert k in keys;
      var i :| 0 <= i < |keys| && keys[i] == k;
      assert Agrees(m, keys[i], fields[i], spell);
      FieldIsEntry(fields, i);
    }
    EntriesAreFields(fields);
    forall x | x in e
      ensures IsLabel(m, x)
    {
      assert Among(x, fields);
      var i :| 0 <= i < |fields| && !Omitted(fields[i]) && x == TextString(fields[i].tag);
      assert Agrees(m, keys[i], fields[i], spell);
      assert keys[i] in m && x == Label(keys[i]);
    }
    assert Project(Struct(fields)) == Map(e);
  }

  /** A member without an entry of its name is not represented. */
  lemma MissingEntry(m: P.Members, k: P.Key, fields: seq<Field>, spell: Spelling)
    requires k in m && forall i | 0 <= i < |fields| && fields[i].tag == TagOf(k) :: Omitted(fields[i])
    ensures !Represents(P.Dict(m), Project(Struct(fields)), spell)
  {
    EntriesAreFields(fields);
    hide Omitted, TagOf;
    assert !Among(Label(k), fields);
  }

  /** And so is a map around it. */
  lemma MissingInside(m: P.Members, k: P.Key, fields: seq<Field>, i: nat, spell: Spelling)
    requires DistinctTags(fields) && i < |fields| && k in m && fields[i].tag == TagOf(k) && !Omitted(fields[i])
    requires !Represents(m[k], Project(fields[i].value), spell)
    ensures !Represents(P.Dict(m), Project(Struct(fields)), spell)
  {
    FieldIsEntry(fields, i);
    hide Omitted, KeyName;
  }

  // ---------------------------------------------------------------- the payloads

  lemma DigestTags(d: P.Digest, spell: Spelling)
    ensures DistinctTags(DigestStruct(d, spell).fields)
  {
    ApartIsDistinct(DigestStruct(d, spell).fields);
  }

  lemma DigestNames()
    ensures TagOf(P.KAlgorithm) == Cose.Ascii("algorithm")
    ensures TagOf(P.KValue) == Cose.Ascii("value")
  {
    hide TagOf, Cose.Ascii;
    NamesAre();
  }

  lemma DigestRepresents(d: P.Digest, spell: Spelling)
    ensures Represents(P.DigestValue(d), Project(DigestStruct(d, spell)), spell)
  {
    var m := P.DigestValue(d).members;
    var keys, fields := [P.KAlgorithm, P.KValue], DigestStruct(d, spell).fields;
    DigestTags(d, spell);
    hide PayloadSizes.Tagged, OmitEmpty, OptionalInteger, TagOf, Cose.Ascii, DistinctTags, Agrees, Represents, Project;
    DigestNames();
    TextAgrees(m, P.KAlgorithm, "algorithm", d.algorithm, spell);
    OctetsAgree(m, P.KValue, "value", d.value, spell);
    StructRepresents(m, keys, fields, spell);
  }

  lemma AccessNames()
    ensures TagOf(P.KType) == Cose.Ascii("type")
    ensures TagOf(P.KToken) == Cose.Ascii("token")
    ensures TagOf(P.KExpiresAt) == Cose.Ascii("expires_at")
  {
    hide TagOf, Cose.Ascii;
    NamesAre();
  }

  lemma AccessRepresents(a: P.Access, spell: Spelling)
    ensures Represents(P.Dict(P.AccessValue(a)), Project(AccessStruct(a, spell)), spell)
  {
    var m := P.AccessValue(a);
    AccessTags(a, spell);
    hide PayloadSizes.Tagged, OmitEmpty, OptionalInteger, TagOf, Cose.Ascii, Agrees, Represents, Project, DistinctTags;
    AccessNames();
    TextAgrees(m, P.KType, "type", a.kind, spell);
    OctetsAgree(m, P.KToken, "token", a.token, spell);
    NumberAgrees(m, P.KExpiresAt, "expires_at", a.expiresAt, spell);
    StructRepresents(m, [P.KType, P.KToken, P.KExpiresAt], AccessStruct(a, spell).fields, spell);
  }

  lemma BodyNames()
    ensures TagOf(P.KDigest) == Cose.Ascii("digest")
    ensures TagOf(P.KSize) == Cose.Ascii("size")
    ensures TagOf(P.KMediaType) == Cose.Ascii("media_type")
    ensures TagOf(P.KProfile) == Cose.Ascii("profile")
    ensures TagOf(P.KAvailableUntil) == Cose.Ascii("available_until")
    ensures TagOf(P.KAccess) == Cose.Ascii("access")
  {
    hide TagOf, Cose.Ascii;
    NamesAre();
  }

  lemma BodyRepresents(b: P.Body, spell: Spelling)
    ensures Represents(P.Dict(P.BodyValue(b)), Project(BodyStruct(b, spell)), spell)
  {
    var m := P.BodyValue(b);
    var keys := [P.KDigest, P.KSize, P.KMediaType, P.KProfile, P.KAvailableUntil, P.KAccess];
    BodyTags(b, spell);
    DigestRepresents(b.digest, spell);
    AccessRepresents(b.access, spell);
    hide PayloadSizes.Tagged, OmitEmpty, OptionalInteger, TagOf, Cose.Ascii, Agrees, Represents, Project, DistinctTags, DigestStruct, AccessStruct, P.DigestValue, P.AccessValue;
    BodyNames();
    NestedAgrees(m, P.KDigest, "digest", P.DigestValue(b.digest), DigestStruct(b.digest, spell), spell);
    NumberAgrees(m, P.KSize, "size", b.size, spell);
    TextAgrees(m, P.KMediaType, "media_type", b.mediaType, spell);
    TextAgrees(m, P.KProfile, "profile", b.profile, spell);
    NumberAgrees(m, P.KAvailableUntil, "available_until", b.availableUntil, spell);
    NestedAgrees(m, P.KAccess, "access", P.Dict(P.AccessValue(b.access)), AccessStruct(b.access, spell), spell);
    StructRepresents(m, keys, BodyStruct(b, spell).fields, spell);
  }

  lemma ReplyTags(allowed: bool, until: Option<int>)
    ensures DistinctTags(ReplyStruct(allowed, until).fields)
  {
    ApartIsDistinct(ReplyStruct(allowed, until).fields);
  }

  lemma ReplyNames()
    ensures TagOf(P.KUntil) == Cose.Ascii("until")
    ensures TagOf(P.KAllowed) == Cose.Ascii("allowed")
  {
    hide TagOf, Cose.Ascii;
    NamesAre();
  }

  lemma ReplyRepresents(allowed: bool, until: Option<int>, spell: Spelling)
    ensures Represents(P.Dict(P.ReplyValue(allowed, until)), Project(ReplyStruct(allowed, until)), spell)
  {
    var m := P.ReplyValue(allowed, until);
    var fields := ReplyStruct(allowed, until).fields;
    ReplyTags(allowed, until);
    assert Agrees(m, P.KAllowed, PayloadSizes.Tagged("allowed", Boolean(allowed)), spell);
    hide PayloadSizes.Tagged, OmitEmpty, OptionalInteger, TagOf, Cose.Ascii, DistinctTags, Agrees, Represents, Project;
    ReplyNames();
    PointedNumberAgrees(m, P.KUntil, "until", until, spell);
    StructRepresents(m, [P.KAllowed, P.KUntil], fields, spell);
  }

  lemma ParentTags(p: P.Parent, spell: Spelling)
    ensures DistinctTags(ParentStruct(p, spell).fields)
  {
    ApartIsDistinct(ParentStruct(p, spell).fields);
  }

  lemma ParentNames()
    ensures TagOf(P.KSender) == Cose.Ascii("sender")
    ensures TagOf(P.KMessageId) == Cose.Ascii("message_id")
  {
    hide TagOf, Cose.Ascii;
    NamesAre();
  }

  lemma ParentRepresents(p: P.Parent, spell: Spelling)
    ensures Represents(P.Dict(P.ParentValue(p)), Project(ParentStruct(p, spell)), spell)
  {
    var m := P.ParentValue(p);
    ParentTags(p, spell);
    hide PayloadSizes.Tagged, OmitEmpty, OptionalInteger, TagOf, Cose.Ascii, DistinctTags, Agrees, Represents, Project;
    ParentNames();
    TextAgrees(m, P.KSender, "sender", p.sender, spell);
    TextAgrees(m, P.KMessageId, "message_id", p.messageId, spell);
    StructRepresents(m, [P.KSender, P.KMessageId], ParentStruct(p, spell).fields, spell);
  }

  lemma IntroductionTags(i: P.Introduction, spell: Spelling)
    ensures DistinctTags(IntroductionStruct(i, spell).fields)
  {
    ApartIsDistinct(IntroductionStruct(i, spell).fields);
  }

  lemma IntroductionNames()
    ensures TagOf(P.KDescriptor) == Cose.Ascii("descriptor")
    ensures TagOf(P.KConnectionId) == Cose.Ascii("connection_id")
    ensures TagOf(P.KEpoch) == Cose.Ascii("epoch")
  {
    hide TagOf, Cose.Ascii;
    NamesAre();
  }

  lemma IntroductionRepresents(i: P.Introduction, spell: Spelling)
    ensures Represents(P.Dict(P.IntroductionValue(i)), Project(IntroductionStruct(i, spell)), spell)
  {
    var m := P.IntroductionValue(i);
    IntroductionTags(i, spell);
    hide PayloadSizes.Tagged, OmitEmpty, OptionalInteger, TagOf, Cose.Ascii, DistinctTags, Agrees, Represents, Project;
    IntroductionNames();
    OctetsAgree(m, P.KDescriptor, "descriptor", i.descriptor, spell);
    TextAgrees(m, P.KConnectionId, "connection_id", i.connectionId, spell);
    NumberAgrees(m, P.KEpoch, "epoch", i.epoch, spell);
    StructRepresents(m, [P.KDescriptor, P.KConnectionId, P.KEpoch], IntroductionStruct(i, spell).fields, spell);
  }

  /** For delivery statuses the projection is exactly the generic one. */
  lemma DeliveryNames()
    ensures TagOf(P.KType) == Cose.Ascii("type")
    ensures TagOf(P.KVersion) == Cose.Ascii("version")
    ensures TagOf(P.KMessageId) == Cose.Ascii("message_id")
    ensures TagOf(P.KEnvelopeDigest) == Cose.Ascii("envelope_digest")
    ensures TagOf(P.KFrom) == Cose.Ascii("from")
    ensures TagOf(P.KTo) == Cose.Ascii("to")
    ensures TagOf(P.KRevision) == Cose.Ascii("revision")
    ensures TagOf(P.KState) == Cose.Ascii("state")
    ensures TagOf(P.KReason) == Cose.Ascii("reason")
    ensures TagOf(P.KRetryAt) == Cose.Ascii("retry_at")
    ensures TagOf(P.KOccurredAt) == Cose.Ascii("occurred_at")
  {
    hide TagOf, Cose.Ascii;
    NamesAre();
  }

  lemma DeliveryRepresents(d: P.Delivery, spell: Spelling)
    requires Spells(spell)
    ensures Represents(P.Dict(P.DeliveryValue(d)), Project(DeliveryStruct(d, spell)), spell)
  {
    var m := P.DeliveryValue(d);
    var keys := [P.KType, P.KVersion, P.KMessageId, P.KEnvelopeDigest, P.KFrom, P.KTo, P.KRevision, P.KState, P.KReason, P.KRetryAt, P.KOccurredAt];
    DeliveryTags(d, spell);
    DigestRepresents(d.envelopeDigest, spell);
    hide PayloadSizes.Tagged, OmitEmpty, OptionalInteger, TagOf, Cose.Ascii, Agrees, Represents, Project, DistinctTags, DigestStruct, P.DigestValue;
    DeliveryNames();
    TextAgrees(m, P.KType, "type", d.kind, spell);
    NumberAgrees(m, P.KVersion, "version", d.version, spell);
    TextAgrees(m, P.KMessageId, "message_id", d.messageId, spell);
    NestedAgrees(m, P.KEnvelopeDigest, "envelope_digest", P.DigestValue(d.envelopeDigest), DigestStruct(d.envelopeDigest, spell), spell);
    TextAgrees(m, P.KFrom, "from", d.from, spell);
    TextAgrees(m, P.KTo, "to", d.to, spell);
    NumberAgrees(m, P.KRevision, "revision", d.revision, spell);
    TextAgrees(m, P.KState, "state", d.state, spell);
    OptionalTextAgrees(m, P.KReason, "reason", d.reason, spell);
    PointedNumberAgrees(m, P.KRetryAt, "retry_at", d.retryAt, spell);
    NumberAgrees(m, P.KOccurredAt, "occurred_at", d.occurredAt, spell);
    StructRepresents(m, keys, DeliveryStruct(d, spell).fields, spell);
  }

  // ---------------------------------------------------------------- authorizations and envelopes

  /** A connection with epoch 0: the projection names the epoch and the struct leaves it out. */
  predicate NamesZeroEpoch(a: P.Authorization) { a.kind == "connection" && a.epoch == 0 }

  lemma AuthorizationConversationIs(a: P.Authorization)
    ensures var m := P.AuthorizationValue(a);
            && (P.KConversationId in m <==> a.conversationId != "") && (a.conversationId != "" ==> m[P.KConversationId] == P.Str(a.conversationId))
            && (P.KMembershipRevision in m <==> a.membershipRevision != 0)
            && (a.membershipRevision != 0 ==> m[P.KMembershipRevision] == P.Num(a.membershipRevision))
  {
    hide P.DigestValue;
  }

  lemma AuthorizationHashIs(a: P.Authorization)
    ensures var m := P.AuthorizationValue(a);
            && (P.KDescriptorHash in m <==> a.descriptorHash.Some?)
            && (a.descriptorHash.Some? ==> m[P.KDescriptorHash] == P.DigestValue(a.descriptorHash.value))
  {
    hide P.DigestValue;
  }

  lemma AuthorizationMembersAre(a: P.Authorization)
    ensures var m := P.AuthorizationValue(a);
            && P.KType in m && m[P.KType] == P.Str(a.kind)
            && (P.KCreator in m <==> a.creator != "") && (a.creator != "" ==> m[P.KCreator] == P.Str(a.creator))
  {
    hide P.DigestValue;
  }

  lemma AuthorizationPeersAre(a: P.Authorization)
    ensures var m := P.AuthorizationValue(a);
            && (P.KGrantId in m <==> a.grantId != "") && (a.grantId != "" ==> m[P.KGrantId] == P.Str(a.grantId))
            && (P.KReplyTo in m <==> a.replyTo != "") && (a.replyTo != "" ==> m[P.KReplyTo] == P.Str(a.replyTo))
            && (P.KConnectionId in m <==> a.connectionId != "") && (a.connectionId != "" ==> m[P.KConnectionId] == P.Str(a.connectionId))
            && (P.KEpoch in m <==> a.kind == "connection" || a.epoch != 0) && (P.KEpoch in m ==> m[P.KEpoch] == P.Num(a.epoch))
  {
    hide P.DigestValue;
  }

  lemma AuthorizationHasNoOthers(a: P.Authorization)
    ensures forall k | k in P.AuthorizationValue(a) ::
              k in [P.KCreator, P.KConversationId, P.KMembershipRevision, P.KDescriptorHash, P.KType, P.KGrantId, P.KReplyTo, P.KConnectionId, P.KEpoch]
  {
    hide P.DigestValue;
  }

  /** Authorizations are projected as the preflight takes them, unless a connection has epoch 0. */
  lemma AuthorizationRepresents(a: P.Authorization, spell: Spelling)
    requires Spells(spell)
    ensures Represents(P.Dict(P.AuthorizationValue(a)), Project(AuthorizationStruct(a, spell)), spell) <==> !NamesZeroEpoch(a)
  {
    var m := P.AuthorizationValue(a);
    var fields := AuthorizationStruct(a, spell).fields;
    AuthorizationMembersAre(a);
    AuthorizationConversationIs(a);
    AuthorizationHashIs(a);
    AuthorizationPeersAre(a);
    AuthorizationTags(a, spell);
    if NamesZeroEpoch(a) {
      hide P.AuthorizationValue, Represents, Project, DistinctTags, DigestStruct;
      OneEpoch(a, spell);
      MissingEntry(m, P.KEpoch, fields, spell);
    } else {
      AuthorizationHasNoOthers(a);
      hide P.AuthorizationValue, Represents, Project, DistinctTags, DigestStruct, P.DigestValue, Agrees;
      if a.descriptorHash.Some? {
        DigestRepresents(a.descriptorHash.value, spell);
      }
      AuthorizationAgrees(m, a, spell);
      StructRepresents(m, [P.KCreator, P.KConversationId, P.KMembershipRevision, P.KDescriptorHash, P.KType, P.KGrantId, P.KReplyTo, P.KConnectionId, P.KEpoch],
                       fields, spell);
    }
  }

  lemma OneEpoch(a: P.Authorization, spell: Spelling)
    requires a.epoch == 0
    ensures var fields := AuthorizationStruct(a, spell).fields;
            forall i | 0 <= i < |fields| && fields[i].tag == Cose.Ascii("epoch") :: Omitted(fields[i])
  {
    var fields := AuthorizationStruct(a, spell).fields;
    AuthorizationTags(a, spell);
    hide DigestStruct;
    assert fields[8].tag == Cose.Ascii("epoch") && Omitted(fields[8]);
    assert |fields| == 9;
    hide Omitted, Cose.Ascii, AuthorizationStruct;
    assert forall i | 0 <= i < 8 :: fields[i].tag != fields[8].tag;
  }

  lemma AuthorizationNames()
    ensures TagOf(P.KCreator) == Cose.Ascii("creator")
    ensures TagOf(P.KConversationId) == Cose.Ascii("conversation_id")
    ensures TagOf(P.KMembershipRevision) == Cose.Ascii("membership_revision")
    ensures TagOf(P.KDescriptorHash) == Cose.Ascii("descriptor_hash")
    ensures TagOf(P.KType) == Cose.Ascii("type")
    ensures TagOf(P.KGrantId) == Cose.Ascii("grant_id")
    ensures TagOf(P.KReplyTo) == Cose.Ascii("reply_to")
    ensures TagOf(P.KConnectionId) == Cose.Ascii("connection_id")
    ensures TagOf(P.KEpoch) == Cose.Ascii("epoch")
  {
    hide TagOf, Cose.Ascii;
    NamesAre();
  }

  lemma AuthorizationAgrees(m: P.Members, a: P.Authorization, spell: Spelling)
    requires Spells(spell) && m == P.AuthorizationValue(a) && !NamesZeroEpoch(a)
    requires a.descriptorHash.Some? ==>
               Represents(P.DigestValue(a.descriptorHash.value), Project(DigestStruct(a.descriptorHash.value, spell)), spell)
    ensures AllAgree(m, [P.KCreator, P.KConversationId, P.KMembershipRevision, P.KDescriptorHash, P.KType, P.KGrantId, P.KReplyTo, P.KConnectionId, P.KEpoch],
                     AuthorizationStruct(a, spell).fields, spell)
  {
    AuthorizationMembersAre(a);
    AuthorizationConversationIs(a);
    AuthorizationHashIs(a);
    AuthorizationPeersAre(a);
    AuthorizationHasNoOthers(a);
    hide PayloadSizes.Tagged, OmitEmpty, OptionalInteger, TagOf, Cose.Ascii, DistinctTags, P.AuthorizationValue, Represents, Project, DigestStruct, P.DigestValue, Agrees, Spells;
    AuthorizationNames();
    var hash := if a.descriptorHash.Some? then Some(DigestStruct(a.descriptorHash.value, spell)) else None;
    OptionalTextAgrees(m, P.KCreator, "creator", a.creator, spell);
    OptionalTextAgrees(m, P.KConversationId, "conversation_id", a.conversationId, spell);
    OptionalNumberAgrees(m, P.KMembershipRevision, "membership_revision", a.membershipRevision, spell);
    PointedAgrees(m, P.KDescriptorHash, "descriptor_hash", if a.descriptorHash.Some? then P.DigestValue(a.descriptorHash.value) else P.Nil, hash, spell);
    TextAgrees(m, P.KType, "type", a.kind, spell);
    OptionalTextAgrees(m, P.KGrantId, "grant_id", a.grantId, spell);
    OptionalTextAgrees(m, P.KReplyTo, "reply_to", a.replyTo, spell);
    OptionalTextAgrees(m, P.KConnectionId, "connection_id", a.connectionId, spell);
    OptionalNumberAgrees(m, P.KEpoch, "epoch", a.epoch, spell);
  }

  lemma FixedMembersAre(e: P.Envelope)
    ensures var m := P.EnvelopeFixed(e);
            && P.KType in m && m[P.KType] == P.Str(e.kind) && P.KVersion in m && m[P.KVersion] == P.Num(e.version)
            && P.KMessageId in m && m[P.KMessageId] == P.Str(e.messageId)
            && P.KFrom in m && m[P.KFrom] == P.Str(e.from) && P.KTo in m && m[P.KTo] == P.Str(e.to)
            && P.KAuthorization in m && m[P.KAuthorization] == P.Dict(P.AuthorizationValue(e.authorization))
            && P.KCreatedAt in m && m[P.KCreatedAt] == P.Num(e.createdAt) && P.KExpiresAt in m && m[P.KExpiresAt] == P.Num(e.expiresAt)
            && P.KBody in m && m[P.KBody] == P.Dict(P.BodyValue(e.body))
            && P.KReply in m && m[P.KReply] == P.Dict(P.ReplyValue(e.allowed, e.until))
  {
    hide P.AuthorizationValue, P.BodyValue, P.ReplyValue;
  }

  lemma FixedHasNoOthers(e: P.Envelope)
    ensures P.EnvelopeFixed(e).Keys ==
            {P.KType, P.KVersion, P.KMessageId, P.KFrom, P.KTo, P.KAuthorization, P.KCreatedAt, P.KExpiresAt, P.KBody, P.KReply}
  {
    hide P.AuthorizationValue, P.BodyValue, P.ReplyValue;
  }

  lemma EnvelopeKeeps(e: P.Envelope, k: P.Key)
    requires k in P.EnvelopeFixed(e)
    requires k != P.KInReplyTo && k != P.KConversationMessageId && k != P.KConversationIntroduction && k != P.KCategory && k != P.KMessageType
    ensures k in P.EnvelopeValue(e) && P.EnvelopeValue(e)[k] == P.EnvelopeFixed(e)[k]
  {
    hide P.EnvelopeFixed, P.ParentValue, P.IntroductionValue;
  }

  lemma EnvelopeOptionsAre(e: P.Envelope)
    ensures var m := P.EnvelopeValue(e);
            && (P.KInReplyTo in m <==> e.inReplyTo.Some?) && (e.inReplyTo.Some? ==> m[P.KInReplyTo] == P.Dict(P.ParentValue(e.inReplyTo.value)))
            && (P.KConversationMessageId in m <==> e.conversationMessageId != "")
            && (e.conversationMessageId != "" ==> m[P.KConversationMessageId] == P.Str(e.conversationMessageId))
            && (P.KConversationIntroduction in m <==> e.introduction.Some?)
            && (e.introduction.Some? ==> m[P.KConversationIntroduction] == P.Dict(P.IntroductionValue(e.introduction.value)))
            && (P.KCategory in m <==> e.category != "") && (e.category != "" ==> m[P.KCategory] == P.Str(e.category))
            && (P.KMessageType in m <==> e.messageType != "") && (e.messageType != "" ==> m[P.KMessageType] == P.Str(e.messageType))
  {
    FixedHasNoOthers(e);
    hide P.EnvelopeFixed, P.ParentValue, P.IntroductionValue;
  }

  lemma EnvelopeHasNoOthers(e: P.Envelope)
    ensures forall k | k in P.EnvelopeValue(e) :: k in ENVELOPE_KEYS
  {
    FixedHasNoOthers(e);
    hide P.EnvelopeFixed, P.ParentValue, P.IntroductionValue;
  }

  lemma EnvelopeMembersAre(e: P.Envelope)
    ensures var m := P.EnvelopeValue(e);
            && P.KType in m && m[P.KType] == P.Str(e.kind) && P.KVersion in m && m[P.KVersion] == P.Num(e.version)
            && P.KMessageId in m && m[P.KMessageId] == P.Str(e.messageId)
            && P.KFrom in m && m[P.KFrom] == P.Str(e.from) && P.KTo in m && m[P.KTo] == P.Str(e.to)
            && P.KAuthorization in m && m[P.KAuthorization] == P.Dict(P.AuthorizationValue(e.authorization))
            && P.KCreatedAt in m && m[P.KCreatedAt] == P.Num(e.createdAt) && P.KExpiresAt in m && m[P.KExpiresAt] == P.Num(e.expiresAt)
            && P.KBody in m && m[P.KBody] == P.Dict(P.BodyValue(e.body))
            && P.KReply in m && m[P.KReply] == P.Dict(P.ReplyValue(e.allowed, e.until))
  {
    hide P.EnvelopeFixed, P.EnvelopeValue, P.AuthorizationValue, P.BodyValue, P.ReplyValue;
    FixedMembersAre(e);
    EnvelopeKeeps(e, P.KType);
    EnvelopeKeeps(e, P.KVersion);
    EnvelopeKeeps(e, P.KMessageId);
    EnvelopeKeeps(e, P.KFrom);
    EnvelopeKeeps(e, P.KTo);
    EnvelopeKeeps(e, P.KAuthorization);
    EnvelopeKeeps(e, P.KCreatedAt);
    EnvelopeKeeps(e, P.KExpiresAt);
    EnvelopeKeeps(e, P.KBody);
    EnvelopeKeeps(e, P.KReply);
  }

  const ENVELOPE_KEYS: seq<P.Key> :=
    [P.KConversationMessageId, P.KConversationIntroduction, P.KInReplyTo, P.KType, P.KVersion, P.KMessageId, P.KFrom, P.KTo,
     P.KAuthorization, P.KCategory, P.KMessageType, P.KCreatedAt, P.KExpiresAt, P.KBody, P.KReply]

  /** The fields from one index up to another agree. */
  ghost predicate AgreeIn(m: P.Members, keys: seq<P.Key>, fields: seq<Field>, lo: nat, hi: nat, spell: Spelling)
    requires hi <= |keys| == |fields|
  {
    forall i | lo <= i < hi :: Agrees(m, keys[i], fields[i], spell)
  }

  lemma EnvelopeStartsNames()
    ensures TagOf(P.KConversationMessageId) == Cose.Ascii("conversation_message_id")
    ensures TagOf(P.KConversationIntroduction) == Cose.Ascii("conversation_introduction")
    ensures TagOf(P.KInReplyTo) == Cose.Ascii("in_reply_to")
  {
    hide TagOf, Cose.Ascii;
    NamesAre();
  }

  lemma EnvelopeStarts(e: P.Envelope, spell: Spelling)
    requires Spells(spell)
    ensures |EnvelopeStruct(e, spell).fields| == 15
    ensures AgreeIn(P.EnvelopeValue(e), ENVELOPE_KEYS, EnvelopeStruct(e, spell).fields, 0, 3, spell)
  {
    var m := P.EnvelopeValue(e);
    hide PayloadSizes.Tagged, OmitEmpty, OptionalInteger, TagOf, Cose.Ascii, DistinctTags, Represents, Project, Agrees, P.EnvelopeValue, P.ParentValue, P.IntroductionValue, AuthorizationStruct, BodyStruct, ReplyStruct, ParentStruct, IntroductionStruct;
    EnvelopeOptionsAre(e);
    if e.inReplyTo.Some? {
      ParentRepresents(e.inReplyTo.value, spell);
    }
    if e.introduction.Some? {
      IntroductionRepresents(e.introduction.value, spell);
    }
    EnvelopeStartsNames();
    var introduction := if e.introduction.Some? then Some(IntroductionStruct(e.introduction.value, spell)) else None;
    var parent := if e.inReplyTo.Some? then Some(ParentStruct(e.inReplyTo.value, spell)) else None;
    OptionalTextAgrees(m, P.KConversationMessageId, "conversation_message_id", e.conversationMessageId, spell);
    PointedAgrees(m, P.KConversationIntroduction, "conversation_introduction",
                  if e.introduction.Some? then P.Dict(P.IntroductionValue(e.introduction.value)) else P.Nil, introduction, spell);
    PointedAgrees(m, P.KInReplyTo, "in_reply_to", if e.inReplyTo.Some? then P.Dict(P.ParentValue(e.inReplyTo.value)) else P.Nil, parent, spell);
  }

  lemma EnvelopeGoesOnNames()
    ensures TagOf(P.KType) == Cose.Ascii("type")
    ensures TagOf(P.KVersion) == Cose.Ascii("version")
    ensures TagOf(P.KMessageId) == Cose.Ascii("message_id")
    ensures TagOf(P.KFrom) == Cose.Ascii("from")
    ensures TagOf(P.KTo) == Cose.Ascii("to")
  {
    hide TagOf, Cose.Ascii;
    NamesAre();
  }

  lemma EnvelopeGoesOn(e: P.Envelope, spell: Spelling)
    ensures |EnvelopeStruct(e, spell).fields| == 15
    ensures AgreeIn(P.EnvelopeValue(e), ENVELOPE_KEYS, EnvelopeStruct(e, spell).fields, 3, 8, spell)
  {
    var m := P.EnvelopeValue(e);
    hide PayloadSizes.Tagged, OmitEmpty, OptionalInteger, TagOf, Cose.Ascii, DistinctTags, Represents, Project, Agrees, P.EnvelopeValue, P.AuthorizationValue, P.BodyValue, P.ReplyValue, AuthorizationStruct, BodyStruct, ReplyStruct, ParentStruct, IntroductionStruct;
    EnvelopeMembersAre(e);
    EnvelopeGoesOnNames();
    TextAgrees(m, P.KType, "type", e.kind, spell);
    NumberAgrees(m, P.KVersion, "version", e.version, spell);
    TextAgrees(m, P.KMessageId, "message_id", e.messageId, spell);
    TextAgrees(m, P.KFrom, "from", e.from, spell);
    TextAgrees(m, P.KTo, "to", e.to, spell);
  }

  lemma EnvelopeTurnsNames()
    ensures TagOf(P.KAuthorization) == Cose.Ascii("authorization")
    ensures TagOf(P.KCategory) == Cose.Ascii("category")
    ensures TagOf(P.KMessageType) == Cose.Ascii("message_type")
  {
    hide TagOf, Cose.Ascii;
    NamesAre();
  }

  lemma EnvelopeTurns(e: P.Envelope, spell: Spelling)
    requires Spells(spell) && !NamesZeroEpoch(e.authorization)
    ensures |EnvelopeStruct(e, spell).fields| == 15
    ensures AgreeIn(P.EnvelopeValue(e), ENVELOPE_KEYS, EnvelopeStruct(e, spell).fields, 8, 11, spell)
  {
    var m := P.EnvelopeValue(e);
    hide PayloadSizes.Tagged, OmitEmpty, OptionalInteger, TagOf, Cose.Ascii, DistinctTags, Represents, Project, Agrees, P.EnvelopeValue, P.AuthorizationValue, P.BodyValue, P.ReplyValue, AuthorizationStruct, BodyStruct, ReplyStruct, ParentStruct, IntroductionStruct;
    EnvelopeMembersAre(e);
    EnvelopeOptionsAre(e);
    AuthorizationRepresents(e.authorization, spell);
    EnvelopeTurnsNames();
    NestedAgrees(m, P.KAuthorization, "authorization", P.Dict(P.AuthorizationValue(e.authorization)), AuthorizationStruct(e.authorization, spell), spell);
    OptionalTextAgrees(m, P.KCategory, "category", e.category, spell);
    OptionalTextAgrees(m, P.KMessageType, "message_type", e.messageType, spell);
  }

  lemma EnvelopeEndsNames()
    ensures TagOf(P.KCreatedAt) == Cose.Ascii("created_at")
    ensures TagOf(P.KExpiresAt) == Cose.Ascii("expires_at")
    ensures TagOf(P.KBody) == Cose.Ascii("body")
    ensures TagOf(P.KReply) == Cose.Ascii("reply")
  {
    hide TagOf, Cose.Ascii;
    NamesAre();
  }

  lemma EnvelopeEnds(e: P.Envelope, spell: Spelling)
    ensures |EnvelopeStruct(e, spell).fields| == 15
    ensures AgreeIn(P.EnvelopeValue(e), ENVELOPE_KEYS, EnvelopeStruct(e, spell).fields, 11, 15, spell)
  {
    var m := P.EnvelopeValue(e);
    hide PayloadSizes.Tagged, OmitEmpty, OptionalInteger, TagOf, Cose.Ascii, DistinctTags, Represents, Project, Agrees, P.EnvelopeValue, P.AuthorizationValue, P.BodyValue, P.ReplyValue, AuthorizationStruct, BodyStruct, ReplyStruct, ParentStruct, IntroductionStruct;
    EnvelopeMembersAre(e);
    BodyRepresents(e.body, spell);
    ReplyRepresents(e.allowed, e.until, spell);
    EnvelopeEndsNames();
    NumberAgrees(m, P.KCreatedAt, "created_at", e.createdAt, spell);
    NumberAgrees(m, P.KExpiresAt, "expires_at", e.expiresAt, spell);
    NestedAgrees(m, P.KBody, "body", P.Dict(P.BodyValue(e.body)), BodyStruct(e.body, spell), spell);
    NestedAgrees(m, P.KReply, "reply", P.Dict(P.ReplyValue(e.allowed, e.until)), ReplyStruct(e.allowed, e.until), spell);
  }

  lemma EnvelopeAgrees(e: P.Envelope, spell: Spelling)
    requires Spells(spell) && !NamesZeroEpoch(e.authorization)
    ensures AllAgree(P.EnvelopeValue(e), ENVELOPE_KEYS, EnvelopeStruct(e, spell).fields, spell)
  {
    hide EnvelopeStruct, P.EnvelopeValue, Agrees, NamesZeroEpoch;
    EnvelopeStarts(e, spell);
    EnvelopeGoesOn(e, spell);
    EnvelopeTurns(e, spell);
    EnvelopeEnds(e, spell);
    EnvelopeHasNoOthers(e);
  }

  /** Envelopes are projected as the preflight takes them, unless they are a connection's with epoch 0. */
  lemma EnvelopeRepresents(e: P.Envelope, spell: Spelling)
    requires Spells(spell)
    ensures Represents(P.Dict(P.EnvelopeValue(e)), Project(EnvelopeStruct(e, spell)), spell) <==> !NamesZeroEpoch(e.authorization)
  {
    var m, fields := P.EnvelopeValue(e), EnvelopeStruct(e, spell).fields;
    EnvelopeTags(e, spell);
    EnvelopeAuthorization(e, spell);
    AuthorizationRepresents(e.authorization, spell);
    EnvelopeMembersAre(e);
    hide Represents, Project, Agrees, AllAgree, Omitted, TagOf, DistinctTags, EnvelopeStruct, P.EnvelopeValue, P.AuthorizationValue, P.BodyValue, P.ReplyValue,
      AuthorizationStruct, NamesZeroEpoch;
    if NamesZeroEpoch(e.authorization) {
      MissingInside(m, P.KAuthorization, fields, 8, spell);
    } else {
      EnvelopeAgrees(e, spell);
      StructRepresents(m, ENVELOPE_KEYS, fields, spell);
    }
  }

  lemma EnvelopeAuthorization(e: P.Envelope, spell: Spelling)
    ensures var fields := EnvelopeStruct(e, spell).fields;
            && EnvelopeStruct(e, spell).Struct? && |fields| == 15 && fields[8].tag == TagOf(P.KAuthorization)
            && fields[8].value == AuthorizationStruct(e.authorization, spell) && !Omitted(fields[8])
  {
    hide AuthorizationStruct, BodyStruct, ReplyStruct, ParentStruct, IntroductionStruct, Cose.Ascii;
  }

  // ---------------------------------------------------------------- grants

  /** A category selector with no list: the projection names an empty one and the struct leaves it out. */
  predicate NamesNoCategories(s: P.Selector) { s.kind == "categories" && s.values.None? }

  lemma TextsRepresent(values: seq<string>, spell: Spelling)
    ensures Represents(P.List(P.TextList(values)), Project(Slice(false, TextSlice(values, spell))), spell)
  {
    var items, vs := P.TextList(values), ProjectAll(TextSlice(values, spell));
    forall i | 0 <= i < |items|
      ensures Represents(items[i], vs[i], spell)
    {
      assert items[i] == P.Str(values[i]) && TextSlice(values, spell)[i] == Text(spell(values[i]));
    }
  }

  lemma SelectorRepresents(s: P.Selector, spell: Spelling)
    ensures Represents(P.SelectorValue(s), Project(SelectorStruct(s, spell)), spell) <==> !NamesNoCategories(s)
  {
    var m, fields := P.SelectorValue(s).members, SelectorStruct(s, spell).fields;
    ApartIsDistinct(fields);
    TextsRepresent(P.Listed(s), spell);
    assert fields[0].tag == Cose.Ascii("type") && fields[1].tag == Cose.Ascii("values") && fields[0].tag != fields[1].tag;
    if NamesNoCategories(s) {
      assert Omitted(fields[1]) && P.KValues in m;
      hide Represents, Project;
      MissingEntry(m, P.KValues, fields, spell);
    } else {
      assert P.KValues in m <==> s.values.Some?;
      assert Omitted(fields[1]) <==> s.values.None?;
      hide Represents, Project, P.TextList, TextSlice;
      TextAgrees(m, P.KType, "type", s.kind, spell);
      assert Agrees(m, P.KValues, fields[1], spell);
      hide Agrees;
      StructRepresents(m, [P.KType, P.KValues], fields, spell);
    }
  }

  lemma SelectorsRepresent(scope: seq<P.Selector>, i: nat, spell: Spelling)
    requires i < |scope|
    ensures |P.SelectorList(scope)| == |ProjectAll(ScopeSlice(scope, spell))| == |scope|
    ensures Represents(P.SelectorList(scope)[i], ProjectAll(ScopeSlice(scope, spell))[i], spell) <==> !NamesNoCategories(scope[i])
  {
    SelectorRepresents(scope[i], spell);
    hide Represents, NamesNoCategories, SelectorStruct, P.SelectorValue;
    assert ScopeSlice(scope, spell)[i] == SelectorStruct(scope[i], spell);
  }

  /** A scope is projected as the preflight takes it exactly when each of its selectors is. */
  lemma ScopeRepresents(scope: seq<P.Selector>, spell: Spelling)
    ensures Represents(P.List(P.SelectorList(scope)), Project(Slice(false, ScopeSlice(scope, spell))), spell) <==>
            forall s | s in scope :: !NamesNoCategories(s)
  {
    hide NamesNoCategories, SelectorStruct, P.SelectorValue;
    var items, vs := P.SelectorList(scope), ProjectAll(ScopeSlice(scope, spell));
    assert Project(Slice(false, ScopeSlice(scope, spell))) == Array(vs);
    assert |items| == |vs| == |scope|;
    assert Represents(P.List(items), Array(vs), spell) <==> forall i | 0 <= i < |items| :: Represents(items[i], vs[i], spell);
    hide Represents, P.SelectorList, ScopeSlice, ProjectAll, Project;
    forall i | 0 <= i < |scope|
      ensures Represents(items[i], vs[i], spell) <==> !NamesNoCategories(scope[i])
    {
      SelectorsRepresent(scope, i, spell);
    }
    if forall i | 0 <= i < |items| :: Represents(items[i], vs[i], spell) {
      forall s | s in scope
        ensures !NamesNoCategories(s)
      {
        var i :| 0 <= i < |scope| && scope[i] == s;
        assert Represents(items[i], vs[i], spell);
      }
    }
  }

  lemma ContextTags(g: P.Grant, spell: Spelling)
    ensures DistinctTags(ContextStruct(g, spell).fields)
  {
    hide DigestStruct;
    ApartIsDistinct(ContextStruct(g, spell).fields);
  }

  lemma ContextNames()
    ensures TagOf(P.KGranteeAddress) == Cose.Ascii("grantee_address")
    ensures TagOf(P.KAddressBindingHash) == Cose.Ascii("address_binding_hash")
    ensures TagOf(P.KSenderProfileHash) == Cose.Ascii("sender_profile_hash")
  {
    hide TagOf, Cose.Ascii;
    NamesAre();
  }

  lemma ContextRepresents(g: P.Grant, spell: Spelling)
    ensures Represents(P.ContextValue(g), Project(ContextStruct(g, spell)), spell)
  {
    var m := P.ContextValue(g).members;
    hide PayloadSizes.Tagged, OmitEmpty, OptionalInteger, TagOf, Cose.Ascii, DistinctTags, Represents, Project, Agrees, P.DigestValue, DigestStruct;
    ContextTags(g, spell);
    DigestRepresents(g.addressBindingHash, spell);
    DigestRepresents(g.senderProfileHash, spell);
    ContextNames();
    TextAgrees(m, P.KGranteeAddress, "grantee_address", g.granteeAddress, spell);
    NestedAgrees(m, P.KAddressBindingHash, "address_binding_hash", P.DigestValue(g.addressBindingHash), DigestStruct(g.addressBindingHash, spell), spell);
    NestedAgrees(m, P.KSenderProfileHash, "sender_profile_hash", P.DigestValue(g.senderProfileHash), DigestStruct(g.senderProfileHash, spell), spell);
    StructRepresents(m, [P.KGranteeAddress, P.KAddressBindingHash, P.KSenderProfileHash], ContextStruct(g, spell).fields, spell);
  }

  const GRANT_KEYS: seq<P.Key> :=
    [P.KType, P.KVersion, P.KGrantId, P.KRevision, P.KPrevious, P.KGrantor, P.KGrantee, P.KScope, P.KStatus, P.KIssuedAt, P.KUpdatedAt,
     P.KExpiresAt, P.KConsentContext, P.KKeyId]

  lemma PresentNumberAgrees(m: P.Members, k: P.Key, name: string, n: Option<int>, spell: Spelling)
    requires TagOf(k) == Cose.Ascii(name)
    requires k in m && m[k] == if n.Some? then P.Num(n.value) else P.Nil
    ensures Agrees(m, k, PayloadSizes.Tagged(name, OptionalInteger(n)), spell)
  {
    hide TagOf, Cose.Ascii;
    assert n.Some? ==> Project(Integer(n.value)) == Int(n.value);
  }

  lemma PresentOctetsAgree(m: P.Members, k: P.Key, name: string, o: Option<P.Bytes>, spell: Spelling)
    requires TagOf(k) == Cose.Ascii(name)
    requires k in m && m[k] == if o.Some? then P.Octs(o.value) else P.Nil
    ensures Agrees(m, k, PayloadSizes.Tagged(name, if o.Some? then TypedPreflight.Octets(false, o.value) else TypedPreflight.Octets(true, [])), spell)
  {
    hide TagOf, Cose.Ascii;
  }

  lemma GrantStartsNames()
    ensures TagOf(P.KType) == Cose.Ascii("type")
    ensures TagOf(P.KVersion) == Cose.Ascii("version")
    ensures TagOf(P.KGrantId) == Cose.Ascii("grant_id")
    ensures TagOf(P.KRevision) == Cose.Ascii("revision")
    ensures TagOf(P.KPrevious) == Cose.Ascii("previous")
    ensures TagOf(P.KGrantor) == Cose.Ascii("grantor")
    ensures TagOf(P.KGrantee) == Cose.Ascii("grantee")
  {
    hide TagOf, Cose.Ascii;
    NamesAre();
  }

  lemma GrantStarts(g: P.Grant, spell: Spelling)
    ensures |GrantStruct(g, spell).fields| == 14
    ensures AgreeIn(P.GrantValue(g), GRANT_KEYS, GrantStruct(g, spell).fields, 0, 7, spell)
  {
    var m := P.GrantValue(g);
    hide PayloadSizes.Tagged, OmitEmpty, OptionalInteger, TagOf, Cose.Ascii, DistinctTags, Represents, Project, Agrees, P.SelectorList, P.ContextValue, ScopeSlice, ContextStruct;
    GrantStartsNames();
    TextAgrees(m, P.KType, "type", g.kind, spell);
    NumberAgrees(m, P.KVersion, "version", g.version, spell);
    TextAgrees(m, P.KGrantId, "grant_id", g.grantId, spell);
    NumberAgrees(m, P.KRevision, "revision", g.revision, spell);
    PresentOctetsAgree(m, P.KPrevious, "previous", g.previous, spell);
    TextAgrees(m, P.KGrantor, "grantor", g.grantor, spell);
    TextAgrees(m, P.KGrantee, "grantee", g.grantee, spell);
  }

  lemma GrantEndsNames()
    ensures TagOf(P.KScope) == Cose.Ascii("scope")
    ensures TagOf(P.KStatus) == Cose.Ascii("status")
    ensures TagOf(P.KIssuedAt) == Cose.Ascii("issued_at")
    ensures TagOf(P.KUpdatedAt) == Cose.Ascii("updated_at")
    ensures TagOf(P.KExpiresAt) == Cose.Ascii("expires_at")
    ensures TagOf(P.KConsentContext) == Cose.Ascii("consent_context")
    ensures TagOf(P.KKeyId) == Cose.Ascii("key_id")
  {
    hide TagOf, Cose.Ascii;
    NamesAre();
  }

  lemma GrantEnds(g: P.Grant, spell: Spelling)
    requires Represents(P.List(P.SelectorList(g.scope)), Project(Slice(false, ScopeSlice(g.scope, spell))), spell)
    ensures |GrantStruct(g, spell).fields| == 14
    ensures AgreeIn(P.GrantValue(g), GRANT_KEYS, GrantStruct(g, spell).fields, 7, 14, spell)
  {
    var m := P.GrantValue(g);
    hide PayloadSizes.Tagged, OmitEmpty, OptionalInteger, TagOf, Cose.Ascii, DistinctTags, Represents, Project, Agrees, P.SelectorList, P.ContextValue, ScopeSlice, ContextStruct;
    ContextRepresents(g, spell);
    GrantEndsNames();
    NestedAgrees(m, P.KScope, "scope", P.List(P.SelectorList(g.scope)), Slice(false, ScopeSlice(g.scope, spell)), spell);
    TextAgrees(m, P.KStatus, "status", g.status, spell);
    NumberAgrees(m, P.KIssuedAt, "issued_at", g.issuedAt, spell);
    NumberAgrees(m, P.KUpdatedAt, "updated_at", g.updatedAt, spell);
    PresentNumberAgrees(m, P.KExpiresAt, "expires_at", g.expiresAt, spell);
    NestedAgrees(m, P.KConsentContext, "consent_context", P.ContextValue(g), ContextStruct(g, spell), spell);
    TextAgrees(m, P.KKeyId, "key_id", g.keyId, spell);
  }

  lemma GrantHasNoOthers(g: P.Grant)
    ensures forall k | k in P.GrantValue(g) :: k in GRANT_KEYS
  {
    hide P.SelectorList, P.ContextValue;
  }

  lemma GrantAgrees(g: P.Grant, spell: Spelling)
    requires forall s | s in g.scope :: !NamesNoCategories(s)
    ensures AllAgree(P.GrantValue(g), GRANT_KEYS, GrantStruct(g, spell).fields, spell)
  {
    hide P.SelectorList, ScopeSlice, GrantStruct, P.GrantValue, Represents, Project, Agrees, NamesNoCategories;
    ScopeRepresents(g.scope, spell);
    GrantStarts(g, spell);
    GrantEnds(g, spell);
    GrantHasNoOthers(g);
  }

  /** Grants are projected as the preflight takes them, unless a category selector has no list. */
  lemma GrantRepresents(g: P.Grant, spell: Spelling)
    ensures Represents(P.Dict(P.GrantValue(g)), Project(GrantStruct(g, spell)), spell) <==>
            forall s | s in g.scope :: !NamesNoCategories(s)
  {
    var m, fields := P.GrantValue(g), GrantStruct(g, spell).fields;
    GrantTags(g, spell);
    GrantScope(g, spell);
    ScopeRepresents(g.scope, spell);
    hide Represents, Project, Agrees, AllAgree, Omitted, TagOf, DistinctTags, GrantStruct, P.GrantValue, P.SelectorList, P.ContextValue, ScopeSlice, ContextStruct,
      NamesNoCategories;
    if forall s | s in g.scope :: !NamesNoCategories(s) {
      GrantAgrees(g, spell);
      StructRepresents(m, GRANT_KEYS, fields, spell);
    } else {
      MissingInside(m, P.KScope, fields, 7, spell);
    }
  }

  lemma GrantScope(g: P.Grant, spell: Spelling)
    ensures var m, fields := P.GrantValue(g), GrantStruct(g, spell).fields;
            && GrantStruct(g, spell).Struct? && |fields| == 14 && P.KScope in m && m[P.KScope] == P.List(P.SelectorList(g.scope))
            && fields[7].tag == TagOf(P.KScope) && fields[7].value == Slice(false, ScopeSlice(g.scope, spell)) && !Omitted(fields[7])
  {
    hide P.SelectorList, P.ContextValue, ScopeSlice, ContextStruct, Cose.Ascii;
  }
}
