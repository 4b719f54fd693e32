/**
 * Payload structs of grants, envelopes and delivery statuses, the maps they are projected to, and the
 * full validators of those maps. Members are looked up under numbered keys, as the validators do
 * under literal ones.
 */
module Payloads {
  import opened Octets
  import opened Options

  type Text = string
  type Bytes = seq<Octet>

  /** The literal member names, numbered. */
  type Key = nat

  const KType: Key := 0
  const KVersion: Key := 1
  const KMessageId: Key := 2
  const KFrom: Key := 3
  const KTo: Key := 4
  const KRevision: Key := 5
  const KState: Key := 6
  const KReason: Key := 7
  const KRetryAt: Key := 8
  const KOccurredAt: Key := 9
  const KEnvelopeDigest: Key := 10
  const KAlgorithm: Key := 11
  const KValue: Key := 12
  const KGrantId: Key := 13
  const KPrevious: Key := 14
  const KGrantor: Key := 15
  const KGrantee: Key := 16
  const KScope: Key := 17
  const KValues: Key := 18
  const KStatus: Key := 19
  const KIssuedAt: Key := 20
  const KUpdatedAt: Key := 21
  const KExpiresAt: Key := 22
  const KConsentContext: Key := 23
  const KGranteeAddress: Key := 24
  const KAddressBindingHash: Key := 25
  const KSenderProfileHash: Key := 26
  const KKeyId: Key := 27
  const KAuthorization: Key := 28
  const KCreator: Key := 29
  const KConversationId: Key := 30
  const KMembershipRevision: Key := 31
  const KDescriptorHash: Key := 32
  const KReplyTo: Key := 33
  const KConnectionId: Key := 34
  const KEpoch: Key := 35
  const KCreatedAt: Key := 36
  const KBody: Key := 37
  const KDigest: Key := 38
  const KSize: Key := 39
  const KMediaType: Key := 40
  const KProfile: Key := 41
  const KAvailableUntil: Key := 42
  const KAccess: Key := 43
  const KToken: Key := 44
  const KReply: Key := 45
  const KAllowed: Key := 46
  const KUntil: Key := 47
  const KInReplyTo: Key := 48
  const KSender: Key := 49
  const KCategory: Key := 50
  const KMessageType: Key := 51
  const KConversationMessageId: Key := 52
  const KConversationIntroduction: Key := 53
  const KDescriptor: Key := 54

  datatype Any =
    | Nil
    | Str(s: Text)
    | Num(n: int)
    | Truth(b: bool)
    | Octs(o: Bytes)
    | List(items: seq<Any>)
    | Dict(members: Members)

  type Members = map<Key, Any>

  const GRANT: Text := "hail.grant"
  const ENVELOPE: Text := "hail.envelope"
  const DELIVERY: Text := "hail.delivery-status"

  // ---------------------------------------------------------------- 64-bit integers

  predicate Safe(n: int) { -9007199254740991 <= n <= 9007199254740991 }

  function Wrap64(n: int): int { (n + 0x8000_0000_0000_0000) % 0x1_0000_0000_0000_0000 - 0x8000_0000_0000_0000 }

  function Plus(a: int, b: int): int { Wrap64(a + b) }

  function Minus(a: int, b: int): int { Wrap64(a - b) }

  /** On integers that the encoding admits no time arithmetic of the validators overflows. */
  lemma NoOverflow(a: int, b: int)
    requires Safe(a) && Safe(b)
    ensures Plus(a, b) == a + b && Minus(a, b) == a - b
  {
  }

  // ---------------------------------------------------------------- text patterns

  predicate Digit(c: char) { '0' <= c <= '9' }
  predicate Lower(c: char) { 'a' <= c <= 'z' }
  predicate Hex(c: char) { Digit(c) || 'a' <= c <= 'f' }

  predicate Did(s: Text) {
    |s| == 32 && s[..8] == "did:plc:" && forall i | 8 <= i < 32 :: Lower(s[i]) || '2' <= s[i] <= '7'
  }

  predicate Uuid(s: Text) {
    && |s| == 36
    && s[8] == '-' && s[13] == '-' && s[14] == '7' && s[18] == '-' && s[23] == '-'
    && (s[19] == '8' || s[19] == '9' || s[19] == 'a' || s[19] == 'b')
    && forall i | 0 <= i < 36 && i != 8 && i != 13 && i != 18 && i != 23 :: Hex(s[i])
  }

  predicate Category(s: Text) {
    && 1 <= |s| <= 64
    && (Lower(s[0]) || Digit(s[0]))
    && forall i | 1 <= i < |s| :: Lower(s[i]) || Digit(s[i]) || s[i] == '.' || s[i] == '_' || s[i] == '-'
  }

  /** The order of Go strings, on ASCII. */
  predicate Before(a: Text, b: Text)
    decreases a
  {
    b != [] && (a == [] || a[0] < b[0] || (a[0] == b[0] && Before(a[1..], b[1..])))
  }

  predicate MessageType(s: Text) {
    s in {"personal", "newsletter", "promotion", "receipt", "invoice", "ticket", "boarding-pass", "account-alert", "security-alert",
          "package-update", "calendar-event"}
  }

  predicate HoldReason(s: Text) {
    s in {"sender-unreachable", "body-temporarily-unavailable", "body-transfer-interrupted", "sender-rate-limited",
          "receiver-resource-constrained"}
  }

  predicate FailureReason(s: Text) {
    s in {"body-authorization-failed", "body-integrity-failed", "body-invalid", "body-unsupported", "delivery-expired",
          "receiver-policy-rejected"}
  }

  predicate CancellationReason(s: Text) { s in {"recipient-cancelled", "receiver-administrative-cancellation"} }

  predicate AllowedReason(state: Text, reason: Text) {
    if state == "failed" then FailureReason(reason)
    else if state == "cancelled" then CancellationReason(reason)
    else HoldReason(reason)
  }

  predicate NeedsReason(state: Text) { state == "on-hold" || state == "failed" || state == "cancelled" }

  /** The rules that rest on libraries: Hail addresses, and the members of a conversation envelope. */
  datatype Rules = Rules(address: Text -> bool, conversation: (Members, Members) -> bool)

  // ---------------------------------------------------------------- the structs

  datatype Digest = Digest(algorithm: Text, value: Bytes)

  datatype Selector = Selector(kind: Text, values: Option<seq<Text>>)

  datatype Grant = Grant(
    kind: Text, version: int, grantId: Text, revision: int, previous: Option<Bytes>, grantor: Text, grantee: Text,
    scope: seq<Selector>, status: Text, issuedAt: int, updatedAt: int, expiresAt: Option<int>,
    granteeAddress: Text, addressBindingHash: Digest, senderProfileHash: Digest, keyId: Text)

  datatype Authorization = Authorization(
    creator: Text, conversationId: Text, membershipRevision: int, descriptorHash: Option<Digest>,
    kind: Text, grantId: Text, replyTo: Text, connectionId: Text, epoch: int)

  datatype Access = Access(kind: Text, token: Bytes, expiresAt: int)

  datatype Body = Body(digest: Digest, size: int, mediaType: Text, profile: Text, availableUntil: int, access: Access)

  datatype Parent = Parent(sender: Text, messageId: Text)

  datatype Introduction = Introduction(descriptor: Bytes, connectionId: Text, epoch: int)

  datatype Envelope = Envelope(
    conversationMessageId: Text, introduction: Option<Introduction>, inReplyTo: Option<Parent>,
    kind: Text, version: int, messageId: Text, from: Text, to: Text, authorization: Authorization,
    category: Text, messageType: Text, createdAt: int, expiresAt: int, body: Body, allowed: bool, until: Option<int>)

  datatype Delivery = Delivery(
    kind: Text, version: int, messageId: Text, envelopeDigest: Digest, from: Text, to: Text, revision: int,
    state: Text, reason: Text, retryAt: Option<int>, occurredAt: int)

  /** All integers of an envelope are ones the encoding admits. */
  ghost predicate SafeEnvelope(e: Envelope) {
    && Safe(e.version) && Safe(e.createdAt) && Safe(e.expiresAt) && Safe(e.body.size)
    && Safe(e.body.availableUntil) && Safe(e.body.access.expiresAt) && Safe(e.authorization.epoch)
    && Safe(e.authorization.membershipRevision) && (e.until.Some? ==> Safe(e.until.value))
  }

  // ---------------------------------------------------------------- the projections

  /** The map with one more member, if that member is present. */
  function Put(m: Members, k: Key, present: bool, v: Any): (r: Members)
  {
    if present then m[k := v] else m
  }

  function DigestValue(d: Digest): Any { Dict(map[KAlgorithm := Str(d.algorithm), KValue := Octs(d.value)]) }

  function TextList(values: seq<Text>): (items: seq<Any>)
    ensures |items| == |values|
    ensures forall i | 0 <= i < |values| :: items[i] == Str(values[i])
  {
    seq(|values|, i requires 0 <= i < |values| => Str(values[i]))
  }

  function Listed(s: Selector): seq<Text> { if s.values.Some? then s.values.value else [] }

  function SelectorValue(s: Selector): Any {
    Dict(Put(map[KType := Str(s.kind)], KValues, s.kind == "categories" || s.values.Some?, List(TextList(Listed(s)))))
  }

  function SelectorList(scope: seq<Selector>): (items: seq<Any>)
    ensures |items| == |scope|
    ensures forall i | 0 <= i < |scope| :: items[i] == SelectorValue(scope[i])
  {
    seq(|scope|, i requires 0 <= i < |scope| => SelectorValue(scope[i]))
  }

  function ContextValue(g: Grant): Any {
    Dict(map[KGranteeAddress := Str(g.granteeAddress), KAddressBindingHash := DigestValue(g.addressBindingHash),
             KSenderProfileHash := DigestValue(g.senderProfileHash)])
  }

  function GrantValue(g: Grant): Members {
    map[KType := Str(g.kind), KVersion := Num(g.version), KGrantId := Str(g.grantId), KRevision := Num(g.revision),
        KPrevious := if g.previous.Some? then Octs(g.previous.value) else Nil,
        KGrantor := Str(g.grantor), KGrantee := Str(g.grantee), KScope := List(SelectorList(g.scope)), KStatus := Str(g.status),
        KIssuedAt := Num(g.issuedAt), KUpdatedAt := Num(g.updatedAt),
        KExpiresAt := if g.expiresAt.Some? then Num(g.expiresAt.value) else Nil,
        KConsentContext := ContextValue(g), KKeyId := Str(g.keyId)]
  }

  function AuthorizationValue(a: Authorization): Members {
    var m0 := map[KType := Str(a.kind)];
    var m1 := Put(m0, KCreator, a.creator != "", Str(a.creator));
    var m2 := Put(m1, KConversationId, a.conversationId != "", Str(a.conversationId));
    var m3 := Put(m2, KMembershipRevision, a.membershipRevision != 0, Num(a.membershipRevision));
    var m4 := Put(m3, KDescriptorHash, a.descriptorHash.Some?, if a.descriptorHash.Some? then DigestValue(a.descriptorHash.value) else Nil);
    var m5 := Put(m4, KGrantId, a.grantId != "", Str(a.grantId));
    var m6 := Put(m5, KReplyTo, a.replyTo != "", Str(a.replyTo));
    var m7 := Put(m6, KConnectionId, a.connectionId != "", Str(a.connectionId));
    Put(m7, KEpoch, a.kind == "connection" || a.epoch != 0, Num(a.epoch))
  }

  function AccessValue(a: Access): Members {
    map[KType := Str(a.kind), KToken := Octs(a.token), KExpiresAt := Num(a.expiresAt)]
  }

  function BodyValue(b: Body): Members {
    map[KDigest := DigestValue(b.digest), KSize := Num(b.size), KMediaType := Str(b.mediaType), KProfile := Str(b.profile),
        KAvailableUntil := Num(b.availableUntil), KAccess := Dict(AccessValue(b.access))]
  }

  function ReplyValue(allowed: bool, until: Option<int>): Members {
    Put(map[KAllowed := Truth(allowed)], KUntil, until.Some?, if until.Some? then Num(until.value) else Nil)
  }

  function ParentValue(p: Parent): Members { map[KSender := Str(p.sender), KMessageId := Str(p.messageId)] }

  function IntroductionValue(i: Introduction): Members {
    map[KDescriptor := Octs(i.descriptor), KConnectionId := Str(i.connectionId), KEpoch := Num(i.epoch)]
  }

  /** The members every envelope has. */
  function EnvelopeFixed(e: Envelope): Members {
    map[KType := Str(e.kind), KVersion := Num(e.version), KMessageId := Str(e.messageId), KFrom := Str(e.from), KTo := Str(e.to),
        KAuthorization := Dict(AuthorizationValue(e.authorization)), KCreatedAt := Num(e.createdAt), KExpiresAt := Num(e.expiresAt),
        KBody := Dict(BodyValue(e.body)), KReply := Dict(ReplyValue(e.allowed, e.until))]
  }

  function EnvelopeValue(e: Envelope): Members {
    var m1 := Put(EnvelopeFixed(e), KInReplyTo, e.inReplyTo.Some?, if e.inReplyTo.Some? then Dict(ParentValue(e.inReplyTo.value)) else Nil);
    var m2 := Put(m1, KConversationMessageId, e.conversationMessageId != "", Str(e.conversationMessageId));
    var m3 := Put(m2, KConversationIntroduction, e.introduction.Some?,
                  if e.introduction.Some? then Dict(IntroductionValue(e.introduction.value)) else Nil);
    var m4 := Put(m3, KCategory, e.category != "", Str(e.category));
    Put(m4, KMessageType, e.messageType != "", Str(e.messageType))
  }

  function DeliveryValue(d: Delivery): Members {
    var m0 := map[KType := Str(d.kind), KVersion := Num(d.version), KMessageId := Str(d.messageId),
                  KEnvelopeDigest := DigestValue(d.envelopeDigest), KFrom := Str(d.from), KTo := Str(d.to), KRevision := Num(d.revision),
                  KState := Str(d.state), KOccurredAt := Num(d.occurredAt)];
    var m1 := Put(m0, KReason, d.reason != "", Str(d.reason));
    Put(m1, KRetryAt, d.retryAt.Some?, if d.retryAt.Some? then Num(d.retryAt.value) else Nil)
  }

  // ---------------------------------------------------------------- looking into a map

  function Get(m: Members, k: Key): Any { if k in m then m[k] else Nil }

  predicate Exact(m: Members, required: set<Key>, optional: set<Key>) { required <= m.Keys <= required + optional }

  predicate IntAtLeast(v: Any, least: int) { v.Num? && v.n >= least }

  predicate IsText(v: Any, s: Text) { v == Str(s) }

  predicate IsDid(v: Any) { v.Str? && Did(v.s) }
  predicate IsUuid(v: Any) { v.Str? && Uuid(v.s) }
  predicate IsCategory(v: Any) { v.Str? && Category(v.s) }
  predicate IsOctets(v: Any, n: nat) { v.Octs? && |v.o| == n }

  predicate IsDigest(v: Any) {
    && v.Dict?
    && Exact(v.members, {KAlgorithm, KValue}, {})
    && IsText(Get(v.members, KAlgorithm), "sha-256")
    && IsOctets(Get(v.members, KValue), 32)
  }

  predicate IsKeyId(v: Any, signer: Text, role: Text) { IsText(v, signer + "#" + role) }

  // ---------------------------------------------------------------- the full validators

  /** The members of a category selector ascend, each after the one before it. */
  predicate AscendingItems(values: seq<Any>, previous: Text)
    decreases |values|
  {
    values == [] || (IsCategory(values[0]) && Before(previous, values[0].s) && AscendingItems(values[1..], values[0].s))
  }

  predicate ValidScope(v: Any) {
    && v.List? && |v.items| == 1 && v.items[0].Dict?
    && var sel := v.items[0].members;
       && IsText(Get(sel, KType), "categories")
       && Exact(sel, {KType, KValues}, {})
       && Get(sel, KValues).List? && Get(sel, KValues).items != []
       && AscendingItems(Get(sel, KValues).items, "")
  }

  predicate ValidContext(r: Rules, v: Any) {
    && v.Dict?
    && Exact(v.members, {KGranteeAddress, KAddressBindingHash, KSenderProfileHash}, {})
    && Get(v.members, KGranteeAddress).Str? && r.address(Get(v.members, KGranteeAddress).s)
    && IsDigest(Get(v.members, KAddressBindingHash))
    && IsDigest(Get(v.members, KSenderProfileHash))
  }

  predicate ValidateGrant(r: Rules, m: Members) {
    && IsText(Get(m, KType), GRANT) && Get(m, KVersion) == Num(1)
    && Exact(m, {KType, KVersion, KGrantId, KRevision, KPrevious, KGrantor, KGrantee, KScope, KStatus, KIssuedAt, KUpdatedAt,
                 KExpiresAt, KConsentContext, KKeyId}, {})
    && IsUuid(Get(m, KGrantId))
    && IntAtLeast(Get(m, KRevision), 1)
    && (if Get(m, KRevision).n == 1 then Get(m, KPrevious).Nil? else IsOctets(Get(m, KPrevious), 32))
    && IsDid(Get(m, KGrantor)) && IsDid(Get(m, KGrantee))
    && ValidScope(Get(m, KScope))
    && (IsText(Get(m, KStatus), "active") || IsText(Get(m, KStatus), "revoked"))
    && IntAtLeast(Get(m, KIssuedAt), 0)
    && IntAtLeast(Get(m, KUpdatedAt), 0) && Get(m, KUpdatedAt).n >= Get(m, KIssuedAt).n
    && (Get(m, KExpiresAt).Nil? || IntAtLeast(Get(m, KExpiresAt), 0))
    && ValidContext(r, Get(m, KConsentContext))
    && IsKeyId(Get(m, KKeyId), Get(m, KGrantor).s, "hail-identity")
  }

  predicate ValidAuthorization(r: Rules, m: Members, a: Members, version: int) {
    var kind := Get(a, KType);
    if IsText(kind, "grant") then
      && IsCategory(Get(m, KCategory)) && version == 1
      && Exact(a, {KType, KGrantId}, {}) && IsUuid(Get(a, KGrantId))
    else if IsText(kind, "reply") then
      && (version == 1 || version == 3)
      && Exact(a, {KType, KReplyTo}, {}) && IsUuid(Get(a, KReplyTo)) && KCategory !in m
    else if IsText(kind, "connection") then
      && (version == 2 || version == 3)
      && Exact(a, {KType, KConnectionId, KEpoch}, {}) && IsUuid(Get(a, KConnectionId)) && IntAtLeast(Get(a, KEpoch), 1)
      && KCategory !in m
    else
      IsText(kind, "conversation") && version == 4 && r.conversation(m, a)
  }

  predicate ValidParent(m: Members, a: Members) {
    var p := Get(m, KInReplyTo);
    && p.Dict? && Exact(p.members, {KSender, KMessageId}, {})
    && IsDid(Get(p.members, KSender)) && IsUuid(Get(p.members, KMessageId))
    && Get(p.members, KSender) == Get(m, KTo) && Get(m, KFrom) != Get(m, KTo)
    && (IsText(Get(a, KType), "reply") ==> Get(p.members, KMessageId) == Get(a, KReplyTo))
  }

  predicate ValidBody(v: Any, created: int, expires: int) {
    && v.Dict?
    && var b := v.members;
       && Exact(b, {KDigest, KSize, KMediaType, KProfile, KAvailableUntil, KAccess}, {})
       && IsDigest(Get(b, KDigest))
       && IntAtLeast(Get(b, KSize), 1) && Get(b, KSize).n <= 1048576
       && IsText(Get(b, KMediaType), "application/hail-body+cbor")
       && (IsText(Get(b, KProfile), "spt-1") || IsText(Get(b, KProfile), "spt-2") || IsText(Get(b, KProfile), "spt-3"))
       && IntAtLeast(Get(b, KAvailableUntil), 0)
       && var available := Get(b, KAvailableUntil).n;
          && available >= Plus(created, 2592000) && available >= Plus(expires, 300) && Minus(available, created) <= 2678400
          && ValidAccess(Get(b, KAccess), created, available)
  }

  predicate ValidAccess(v: Any, created: int, available: int) {
    && v.Dict?
    && Exact(v.members, {KType, KToken, KExpiresAt}, {})
    && IsText(Get(v.members, KType), "bearer")
    && IsOctets(Get(v.members, KToken), 32)
    && IntAtLeast(Get(v.members, KExpiresAt), 0)
    && Get(v.members, KExpiresAt).n >= available && Minus(Get(v.members, KExpiresAt).n, created) <= 2678400
  }

  predicate ValidReply(v: Any, connection: bool, created: int) {
    && v.Dict? && Get(v.members, KAllowed).Truth?
    && var allowed := Get(v.members, KAllowed).b;
       && !(connection && allowed)
       && Exact(v.members, {KAllowed} + (if allowed then {KUntil} else {}), {})
       && (allowed ==> IntAtLeast(Get(v.members, KUntil), 0) && Get(v.members, KUntil).n > created)
  }

  function OptionalMembers(version: int): set<Key> {
    if version == 4 then {KMessageType, KInReplyTo, KConversationMessageId, KConversationIntroduction}
    else {KCategory, KMessageType} + (if version == 3 then {KInReplyTo} else {})
  }

  predicate ValidHead(m: Members) {
    && IsText(Get(m, KType), ENVELOPE) && IntAtLeast(Get(m, KVersion), 1) && Get(m, KVersion).n <= 4
    && Exact(m, {KType, KVersion, KMessageId, KFrom, KTo, KAuthorization, KCreatedAt, KExpiresAt, KBody, KReply},
             OptionalMembers(Get(m, KVersion).n))
    && IsUuid(Get(m, KMessageId)) && IsDid(Get(m, KFrom)) && IsDid(Get(m, KTo))
    && Get(m, KAuthorization).Dict? && Get(Get(m, KAuthorization).members, KType).Str?
  }

  predicate ValidOptional(m: Members) {
    && (KCategory in m ==> IsCategory(Get(m, KCategory)))
    && (KMessageType in m ==> Get(m, KMessageType).Str? && MessageType(Get(m, KMessageType).s))
  }

  predicate ValidTimes(m: Members) {
    && IntAtLeast(Get(m, KCreatedAt), 0) && IntAtLeast(Get(m, KExpiresAt), 0)
    && Get(m, KExpiresAt).n > Get(m, KCreatedAt).n && Minus(Get(m, KExpiresAt).n, Get(m, KCreatedAt).n) <= 604800
  }

  predicate ValidateEnvelope(r: Rules, m: Members) {
    && ValidHead(m)
    && var a := Get(m, KAuthorization).members;
       && ValidAuthorization(r, m, a, Get(m, KVersion).n)
       && (Get(m, KVersion).n == 3 ==> ValidParent(m, a))
       && ValidOptional(m)
       && ValidTimes(m)
       && ValidBody(Get(m, KBody), Get(m, KCreatedAt).n, Get(m, KExpiresAt).n)
       && ValidReply(Get(m, KReply), IsText(Get(a, KType), "connection"), Get(m, KCreatedAt).n)
  }

  predicate ValidateDelivery(m: Members) {
    && IsText(Get(m, KType), DELIVERY) && Get(m, KVersion) == Num(1)
    && Exact(m, {KType, KVersion, KMessageId, KEnvelopeDigest, KFrom, KTo, KRevision, KState, KOccurredAt}, {KReason, KRetryAt})
    && IsUuid(Get(m, KMessageId)) && IsDigest(Get(m, KEnvelopeDigest)) && IsDid(Get(m, KFrom)) && IsDid(Get(m, KTo))
    && IntAtLeast(Get(m, KRevision), 1) && Get(m, KState).Str?
    && var state := Get(m, KState).s;
       && state in {"accepted", "on-hold", "delivered", "failed", "cancelled"}
       && (Get(m, KRevision).n == 1 <==> state == "accepted")
       && (NeedsReason(state) <==> KReason in m)
       && (NeedsReason(state) ==> Get(m, KReason).Str? && AllowedReason(state, Get(m, KReason).s))
       && IntAtLeast(Get(m, KOccurredAt), 0)
       && if state == "on-hold" then KRetryAt in m && IntAtLeast(Get(m, KRetryAt), 0) && Get(m, KRetryAt).n >= Get(m, KOccurredAt).n
          else KRetryAt !in m
  }
}
