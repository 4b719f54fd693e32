/**
 * The prefilters on the payload structs themselves, which run before the struct is projected to a
 * map, and what they have to do with the full validators of that map.
 */
module Prefilters {
  import opened Options
  import opened Payloads
  import opened PayloadSizes
  import opened TypedPreflight

  predicate GoodDigest(d: Digest) { d.algorithm == "sha-256" && |d.value| == 32 }

  // ---------------------------------------------------------------- grants

  predicate GoodCategories(values: seq<Text>) {
    && values != []
    && (forall i | 0 <= i < |values| :: Category(values[i]))
    && forall i | 1 <= i < |values| :: Before(values[i - 1], values[i])
  }

  /** The loop over a selector's values, each compared with the one before it. */
  method CheckCategories(values: seq<Text>) returns (ok: bool)
    ensures ok == GoodCategories(values)
  {
    if values == [] { return false; }
    var previous := "";
    for i := 0 to |values|
      invariant forall k | 0 <= k < i :: Category(values[k])
      invariant forall k | 1 <= k < i :: Before(values[k - 1], values[k])
      invariant previous == if i == 0 then "" else values[i - 1]
    {
      var current := values[i];
      if !Category(current) || !Before(previous, current) {
        return false;
      }
      previous := current;
    }
    return true;
  }

  predicate GrantPrefilter(r: Rules, g: Grant) {
    && g.kind == GRANT && g.version == 1 && g.revision >= 1
    && Uuid(g.grantId)
    && !(g.revision == 1 && g.previous.Some?)
    && !(g.revision > 1 && (g.previous.None? || |g.previous.value| != 32))
    && Did(g.grantor) && Did(g.grantee)
    && |g.scope| == 1 && g.scope[0].kind == "categories" && GoodCategories(Listed(g.scope[0]))
    && (g.status == "active" || g.status == "revoked")
    && !(g.issuedAt < 0 || g.updatedAt < g.issuedAt || (g.expiresAt.Some? && g.expiresAt.value < 0))
    && r.address(g.granteeAddress)
    && GoodDigest(g.addressBindingHash) && GoodDigest(g.senderProfileHash)
    && g.keyId == g.grantor + "#" + "hail-identity"
  }

  /** The prefilter on a grant decides what the full validator says of its projection. */
  method PreflightGrant(r: Rules, g: Grant) returns (ok: bool)
    ensures ok <==> ValidateGrant(r, GrantValue(g))
  {
    GrantPrefilterIsExact(r, g);
    hide Uuid, Did, GoodCategories, ValidateGrant, GrantValue;
    if g.kind != GRANT || g.version != 1 || g.revision < 1 { return false; }
    if !Uuid(g.grantId) { return false; }
    if (g.revision == 1 && g.previous.Some?) || (g.revision > 1 && (g.previous.None? || |g.previous.value| != 32)) { return false; }
    if !Did(g.grantor) || !Did(g.grantee) { return false; }
    if |g.scope| != 1 || g.scope[0].kind != "categories" { return false; }
    var ascending := CheckCategories(Listed(g.scope[0]));
    if !ascending { return false; }
    if g.status != "active" && g.status != "revoked" { return false; }
    if g.issuedAt < 0 || g.updatedAt < g.issuedAt || (g.expiresAt.Some? && g.expiresAt.value < 0) { return false; }
    if !r.address(g.granteeAddress) { return false; }
    if !GoodDigest(g.addressBindingHash) || !GoodDigest(g.senderProfileHash) { return false; }
    return g.keyId == g.grantor + "#" + "hail-identity";
  }

  lemma DigestAgrees(d: Digest)
    ensures IsDigest(DigestValue(d)) <==> GoodDigest(d)
  {
    assert DigestValue(d).members.Keys == {KAlgorithm, KValue};
  }

  lemma {:induction false} AscendingAgrees(values: seq<Text>, previous: Text)
    ensures AscendingItems(TextList(values), previous) <==>
              && (forall i | 0 <= i < |values| :: Category(values[i]))
              && (values != [] ==> Before(previous, values[0]))
              && forall i | 1 <= i < |values| :: Before(values[i - 1], values[i])
    decreases |values|
  {
    hide Category, Before;
    if values != [] {
      var rest := values[1..];
      assert TextList(values)[1..] == TextList(rest);
      AscendingAgrees(rest, values[0]);
      if forall i | 1 <= i < |values| :: Before(values[i - 1], values[i]) {
        forall i | 1 <= i < |rest|
          ensures Before(rest[i - 1], rest[i])
        {
          assert Before(values[i + 1 - 1], values[i + 1]);
        }
        if rest != [] {
          assert Before(values[1 - 1], values[1]);
        }
      }
      if (forall i | 1 <= i < |rest| :: Before(rest[i - 1], rest[i])) && (rest != [] ==> Before(values[0], rest[0])) {
        forall i | 1 <= i < |values|
          ensures Before(values[i - 1], values[i])
        {
          if i > 1 {
            assert Before(rest[i - 1 - 1], rest[i - 1]);
          }
        }
      }
      if forall i | 0 <= i < |rest| :: Category(rest[i]) {
        forall i | 1 <= i < |values|
          ensures Category(values[i])
        {
          assert Category(rest[i - 1]);
        }
      }
    }
  }

  lemma ScopeAgrees(scope: seq<Selector>)
    ensures ValidScope(List(SelectorList(scope))) <==>
              |scope| == 1 && scope[0].kind == "categories" && GoodCategories(Listed(scope[0]))
  {
    hide AscendingItems, Category, Before;
    if |scope| == 1 {
      var s := scope[0];
      var sel := SelectorValue(s).members;
      assert SelectorList(scope)[0] == SelectorValue(s);
      if s.kind == "categories" {
        assert sel.Keys == {KType, KValues};
        AscendingAgrees(Listed(s), "");
        NothingBeforeEmpty(Listed(s));
      }
    }
  }

  lemma NothingBeforeEmpty(values: seq<Text>)
    ensures values != [] && Category(values[0]) ==> Before("", values[0])
  {
  }

  lemma ContextAgrees(r: Rules, g: Grant)
    ensures ValidContext(r, ContextValue(g)) <==>
              r.address(g.granteeAddress) && GoodDigest(g.addressBindingHash) && GoodDigest(g.senderProfileHash)
  {
    hide IsDigest, GoodDigest;
    assert ContextValue(g).members.Keys == {KGranteeAddress, KAddressBindingHash, KSenderProfileHash};
    DigestAgrees(g.addressBindingHash);
    DigestAgrees(g.senderProfileHash);
  }

  lemma GrantMembers(g: Grant)
    ensures var m := GrantValue(g);
            && Exact(m, {KType, KVersion, KGrantId, KRevision, KPrevious, KGrantor, KGrantee, KScope, KStatus, KIssuedAt, KUpdatedAt,
                         KExpiresAt, KConsentContext, KKeyId}, {})
            && Get(m, KType) == Str(g.kind) && Get(m, KVersion) == Num(g.version) && Get(m, KGrantId) == Str(g.grantId)
            && Get(m, KRevision) == Num(g.revision) && Get(m, KPrevious) == (if g.previous.Some? then Octs(g.previous.value) else Nil)
            && Get(m, KGrantor) == Str(g.grantor) && Get(m, KGrantee) == Str(g.grantee) && Get(m, KScope) == List(SelectorList(g.scope))
            && Get(m, KStatus) == Str(g.status) && Get(m, KIssuedAt) == Num(g.issuedAt) && Get(m, KUpdatedAt) == Num(g.updatedAt)
            && Get(m, KExpiresAt) == (if g.expiresAt.Some? then Num(g.expiresAt.value) else Nil)
            && Get(m, KConsentContext) == ContextValue(g) && Get(m, KKeyId) == Str(g.keyId)
  {
    hide SelectorList, ContextValue;
  }

  /** For grants the prefilter and the full validator agree on every struct. */
  lemma GrantPrefilterIsExact(r: Rules, g: Grant)
    ensures GrantPrefilter(r, g) <==> ValidateGrant(r, GrantValue(g))
  {
    hide Did, Uuid, GoodCategories, GoodDigest, ValidScope, ValidContext, SelectorList, ContextValue, Listed, GrantValue, Get, Exact;
    GrantMembers(g);
    ScopeAgrees(g.scope);
    ContextAgrees(r, g);
  }

  // ---------------------------------------------------------------- delivery statuses

  predicate DeliveryPrefilter(d: Delivery) {
    && d.kind == DELIVERY && d.version == 1 && d.revision >= 1
    && Uuid(d.messageId) && GoodDigest(d.envelopeDigest) && Did(d.from) && Did(d.to)
    && (d.revision == 1 <==> d.state == "accepted")
    && (NeedsReason(d.state) <==> d.reason != "")
    && (NeedsReason(d.state) ==> AllowedReason(d.state, d.reason))
    && d.state in {"accepted", "on-hold", "delivered", "failed", "cancelled"}
    && !(d.occurredAt < 0
         || (d.state == "on-hold" && (d.retryAt.None? || d.retryAt.value < d.occurredAt))
         || (d.state != "on-hold" && d.retryAt.Some?))
  }

  lemma DeliveryMembers(d: Delivery)
    ensures var m := DeliveryValue(d);
            && {KType, KVersion, KMessageId, KEnvelopeDigest, KFrom, KTo, KRevision, KState, KOccurredAt} <= m.Keys
            && m.Keys <= {KType, KVersion, KMessageId, KEnvelopeDigest, KFrom, KTo, KRevision, KState, KOccurredAt} + {KReason, KRetryAt}
            && (KReason in m <==> d.reason != "") && (KRetryAt in m <==> d.retryAt.Some?)
            && Get(m, KType) == Str(d.kind) && Get(m, KVersion) == Num(d.version) && Get(m, KMessageId) == Str(d.messageId)
            && Get(m, KEnvelopeDigest) == DigestValue(d.envelopeDigest) && Get(m, KFrom) == Str(d.from) && Get(m, KTo) == Str(d.to)
            && Get(m, KRevision) == Num(d.revision) && Get(m, KState) == Str(d.state) && Get(m, KOccurredAt) == Num(d.occurredAt)
            && (d.reason != "" ==> Get(m, KReason) == Str(d.reason))
            && (d.retryAt.Some? ==> Get(m, KRetryAt) == Num(d.retryAt.value))
  {
    hide DigestValue;
  }

  /** For delivery statuses too they agree on every struct. */
  lemma DeliveryPrefilterIsExact(d: Delivery)
    ensures DeliveryPrefilter(d) <==> ValidateDelivery(DeliveryValue(d))
  {
    hide Did, Uuid, GoodDigest, IsDigest, AllowedReason, DigestValue, DeliveryValue, Get;
    DigestAgrees(d.envelopeDigest);
    DeliveryMembers(d);
  }

  // ---------------------------------------------------------------- envelopes

  predicate HeadPrefilter(e: Envelope) {
    e.kind == ENVELOPE && 1 <= e.version <= 3 && Uuid(e.messageId) && Did(e.from) && Did(e.to)
  }

  predicate OptionalPrefilter(e: Envelope) {
    (e.category != "" ==> Category(e.category)) && (e.messageType != "" ==> MessageType(e.messageType))
  }

  predicate TimesPrefilter(e: Envelope) {
    !(e.createdAt < 0 || e.expiresAt <= e.createdAt || Minus(e.expiresAt, e.createdAt) > 604800)
  }

  predicate AuthorizationPrefilter(e: Envelope) {
    var a := e.authorization;
    if a.kind == "grant" then
      e.version == 1 && e.category != "" && a.connectionId == "" && a.epoch == 0 && a.replyTo == "" && Uuid(a.grantId)
    else if a.kind == "reply" then
      && (e.version == 1 || e.version == 3)
      && a.connectionId == "" && a.epoch == 0 && a.grantId == "" && e.category == "" && Uuid(a.replyTo)
    else
      && a.kind == "connection" && (e.version == 2 || e.version == 3)
      && a.grantId == "" && a.replyTo == "" && e.category == "" && a.epoch >= 1 && Uuid(a.connectionId) && !e.allowed
  }

  predicate ParentPrefilter(e: Envelope) {
    if e.version == 3 then
      && e.inReplyTo.Some? && e.inReplyTo.value.sender == e.to && e.from != e.to && Uuid(e.inReplyTo.value.messageId)
      && (e.authorization.kind == "reply" ==> e.inReplyTo.value.messageId == e.authorization.replyTo)
    else e.inReplyTo.None?
  }

  predicate BodyPrefilter(e: Envelope) {
    var b := e.body;
    && GoodDigest(b.digest)
    && 1 <= b.size <= 1048576 && b.mediaType == "application/hail-body+cbor"
    && (b.profile == "spt-1" || b.profile == "spt-2" || b.profile == "spt-3")
    && b.availableUntil >= Plus(e.createdAt, 2592000) && b.availableUntil >= Plus(e.expiresAt, 300)
    && b.access.kind == "bearer" && |b.access.token| == 32 && b.access.expiresAt >= b.availableUntil
  }

  predicate ReplyPrefilter(e: Envelope) {
    && !(!e.allowed && e.until.Some?)
    && !(e.allowed && (e.until.None? || e.until.value <= e.createdAt))
  }

  predicate EnvelopePrefilter(r: Rules, e: Envelope) {
    if e.version == 4 then ValidateEnvelope(r, EnvelopeValue(e))
    else
      && HeadPrefilter(e)
      && AuthorizationPrefilter(e)
      && ParentPrefilter(e)
      && OptionalPrefilter(e)
      && TimesPrefilter(e)
      && BodyPrefilter(e)
      && ReplyPrefilter(e)
  }

  predicate ConversationAuthorization(a: Authorization) {
    a.creator != "" || a.conversationId != "" || a.membershipRevision != 0 || a.descriptorHash.Some?
  }

  predicate ConversationMembers(e: Envelope) { e.conversationMessageId != "" || e.introduction.Some? }

  /** Kept for longer than 31 days. */
  predicate KeptTooLong(e: Envelope) {
    e.body.availableUntil - e.createdAt > 2678400 || e.body.access.expiresAt - e.createdAt > 2678400
  }

  /** What the envelope prefilter lets through and the full validator does not. */
  predicate PrefilterGaps(e: Envelope) {
    e.version != 4 && (ConversationAuthorization(e.authorization) || ConversationMembers(e) || KeptTooLong(e))
  }

  lemma AuthorizationKeys(a: Authorization)
    ensures var m := AuthorizationValue(a);
            && KType in m && (KCreator in m <==> a.creator != "") && (KConversationId in m <==> a.conversationId != "")
            && (KMembershipRevision in m <==> a.membershipRevision != 0) && (KDescriptorHash in m <==> a.descriptorHash.Some?)
  {
  }

  lemma AuthorizationPeers(a: Authorization)
    ensures var m := AuthorizationValue(a);
            && (KGrantId in m <==> a.grantId != "") && (KReplyTo in m <==> a.replyTo != "")
            && (KConnectionId in m <==> a.connectionId != "") && (KEpoch in m <==> a.kind == "connection" || a.epoch != 0)
  {
  }

  lemma AuthorizationBounds(a: Authorization)
    ensures AuthorizationValue(a).Keys <=
            {KType, KCreator, KConversationId, KMembershipRevision, KDescriptorHash, KGrantId, KReplyTo, KConnectionId, KEpoch}
  {
  }

  lemma AuthorizationMembers(a: Authorization)
    ensures var m := AuthorizationValue(a);
            && Get(m, KType) == Str(a.kind)
            && (a.grantId != "" ==> Get(m, KGrantId) == Str(a.grantId))
            && (a.replyTo != "" ==> Get(m, KReplyTo) == Str(a.replyTo))
            && (a.connectionId != "" ==> Get(m, KConnectionId) == Str(a.connectionId))
            && (a.kind == "connection" || a.epoch != 0 ==> Get(m, KEpoch) == Num(a.epoch))
  {
  }

  lemma FixedKeys(e: Envelope)
    ensures EnvelopeFixed(e).Keys == {KType, KVersion, KMessageId, KFrom, KTo, KAuthorization, KCreatedAt, KExpiresAt, KBody, KReply}
  {
    hide AuthorizationValue, BodyValue, ReplyValue;
  }

  lemma FixedMembers(e: Envelope)
    ensures var m := EnvelopeFixed(e);
            && Get(m, KType) == Str(e.kind) && Get(m, KVersion) == Num(e.version) && Get(m, KMessageId) == Str(e.messageId)
            && Get(m, KFrom) == Str(e.from) && Get(m, KTo) == Str(e.to) && Get(m, KAuthorization) == Dict(AuthorizationValue(e.authorization))
            && Get(m, KCreatedAt) == Num(e.createdAt) && Get(m, KExpiresAt) == Num(e.expiresAt)
            && Get(m, KBody) == Dict(BodyValue(e.body)) && Get(m, KReply) == Dict(ReplyValue(e.allowed, e.until))
            && Get(m, KCategory) == Nil && Get(m, KInReplyTo) == Nil
  {
    hide AuthorizationValue, BodyValue, ReplyValue;
  }

  lemma EnvelopeKeys(e: Envelope)
    ensures var m := EnvelopeValue(e);
            && m.Keys <= {KType, KVersion, KMessageId, KFrom, KTo, KAuthorization, KCreatedAt, KExpiresAt, KBody, KReply,
                          KInReplyTo, KConversationMessageId, KConversationIntroduction, KCategory, KMessageType}
            && {KType, KVersion, KMessageId, KFrom, KTo, KAuthorization, KCreatedAt, KExpiresAt, KBody, KReply} <= m.Keys
  {
    hide EnvelopeFixed, AuthorizationValue, BodyValue, ReplyValue, ParentValue, IntroductionValue;
    FixedKeys(e);
  }

  lemma EnvelopeOptional(e: Envelope)
    ensures var m := EnvelopeValue(e);
            && (KInReplyTo in m <==> e.inReplyTo.Some?) && (KConversationMessageId in m <==> e.conversationMessageId != "")
            && (KConversationIntroduction in m <==> e.introduction.Some?)
            && (KCategory in m <==> e.category != "") && (KMessageType in m <==> e.messageType != "")
  {
    hide EnvelopeFixed, AuthorizationValue, BodyValue, ReplyValue, ParentValue, IntroductionValue;
    FixedKeys(e);
  }

  lemma EnvelopeMembers(e: Envelope)
    ensures var m := EnvelopeValue(e);
            && Get(m, KType) == Str(e.kind) && Get(m, KVersion) == Num(e.version) && Get(m, KMessageId) == Str(e.messageId)
            && Get(m, KFrom) == Str(e.from) && Get(m, KTo) == Str(e.to) && Get(m, KAuthorization) == Dict(AuthorizationValue(e.authorization))
            && Get(m, KCreatedAt) == Num(e.createdAt) && Get(m, KExpiresAt) == Num(e.expiresAt)
            && Get(m, KBody) == Dict(BodyValue(e.body)) && Get(m, KReply) == Dict(ReplyValue(e.allowed, e.until))
            && (e.inReplyTo.Some? ==> Get(m, KInReplyTo) == Dict(ParentValue(e.inReplyTo.value)))
            && (e.category != "" ==> Get(m, KCategory) == Str(e.category))
            && (e.category == "" ==> Get(m, KCategory) == Nil)
            && (e.messageType != "" ==> Get(m, KMessageType) == Str(e.messageType))
  {
    hide EnvelopeFixed, AuthorizationValue, BodyValue, ReplyValue, ParentValue, IntroductionValue;
    FixedMembers(e);
  }

  lemma CategoryMember(e: Envelope)
    ensures var m := EnvelopeValue(e);
            && (KCategory in m <==> e.category != "")
            && Get(m, KCategory) == (if e.category != "" then Str(e.category) else Nil)
  {
    hide EnvelopeValue, Get;
    EnvelopeOptional(e);
    EnvelopeMembers(e);
  }

  lemma HeadAgrees(e: Envelope)
    requires e.version != 4
    ensures ValidHead(EnvelopeValue(e)) <==>
              HeadPrefilter(e) && (e.version == 3 || e.inReplyTo.None?) && !ConversationMembers(e)
  {
    hide EnvelopeValue, AuthorizationValue, Get, Uuid, Did;
    EnvelopeKeys(e);
    EnvelopeOptional(e);
    EnvelopeMembers(e);
    AuthorizationKeys(e.authorization);
    AuthorizationPeers(e.authorization);
    AuthorizationBounds(e.authorization);
    AuthorizationMembers(e.authorization);
  }

  lemma OptionalAgrees(e: Envelope)
    ensures ValidOptional(EnvelopeValue(e)) <==> OptionalPrefilter(e)
  {
    hide EnvelopeValue, Get, Category, MessageType;
    EnvelopeOptional(e);
    EnvelopeMembers(e);
  }

  lemma TimesAgree(e: Envelope)
    ensures ValidTimes(EnvelopeValue(e)) <==> TimesPrefilter(e)
  {
    hide EnvelopeValue, Get, Minus;
    EnvelopeMembers(e);
  }

  /** An authorization has exactly the members of a grant, of a reply or of a connection if nothing else is set. */
  lemma AuthorizationShapes(a: Authorization)
    ensures var m := AuthorizationValue(a);
            var plain := !ConversationAuthorization(a);
            && (Exact(m, {KType, KGrantId}, {}) <==>
                  plain && a.grantId != "" && a.replyTo == "" && a.connectionId == "" && a.kind != "connection" && a.epoch == 0)
            && (Exact(m, {KType, KReplyTo}, {}) <==>
                  plain && a.grantId == "" && a.replyTo != "" && a.connectionId == "" && a.kind != "connection" && a.epoch == 0)
            && (Exact(m, {KType, KConnectionId, KEpoch}, {}) <==>
                  plain && a.grantId == "" && a.replyTo == "" && a.connectionId != "" && (a.kind == "connection" || a.epoch != 0))
  {
    hide AuthorizationValue;
    AuthorizationKeys(a);
    AuthorizationPeers(a);
    AuthorizationBounds(a);
  }

  lemma AuthorizationAgrees(r: Rules, e: Envelope)
    requires e.version != 4
    ensures var a := AuthorizationValue(e.authorization);
            ValidAuthorization(r, EnvelopeValue(e), a, e.version) && (IsText(Get(a, KType), "connection") ==> !e.allowed) <==>
              && AuthorizationPrefilter(e) && !ConversationAuthorization(e.authorization)
              && (e.category != "" && e.authorization.kind == "grant" ==> Category(e.category))
  {
    hide Category, EnvelopeValue, AuthorizationValue, Uuid, Get, Exact, ConversationAuthorization;
    CategoryMember(e);
    AuthorizationShapes(e.authorization);
    AuthorizationMembers(e.authorization);
    NotUuid();
    NotCategory();
  }

  lemma NotCategory()
    ensures !Category("")
  {
  }

  lemma NotUuid()
    ensures !Uuid("")
  {
  }

  lemma ParentAgrees(e: Envelope)
    requires e.version == 3 && Did(e.to) && (e.authorization.kind == "reply" ==> Uuid(e.authorization.replyTo))
    ensures ValidParent(EnvelopeValue(e), AuthorizationValue(e.authorization)) <==> ParentPrefilter(e)
  {
    hide Uuid, Did, EnvelopeValue, AuthorizationValue;
    EnvelopeOptional(e);
    EnvelopeMembers(e);
    AuthorizationKeys(e.authorization);
    AuthorizationPeers(e.authorization);
    AuthorizationBounds(e.authorization);
    AuthorizationMembers(e.authorization);
    NotUuid();
    if e.inReplyTo.Some? {
      assert ParentValue(e.inReplyTo.value).Keys == {KSender, KMessageId};
    }
  }

  lemma BodyAgrees(e: Envelope)
    requires SafeEnvelope(e) && e.createdAt >= 0
    ensures ValidBody(Dict(BodyValue(e.body)), e.createdAt, e.expiresAt) <==>
              BodyPrefilter(e) && !KeptTooLong(e)
  {
    hide IsDigest, GoodDigest, DigestValue, Plus, Minus;
    var b := e.body;
    DigestAgrees(b.digest);
    NoOverflow(e.createdAt, 2592000);
    NoOverflow(e.expiresAt, 300);
    NoOverflow(b.availableUntil, e.createdAt);
    NoOverflow(b.access.expiresAt, e.createdAt);
    assert BodyValue(b).Keys == {KDigest, KSize, KMediaType, KProfile, KAvailableUntil, KAccess};
    assert AccessValue(b.access).Keys == {KType, KToken, KExpiresAt};
  }

  lemma ReplyAgrees(e: Envelope, connection: bool)
    requires e.createdAt >= 0 && (connection ==> !e.allowed)
    ensures ValidReply(Dict(ReplyValue(e.allowed, e.until)), connection, e.createdAt) <==> ReplyPrefilter(e)
  {
    var m := ReplyValue(e.allowed, e.until);
    assert m.Keys == {KAllowed} + (if e.until.Some? then {KUntil} else {});
    assert Get(m, KAllowed) == Truth(e.allowed);
    assert KUntil in m <==> e.until.Some?;
  }

  /** The parts of the two checks agree one by one, as far as the parts before them hold. */
  lemma PartsAgree(r: Rules, e: Envelope)
    requires SafeEnvelope(e) && e.version != 4
    requires ValidHead(EnvelopeValue(e))
    requires var a := AuthorizationValue(e.authorization);
             ValidAuthorization(r, EnvelopeValue(e), a, e.version) && (IsText(Get(a, KType), "connection") ==> !e.allowed)
    requires ValidTimes(EnvelopeValue(e))
    ensures var m, a := EnvelopeValue(e), AuthorizationValue(e.authorization);
            && ((e.version == 3 ==> ValidParent(m, a)) <==> ParentPrefilter(e))
            && (ValidBody(Get(m, KBody), e.createdAt, e.expiresAt) <==>
                  BodyPrefilter(e) && !KeptTooLong(e))
            && (ValidReply(Get(m, KReply), IsText(Get(a, KType), "connection"), e.createdAt) <==> ReplyPrefilter(e))
  {
    hide ValidHead, ValidAuthorization, ValidParent, ValidTimes, ValidBody, ValidReply,
      AuthorizationPrefilter, ParentPrefilter, BodyPrefilter, ReplyPrefilter, EnvelopeValue, AuthorizationValue, BodyValue, ReplyValue,
      Get, Uuid, Did, Category, Minus;
    EnvelopeMembers(e);
    AuthorizationKeys(e.authorization);
    AuthorizationPeers(e.authorization);
    AuthorizationBounds(e.authorization);
    AuthorizationMembers(e.authorization);
    HeadAgrees(e);
    AuthorizationAgrees(r, e);
    ReplyUuid(e);
    OtherParent(e);
    if e.version == 3 {
      ParentAgrees(e);
    }
    TimesAgree(e);
    BodyAgrees(e);
    ReplyAgrees(e, e.authorization.kind == "connection");
  }

  /**
   * The envelope prefilter is transparent, and what it misses is exactly known: on integers the
   * encoding admits, the full validator accepts the projection if and only if the prefilter accepts
   * the struct and none of its gaps applies.
   */
  lemma EnvelopePrefilterIsTransparent(r: Rules, e: Envelope)
    requires SafeEnvelope(e)
    ensures ValidateEnvelope(r, EnvelopeValue(e)) <==> EnvelopePrefilter(r, e) && !PrefilterGaps(e)
  {
    if e.version != 4 {
      var m, a := EnvelopeValue(e), AuthorizationValue(e.authorization);
      var head, authorized, times := ValidHead(m), ValidAuthorization(r, m, a, e.version), ValidTimes(m);
      var unmixed := IsText(Get(a, KType), "connection") ==> !e.allowed;
      if head && authorized && unmixed && times {
        PartsAgree(r, e);
      }
      hide ValidHead, ValidAuthorization, ValidParent, ValidOptional, ValidTimes, ValidBody, ValidReply, IsText,
        AuthorizationPrefilter, ParentPrefilter, BodyPrefilter, ReplyPrefilter, EnvelopeValue, AuthorizationValue, BodyValue, ReplyValue,
        Get, HeadPrefilter, OptionalPrefilter, TimesPrefilter, ConversationAuthorization, ConversationMembers, KeptTooLong, Category;
      EnvelopeMembers(e);
      HeadAgrees(e);
      AuthorizationAgrees(r, e);
      OptionalAgrees(e);
      TimesAgree(e);
      OtherParent(e);
      AllowedIsTold(e, IsText(Get(a, KType), "connection"));
    }
  }

  const SOMEONE: Text := "did:plc:aaaaaaaaaaaaaaaaaaaaaaaa"
  const SOMEUUID: Text := "00000000-0000-7000-8000-000000000000"

  /** A grant envelope, and what may be wrong with it: how long its body is kept, and members of a conversation. */
  function SampleEnvelope(until: int, conversationMessageId: Text, creator: Text): Envelope {
    Envelope(conversationMessageId, None, None, ENVELOPE, 1, SOMEUUID, SOMEONE, SOMEONE,
             Authorization(creator, "", 0, None, "grant", SOMEUUID, "", "", 0),
             "a", "", 0, 100,
             Body(Digest("sha-256", seq(32, i => 0)), 1, "application/hail-body+cbor", "spt-1", until,
                  Access("bearer", seq(32, i => 0), until)),
             false, None)
  }

  /** Kept for about 35 days. */
  function KeptEnvelope(): Envelope { SampleEnvelope(3000000, "", "") }

  /** Kept for 30 days, with a conversation's message id, or with its creator in the authorization. */
  function ConversationEnvelope(): Envelope { SampleEnvelope(2592000, SOMEUUID, "") }
  function CreatorEnvelope(): Envelope { SampleEnvelope(2592000, "", SOMEONE) }

  /** The gap is a real one: the prefilter lets this envelope through and the full validator does not. */
  lemma PrefilterAdmitsTooLong(r: Rules)
    ensures SafeEnvelope(KeptEnvelope()) && EnvelopePrefilter(r, KeptEnvelope()) && KeptTooLong(KeptEnvelope())
    ensures !ValidateEnvelope(r, EnvelopeValue(KeptEnvelope()))
  {
    var e := KeptEnvelope();
    SamplePasses(r, 3000000, "", "");
    assert KeptTooLong(e);
    hide ValidateEnvelope, EnvelopeValue, EnvelopePrefilter, KeptTooLong, SafeEnvelope, KeptEnvelope;
    EnvelopePrefilterIsTransparent(r, e);
  }

  /** And so are the other two: nothing is kept too long here, and each of these has one member too many. */
  lemma PrefilterAdmitsConversationMembers(r: Rules)
    ensures forall e | e == ConversationEnvelope() || e == CreatorEnvelope() ::
              SafeEnvelope(e) && !KeptTooLong(e) && EnvelopePrefilter(r, e) && !ValidateEnvelope(r, EnvelopeValue(e))
    ensures ConversationMembers(ConversationEnvelope()) && ConversationAuthorization(CreatorEnvelope().authorization)
  {
    SamplePasses(r, 2592000, SOMEUUID, "");
    SamplePasses(r, 2592000, "", SOMEONE);
    var e, f := ConversationEnvelope(), CreatorEnvelope();
    assert PrefilterGaps(e) && PrefilterGaps(f) && !KeptTooLong(e) && !KeptTooLong(f);
    hide ValidateEnvelope, EnvelopeValue, EnvelopePrefilter, KeptTooLong, SafeEnvelope, PrefilterGaps;
    EnvelopePrefilterIsTransparent(r, e);
    EnvelopePrefilterIsTransparent(r, f);
  }

  lemma SamplePasses(r: Rules, until: int, conversationMessageId: Text, creator: Text)
    requires 2592000 <= until <= 3000000
    ensures SafeEnvelope(SampleEnvelope(until, conversationMessageId, creator))
    ensures EnvelopePrefilter(r, SampleEnvelope(until, conversationMessageId, creator))
  {
    NamedSomeone();
    NumberedMessage();
    hide Did, Uuid, Category;
  }

  lemma NamedSomeone()
    ensures Did(SOMEONE) && Category("a")
  {
  }

  lemma NumberedMessage()
    ensures Uuid(SOMEUUID)
  {
  }

  lemma ReplyUuid(e: Envelope)
    ensures AuthorizationPrefilter(e) && e.authorization.kind == "reply" ==> Uuid(e.authorization.replyTo)
  {
  }

  lemma OtherParent(e: Envelope)
    ensures e.version != 3 ==> (ParentPrefilter(e) <==> e.inReplyTo.None?)
  {
  }

  lemma AllowedIsTold(e: Envelope, connection: bool)
    ensures ValidReply(Dict(ReplyValue(e.allowed, e.until)), connection, e.createdAt) ==> (connection ==> !e.allowed)
  {
    assert Get(ReplyValue(e.allowed, e.until), KAllowed) == Truth(e.allowed);
  }

  // ---------------------------------------------------------------- encoding

  datatype Payload = GrantPayload(grant: Grant) | EnvelopePayload(envelope: Envelope) | DeliveryPayload(delivery: Delivery)

  function Projected(p: Payload): Members {
    match p
    case GrantPayload(g) => GrantValue(g)
    case EnvelopePayload(e) => EnvelopeValue(e)
    case DeliveryPayload(d) => DeliveryValue(d)
  }

  predicate Validate(r: Rules, p: Payload) {
    match p
    case GrantPayload(_) => ValidateGrant(r, Projected(p))
    case EnvelopePayload(_) => ValidateEnvelope(r, Projected(p))
    case DeliveryPayload(_) => ValidateDelivery(Projected(p))
  }

  predicate Prefilter(r: Rules, p: Payload) {
    match p
    case GrantPayload(g) => GrantPrefilter(r, g)
    case EnvelopePayload(e) => EnvelopePrefilter(r, e)
    case DeliveryPayload(d) => DeliveryPrefilter(d)
  }

  /** The payload as reflection sees it. */
  function StructOf(p: Payload, spell: Spelling): Typed {
    match p
    case GrantPayload(g) => GrantStruct(g, spell)
    case EnvelopePayload(e) => EnvelopeStruct(e, spell)
    case DeliveryPayload(d) => DeliveryStruct(d, spell)
  }

  lemma StructIsDeclared(p: Payload, spell: Spelling)
    ensures Declared(StructOf(p, spell))
  {
    hide Declared, GrantStruct, EnvelopeStruct, DeliveryStruct;
    match p
    case GrantPayload(g) => DeclaredGrant(g, spell);
    case EnvelopePayload(e) => DeclaredEnvelope(e, spell);
    case DeliveryPayload(d) => DeclaredDelivery(d, spell);
  }

  /** Behind a passed size preflight, what the full validator accepts the prefilter accepts. */
  lemma PrefilterIsTransparent(r: Rules, spell: Spelling, p: Payload)
    requires Sized(StructOf(p, spell)) && Validate(r, p)
    ensures Prefilter(r, p)
  {
    hide GrantPrefilter, EnvelopePrefilter, DeliveryPrefilter, ValidateGrant, ValidateEnvelope, ValidateDelivery,
      GrantValue, EnvelopeValue, DeliveryValue, GrantStruct, EnvelopeStruct, DeliveryStruct, Sized;
    match p
    case GrantPayload(g) => GrantPrefilterIsExact(r, g);
    case EnvelopePayload(e) =>
      SizedEnvelopeIsSafe(e, spell);
      EnvelopePrefilterIsTransparent(r, e);
    case DeliveryPayload(d) => DeliveryPrefilterIsExact(d);
  }

  /**
   * The size preflight, the prefilter, the full validator, and only then the encoder. The prefilters
   * never change what is emitted: it is what size and full validation alone would let through.
   */
  method EncodePayload(r: Rules, spell: Spelling, encode: Members -> Option<Bytes>, p: Payload) returns (out: Option<Bytes>)
    ensures out == if !Sized(StructOf(p, spell)) || !Validate(r, p) then None else encode(Projected(p))
  {
    hide Sized, StructOf, Prefilter, Validate, Projected, Declared;
    StructIsDeclared(p, spell);
    var sized := PreflightSize(StructOf(p, spell));
    if !sized { return None; }
    if Validate(r, p) {
      PrefilterIsTransparent(r, spell, p);
    }
    if !Prefilter(r, p) { return None; }
    if !Validate(r, p) { return None; }
    return encode(Projected(p));
  }
}
