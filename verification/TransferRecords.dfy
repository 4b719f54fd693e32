/**
 * The signed records of an account transfer and the reviews that bind each of them to the ones
 * before it: grant, acknowledgement (managed transfers only), offer, selection, reservation.
 */
module TransferRecords {
  import opened Octets
  import opened Options

  type Text = string

  /** A record as it is retained: the encoded payload and the signature over it. */
  datatype Wire = Wire(payload: seq<Octet>, signature: seq<Octet>)

  /** The members of a decoded payload; a member its kind does not have is empty. */
  datatype Fields = Fields(
    kind: Text, did: Text, nonce: Text, issuedAt: int, expiresAt: int,
    sourceBase: Text, destinationBase: Text, destinationDomain: Text, transferId: Text,
    grantDigest: Text, acknowledgementDigest: Text, offerDigest: Text, selectionDigest: Text, invitationDigest: Text,
    address: Text, rotationKey: Text, identityKey: Text, messagingKey: Text,
    ownerRecoveryKey: Text, sourceIdentityKey: Text, sourceMessagingKey: Text)

  /** The clock, the codec, the digest, the signature check, and the shape rules of each kind. */
  datatype Checks = Checks(
    now: int,
    decode: seq<Octet> -> Option<Fields>,
    digest: seq<Octet> -> Text,
    authentic: (Text, seq<Octet>, seq<Octet>) -> bool,
    shaped: (Text, bool, Fields) -> bool)

  const NUL: Octet := 0

  function Chars(s: string): (octets: seq<Octet>)
    ensures |octets| == |s|
    ensures forall i | 0 <= i < |s| && s[i] as int < 256 :: octets[i] == s[i] as int
  {
    seq(|s|, i requires 0 <= i < |s| => if s[i] as int < 256 then s[i] as int else 63)
  }

  /** What is signed: the kind, its version mark, a zero octet, and the payload. */
  function SigningInput(kind: Text, payload: seq<Octet>): seq<Octet> {
    Chars(kind) + Chars(".v1") + [NUL] + payload
  }

  predicate PlainKind(kind: Text) { forall i | 0 <= i < |kind| :: 0 < kind[i] as int < 128 }

  /** One signature never covers two kinds or two payloads. */
  lemma SigningInputInjective(a: Text, p: seq<Octet>, b: Text, q: seq<Octet>)
    requires PlainKind(a) && PlainKind(b)
    requires SigningInput(a, p) == SigningInput(b, q)
    ensures a == b && p == q
  {
    MarkAtEnd(a, p);
    MarkAtEnd(b, q);
    var s := SigningInput(a, p);
    assert s[|a| + 3] == NUL && s[|b| + 3] == NUL;
    assert |a| == |b|;
    forall i | 0 <= i < |a|
      ensures a[i] == b[i]
    {
      assert SigningInput(a, p)[i] == Chars(a)[i] == a[i] as int;
      assert SigningInput(b, q)[i] == Chars(b)[i] == b[i] as int;
    }
    assert SigningInput(a, p)[|a| + 4..] == p && SigningInput(b, q)[|b| + 4..] == q;
  }

  lemma MarkAtEnd(kind: Text, payload: seq<Octet>)
    requires PlainKind(kind)
    ensures var s := SigningInput(kind, payload);
            && |s| >= |kind| + 4 && s[|kind| + 3] == NUL && s[|kind| + 4..] == payload
            && forall i | 0 <= i < |kind| + 3 :: s[i] != NUL
  {
    var s := SigningInput(kind, payload);
    var mark := Chars(".v1");
    assert mark[0] == 46 && mark[1] == 118 && mark[2] == 49;
    forall i | 0 <= i < |kind| + 3
      ensures s[i] != NUL
    {
      if i < |kind| {
        assert s[i] == Chars(kind)[i];
      } else {
        assert s[i] == mark[i - |kind|];
      }
    }
  }

  predicate SafeInteger(n: int) { -9007199254740991 <= n <= 9007199254740991 }

  // ---------------------------------------------------------------- kinds of record

  const RECEIPT: Text := "hail.transfer-cancellation-receipt"
  const CANCELLATION: Text := "hail.transfer-cancellation"

  function GrantKind(managed: bool): Text { if managed then "hail.managed-transfer-grant" else "hail.transfer-grant" }
  const ACKNOWLEDGEMENT: Text := "hail.managed-transfer-acknowledgement"
  function OfferKind(managed: bool): Text { if managed then "hail.managed-transfer-offer" else "hail.transfer-offer" }
  function SelectionKind(managed: bool): Text {
    if managed then "hail.managed-transfer-address-selection" else "hail.transfer-address-selection"
  }
  function ReservationKind(managed: bool): Text { if managed then "hail.managed-transfer-reservation" else "hail.transfer-reservation" }

  /** One record on its own: size, signature, kind, shape and lifetime. */
  function Verify(c: Checks, w: Wire, kind: Text, key: Text, managed: bool): Option<Fields> {
    if |w.payload| > (if managed then 8192 else 4096) || |w.signature| != 64 then None else
      match c.decode(w.payload)
      case None => None
      case Some(f) =>
        if !c.authentic(key, SigningInput(kind, w.payload), w.signature) then None
        else if f.kind != kind || !c.shaped(kind, managed, f) then None
        else if !SafeInteger(f.issuedAt) || !SafeInteger(f.expiresAt) then None
        else if f.expiresAt <= f.issuedAt then None
        else if f.expiresAt - f.issuedAt > (if kind == RECEIPT then 7 * 86400 else 3600) then None
        else if !managed && f.issuedAt > c.now + 300 then None
        else Some(f)
  }

  // ---------------------------------------------------------------- the retained state

  datatype Cutover = Cutover(
    snapshotDigest: Text, snapshotPath: Text, operationPath: Text, consentPath: Text, bindingPath: Text,
    operationCid: Option<Text>)

  datatype Transfer = Transfer(
    managed: bool, provider: Text, accountId: Text, did: Text, destination: Text,
    key: Text, ownerRecoveryKey: Text, sourceIdentityKey: Text,
    grant: Option<Wire>, acknowledgement: Option<Wire>, offer: Option<Wire>, selection: Option<Wire>, reservation: Option<Wire>,
    cancellation: Option<Wire>, receipt: Option<Wire>, sourceMessagingKey: Option<Text>, targetAcknowledged: bool,
    cutover: Option<Cutover>, activationReceipt: Option<Wire>, retired: bool)

  /** Whose key the owner's own records are signed with. */
  function OwnerKey(s: Transfer): Text { if s.managed then s.ownerRecoveryKey else s.key }

  function Base(origin: Text): Text { origin + "/hail" }

  // ---------------------------------------------------------------- the reviews

  function ReviewGrant(c: Checks, s: Transfer, domain: Text): Option<Fields> {
    if s.grant.None? then None else
      match Verify(c, s.grant.value, GrantKind(s.managed), OwnerKey(s), s.managed)
      case None => None
      case Some(grant) =>
        if grant.did != s.did || grant.sourceBase != Base(s.provider) || grant.destinationBase != Base(s.destination)
           || grant.destinationDomain != domain
           || (s.managed && (grant.ownerRecoveryKey != s.ownerRecoveryKey || grant.sourceIdentityKey != s.sourceIdentityKey))
        then None else Some(grant)
  }

  function ReviewAck(c: Checks, s: Transfer, grant: Fields, w: Wire): Option<Fields>
    requires s.grant.Some?
  {
    match c.decode(w.payload)
    case None => None
    case Some(raw) =>
      match Verify(c, w, ACKNOWLEDGEMENT, raw.sourceMessagingKey, true)
      case None => None
      case Some(ack) =>
        if ack.did != s.did || ack.nonce != grant.nonce || ack.sourceBase != grant.sourceBase
           || ack.destinationBase != grant.destinationBase || ack.grantDigest != c.digest(s.grant.value.payload)
        then None else Some(ack)
  }

  function ReviewOffer(c: Checks, s: Transfer, grant: Fields, live: bool): Option<Fields>
    requires s.grant.Some?
  {
    if s.offer.None? then None else
      match c.decode(s.offer.value.payload)
      case None => None
      case Some(raw) =>
        match Verify(c, s.offer.value, OfferKind(s.managed), raw.messagingKey, s.managed)
        case None => None
        case Some(offer) =>
          if offer.did != s.did || offer.nonce != grant.nonce || offer.sourceBase != grant.sourceBase
             || offer.destinationBase != grant.destinationBase
             || (live && (offer.expiresAt <= c.now || offer.expiresAt > grant.expiresAt))
             || offer.grantDigest != c.digest(s.grant.value.payload)
          then None
          else if s.managed then
            if s.acknowledgement.None? then None else
              match ReviewAck(c, s, grant, s.acknowledgement.value)
              case None => None
              case Some(ack) =>
                if offer.grantDigest != ack.grantDigest || offer.acknowledgementDigest != c.digest(s.acknowledgement.value.payload)
                   || offer.rotationKey == offer.identityKey || offer.identityKey == offer.messagingKey
                   || offer.rotationKey == offer.messagingKey
                then None else Some(offer)
          else if offer.rotationKey == offer.messagingKey then None
          else Some(offer)
  }

  /** The four records that a cutover rests on, each checked against the ones before it. */
  datatype Chain = Chain(grant: Fields, offer: Fields, selection: Fields, reservation: Fields)

  /** The second of the parts that at signs separate. */
  function DomainOf(address: Text): Option<Text> {
    var rest := Behind(address);
    if rest.None? then None else Some(Before(rest.value))
  }

  /** What follows the first at sign. */
  function Behind(s: Text): Option<Text> {
    if s == "" then None else if s[0] == '@' then Some(s[1..]) else Behind(s[1..])
  }

  /** What comes before the first at sign, or everything. */
  function Before(s: Text): Text {
    if s == "" || s[0] == '@' then "" else [s[0]] + Before(s[1..])
  }

  function Retained(c: Checks, s: Transfer, domain: Text): Option<Chain> {
    match ReviewGrant(c, s, domain)
    case None => None
    case Some(grant) =>
      match ReviewOffer(c, s, grant, s.managed)
      case None => None
      case Some(offer) =>
        if s.selection.None? || s.reservation.None? then None else
          match Verify(c, s.selection.value, SelectionKind(s.managed), OwnerKey(s), s.managed)
          case None => None
          case Some(selection) =>
            match Verify(c, s.reservation.value, ReservationKind(s.managed), offer.messagingKey, s.managed)
            case None => None
            case Some(reservation) =>
              if s.cancellation.Some?
                 || selection.did != s.did || selection.nonce != grant.nonce || selection.transferId != offer.transferId
                 || reservation.did != s.did || reservation.nonce != grant.nonce || reservation.transferId != offer.transferId
                 || selection.address != reservation.address
                 || selection.grantDigest != c.digest(s.grant.value.payload)
                 || selection.offerDigest != c.digest(s.offer.value.payload)
                 || reservation.offerDigest != selection.offerDigest
                 || reservation.selectionDigest != c.digest(s.selection.value.payload)
              then None
              else if s.managed && (reservation.rotationKey != offer.rotationKey || reservation.identityKey != offer.identityKey
                                    || reservation.messagingKey != offer.messagingKey)
              then None
              else if !s.managed && DomainOf(selection.address) != Some(grant.destinationDomain) then None
              else Some(Chain(grant, offer, selection, reservation))
  }

  // ---------------------------------------------------------------- the snapshot

  /** What a verified snapshot says of the account, and of the custody evidence in it. */
  datatype Manifest = Manifest(
    did: Text, accountId: Text, transferId: Text, sourceBase: Text, destinationBase: Text,
    rotationKey: Text, identityKey: Text, messagingKey: Text, ownerRecoveryKey: Text, sourceIdentityKey: Text,
    portable: bool, custodyIdentityKey: Text, custodyRecoveryKey: Text, prior: Text)

  /** A snapshot whose signature and digest have been verified. */
  datatype Snapshot = Snapshot(digest: Text, manifest: Manifest)

  /** The snapshot is one of this transfer. */
  predicate Matches(s: Transfer, m: Manifest, offer: Fields) {
    && m.did == s.did && m.accountId == s.accountId && m.transferId == offer.transferId
    && m.sourceBase == Base(s.provider) && m.destinationBase == Base(s.destination)
    && m.rotationKey == offer.rotationKey && m.messagingKey == offer.messagingKey
    && if s.managed then
         m.ownerRecoveryKey == s.ownerRecoveryKey && m.sourceIdentityKey == s.sourceIdentityKey && m.identityKey == offer.identityKey
       else m.portable
  }

  // ---------------------------------------------------------------- what the chain binds

  ghost predicate InjectiveDigest(c: Checks) {
    forall p, q | c.digest(p) == c.digest(q) :: p == q
  }

  /**
   * The reservation binds everything before it: two states that are accepted with the same
   * reservation payload hold the same selection, offer and grant payloads, even at different times
   * and with different signatures, and for managed transfers the same acknowledgement payload too.
   */
  lemma ReservationBindsAll(c: Checks, s: Transfer, domain: Text,
                            c': Checks, t: Transfer, domain': Text)
    requires InjectiveDigest(c) && c'.digest == c.digest && c'.decode == c.decode
    requires Retained(c, s, domain).Some? && Retained(c', t, domain').Some?
    requires s.reservation.value.payload == t.reservation.value.payload
    ensures s.selection.value.payload == t.selection.value.payload
    ensures s.offer.value.payload == t.offer.value.payload
    ensures s.grant.value.payload == t.grant.value.payload
    ensures s.managed && t.managed ==> s.acknowledgement.value.payload == t.acknowledgement.value.payload
    ensures Retained(c, s, domain) == Retained(c', t, domain')
  {
    var x, y := Retained(c, s, domain).value, Retained(c', t, domain').value;
    VerifyDecodes(c, s.reservation.value, ReservationKind(s.managed), x.offer.messagingKey, s.managed);
    VerifyDecodes(c', t.reservation.value, ReservationKind(t.managed), y.offer.messagingKey, t.managed);
    assert x.reservation == y.reservation;
    assert c.digest(s.selection.value.payload) == c.digest(t.selection.value.payload);
    VerifyDecodes(c, s.selection.value, SelectionKind(s.managed), OwnerKey(s), s.managed);
    VerifyDecodes(c', t.selection.value, SelectionKind(t.managed), OwnerKey(t), t.managed);
    assert c.digest(s.offer.value.payload) == c.digest(t.offer.value.payload);
    assert c.digest(s.grant.value.payload) == c.digest(t.grant.value.payload);
    OfferDecodes(c, s, x.grant, s.managed);
    OfferDecodes(c', t, y.grant, t.managed);
    VerifyDecodes(c, s.grant.value, GrantKind(s.managed), OwnerKey(s), s.managed);
    VerifyDecodes(c', t.grant.value, GrantKind(t.managed), OwnerKey(t), t.managed);
  }

  lemma VerifyDecodes(c: Checks, w: Wire, kind: Text, key: Text, managed: bool)
    requires Verify(c, w, kind, key, managed).Some?
    ensures Verify(c, w, kind, key, managed) == c.decode(w.payload)
  {
  }

  lemma OfferDecodes(c: Checks, s: Transfer, grant: Fields, live: bool)
    requires s.grant.Some? && ReviewOffer(c, s, grant, live).Some?
    ensures ReviewOffer(c, s, grant, live) == c.decode(s.offer.value.payload)
    ensures s.managed ==>
              && s.acknowledgement.Some?
              && ReviewOffer(c, s, grant, live).value.acknowledgementDigest == c.digest(s.acknowledgement.value.payload)
  {
  }
}
