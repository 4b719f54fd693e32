/**
 * What the reviews of a transfer amount to, and that its commands get on: what offer, select and cancel
 * sign passes their own reviews, and with good answers each of them ends where it should.
 */
module TransferProgress {
  import opened Octets
  import opened Options
  import opened TransferRecords
  import opened TransferRuns

  // ---------------------------------------------------------------- what a review amounts to

  /** A record as it should be: of this kind, by this key, with these fields and a lifetime of at most an hour. */
  predicate Stands(c: Checks, w: Wire, f: Fields, kind: Text, key: Text, managed: bool) {
    && |w.payload| <= (if managed then 8192 else 4096) && |w.signature| == 64
    && c.decode(w.payload) == Some(f) && f.kind == kind
    && c.authentic(key, SigningInput(kind, w.payload), w.signature) && c.shaped(kind, managed, f)
    && SafeInteger(f.issuedAt) && SafeInteger(f.expiresAt) && f.issuedAt < f.expiresAt <= f.issuedAt + 3600
    && (!managed ==> f.issuedAt <= c.now + 300)
  }

  lemma VerifyExactly(c: Checks, w: Wire, f: Fields, kind: Text, key: Text, managed: bool)
    requires kind != RECEIPT
    ensures Verify(c, w, kind, key, managed) == Some(f) <==> Stands(c, w, f, kind, key, managed)
  {
    hide SigningInput;
  }

  lemma NoReceipts(managed: bool)
    ensures GrantKind(managed) != RECEIPT && ACKNOWLEDGEMENT != RECEIPT && OfferKind(managed) != RECEIPT
    ensures SelectionKind(managed) != RECEIPT && ReservationKind(managed) != RECEIPT && CANCELLATION != RECEIPT
  {
    assert |RECEIPT| == 34 && |CANCELLATION| == 26 && |ACKNOWLEDGEMENT| == 37;
    assert |GrantKind(true)| == 27 && |OfferKind(true)| == 27 && |SelectionKind(true)| == 39;
    assert |ReservationKind(true)| == 33 && |GrantKind(false)| == 19 && |OfferKind(false)| == 19;
    assert |SelectionKind(false)| == 31 && |ReservationKind(false)| == 25;
  }

  /** The owner grants the move from the one provider to the other. */
  predicate GrantStands(c: Checks, s: Transfer, domain: Text, grant: Fields) {
    && s.grant.Some? && Stands(c, s.grant.value, grant, GrantKind(s.managed), OwnerKey(s), s.managed)
    && grant.did == s.did
    && grant.sourceBase == Base(s.provider) && grant.destinationBase == Base(s.destination) && grant.destinationDomain == domain
    && (s.managed ==> grant.ownerRecoveryKey == s.ownerRecoveryKey && grant.sourceIdentityKey == s.sourceIdentityKey)
  }

  /** The source acknowledges the grant. */
  predicate AckStands(c: Checks, s: Transfer, grant: Fields, w: Wire, ack: Fields)
    requires s.grant.Some?
  {
    && Stands(c, w, ack, ACKNOWLEDGEMENT, ack.sourceMessagingKey, true)
    && ack.did == s.did && ack.nonce == grant.nonce
    && ack.sourceBase == grant.sourceBase && ack.destinationBase == grant.destinationBase
    && ack.grantDigest == c.digest(s.grant.value.payload)
  }

  /** The destination answers the grant. */
  predicate OfferStands(c: Checks, s: Transfer, grant: Fields, live: bool, w: Wire, offer: Fields)
    requires s.grant.Some?
  {
    && Stands(c, w, offer, OfferKind(s.managed), offer.messagingKey, s.managed)
    && offer.did == s.did && offer.nonce == grant.nonce
    && offer.sourceBase == grant.sourceBase && offer.destinationBase == grant.destinationBase
    && offer.grantDigest == c.digest(s.grant.value.payload)
    && (live ==> c.now < offer.expiresAt <= grant.expiresAt)
    && offer.rotationKey != offer.messagingKey
    && (s.managed ==>
          && s.acknowledgement.Some? && c.decode(s.acknowledgement.value.payload).Some?
          && AckStands(c, s, grant, s.acknowledgement.value, c.decode(s.acknowledgement.value.payload).value)
          && offer.acknowledgementDigest == c.digest(s.acknowledgement.value.payload)
          && offer.identityKey != offer.rotationKey && offer.identityKey != offer.messagingKey)
  }

  /** The owner chooses an address under grant and offer. */
  predicate SelectionStands(c: Checks, s: Transfer, grant: Fields, offer: Fields, w: Wire, selection: Fields)
    requires s.grant.Some? && s.offer.Some?
  {
    && Stands(c, w, selection, SelectionKind(s.managed), OwnerKey(s), s.managed)
    && selection.did == s.did && selection.nonce == grant.nonce && selection.transferId == offer.transferId
    && selection.grantDigest == c.digest(s.grant.value.payload) && selection.offerDigest == c.digest(s.offer.value.payload)
  }

  /** The destination reserves the very address. */
  predicate ReservationStands(c: Checks, s: Transfer, grant: Fields, offer: Fields, selection: Fields, w: Wire, reservation: Fields)
    requires s.offer.Some? && s.selection.Some?
  {
    && Stands(c, w, reservation, ReservationKind(s.managed), offer.messagingKey, s.managed)
    && reservation.did == s.did && reservation.nonce == grant.nonce && reservation.transferId == offer.transferId
    && reservation.address == selection.address
    && reservation.offerDigest == c.digest(s.offer.value.payload) && reservation.selectionDigest == c.digest(s.selection.value.payload)
    && (s.managed ==> reservation.rotationKey == offer.rotationKey && reservation.identityKey == offer.identityKey
                      && reservation.messagingKey == offer.messagingKey)
  }

  predicate ChainStands(c: Checks, s: Transfer, domain: Text, x: Chain) {
    && s.cancellation.None?
    && GrantStands(c, s, domain, x.grant)
    && s.offer.Some? && OfferStands(c, s, x.grant, s.managed, s.offer.value, x.offer)
    && s.selection.Some? && SelectionStands(c, s, x.grant, x.offer, s.selection.value, x.selection)
    && s.reservation.Some? && ReservationStands(c, s, x.grant, x.offer, x.selection, s.reservation.value, x.reservation)
    && (!s.managed ==> DomainOf(x.selection.address) == Some(domain))
  }

  lemma GrantExactly(c: Checks, s: Transfer, domain: Text, grant: Fields)
    ensures ReviewGrant(c, s, domain) == Some(grant) <==> GrantStands(c, s, domain, grant)
  {
    NoReceipts(s.managed);
    if s.grant.Some? {
      VerifyExactly(c, s.grant.value, grant, GrantKind(s.managed), OwnerKey(s), s.managed);
      VerifySome(c, s.grant.value, GrantKind(s.managed), OwnerKey(s), s.managed);
    }
    hide Verify, Stands, GrantKind;
  }

  /** A record that is verified stands with the fields it decodes to. */
  lemma VerifySome(c: Checks, w: Wire, kind: Text, key: Text, managed: bool)
    requires kind != RECEIPT
    ensures Verify(c, w, kind, key, managed).Some? ==> Stands(c, w, Verify(c, w, kind, key, managed).value, kind, key, managed)
    ensures forall f | Stands(c, w, f, kind, key, managed) :: Verify(c, w, kind, key, managed) == Some(f)
  {
    hide Verify;
    var r := Verify(c, w, kind, key, managed);
    if r.Some? {
      VerifyExactly(c, w, r.value, kind, key, managed);
    }
    forall f | Stands(c, w, f, kind, key, managed)
      ensures r == Some(f)
    {
      VerifyExactly(c, w, f, kind, key, managed);
    }
  }

  lemma AckExactly(c: Checks, s: Transfer, grant: Fields, w: Wire, ack: Fields)
    requires s.grant.Some?
    ensures ReviewAck(c, s, grant, w) == Some(ack) <==> AckStands(c, s, grant, w, ack)
  {
    NoReceipts(true);
    if c.decode(w.payload).Some? {
      VerifySome(c, w, ACKNOWLEDGEMENT, c.decode(w.payload).value.sourceMessagingKey, true);
    }
    StandsDecodes(c, w, ack, ACKNOWLEDGEMENT, ack.sourceMessagingKey, true);
    if ReviewAck(c, s, grant, w) == Some(ack) {
      VerifyDecodes(c, w, ACKNOWLEDGEMENT, c.decode(w.payload).value.sourceMessagingKey, true);
    }
    hide Verify, Stands;
  }

  lemma StandsDecodes(c: Checks, w: Wire, f: Fields, kind: Text, key: Text, managed: bool)
    ensures Stands(c, w, f, kind, key, managed) ==> c.decode(w.payload) == Some(f)
  {
  }

  lemma OfferExactly(c: Checks, s: Transfer, grant: Fields, live: bool, offer: Fields)
    requires s.grant.Some?
    ensures ReviewOffer(c, s, grant, live) == Some(offer) <==>
            s.offer.Some? && OfferStands(c, s, grant, live, s.offer.value, offer)
  {
    NoReceipts(s.managed);
    if s.offer.Some? {
      var w := s.offer.value;
      StandsDecodes(c, w, offer, OfferKind(s.managed), offer.messagingKey, s.managed);
      if c.decode(w.payload).Some? {
        VerifySome(c, w, OfferKind(s.managed), c.decode(w.payload).value.messagingKey, s.managed);
      }
      if ReviewOffer(c, s, grant, live) == Some(offer) {
        VerifyDecodes(c, w, OfferKind(s.managed), c.decode(w.payload).value.messagingKey, s.managed);
      }
      if s.managed && s.acknowledgement.Some? {
        AckDecodes(c, s, grant, s.acknowledgement.value);
      }
    }
    hide Verify, Stands, ReviewAck, AckStands, OfferKind;
  }

  lemma AckDecodes(c: Checks, s: Transfer, grant: Fields, w: Wire)
    requires s.grant.Some?
    ensures ReviewAck(c, s, grant, w).Some? <==> c.decode(w.payload).Some? && AckStands(c, s, grant, w, c.decode(w.payload).value)
    ensures ReviewAck(c, s, grant, w).Some? ==>
              ReviewAck(c, s, grant, w) == c.decode(w.payload) && ReviewAck(c, s, grant, w).value.grantDigest == c.digest(s.grant.value.payload)
  {
    var r := ReviewAck(c, s, grant, w);
    hide ReviewAck, Stands;
    if r.Some? {
      AckExactly(c, s, grant, w, r.value);
      StandsDecodes(c, w, r.value, ACKNOWLEDGEMENT, r.value.sourceMessagingKey, true);
    }
    if c.decode(w.payload).Some? {
      AckExactly(c, s, grant, w, c.decode(w.payload).value);
    }
  }

  lemma SelectionExactly(c: Checks, s: Transfer, w: Wire, f: Fields)
    ensures Verify(c, w, SelectionKind(s.managed), OwnerKey(s), s.managed) == Some(f) <==>
            Stands(c, w, f, SelectionKind(s.managed), OwnerKey(s), s.managed)
  {
    NoReceipts(s.managed);
    hide Verify, Stands;
    VerifyExactly(c, w, f, SelectionKind(s.managed), OwnerKey(s), s.managed);
  }

  lemma ReservationExactly(c: Checks, s: Transfer, key: Text, w: Wire, f: Fields)
    ensures Verify(c, w, ReservationKind(s.managed), key, s.managed) == Some(f) <==>
            Stands(c, w, f, ReservationKind(s.managed), key, s.managed)
  {
    NoReceipts(s.managed);
    hide Verify, Stands;
    VerifyExactly(c, w, f, ReservationKind(s.managed), key, s.managed);
  }

  /** A chain is retained if and only if its four records stand, each on the ones before it. */
  lemma RetainedExactly(c: Checks, s: Transfer, domain: Text, x: Chain)
    ensures Retained(c, s, domain) == Some(x) <==> ChainStands(c, s, domain, x)
  {
    GrantExactly(c, s, domain, x.grant);
    if s.grant.Some? {
      OfferExactly(c, s, x.grant, s.managed, x.offer);
      if s.selection.Some? {
        SelectionExactly(c, s, s.selection.value, x.selection);
      }
      if s.reservation.Some? {
        ReservationExactly(c, s, x.offer.messagingKey, s.reservation.value, x.reservation);
      }
    }
    if Retained(c, s, domain) == Some(x) {
      RetainedGrant(c, s, domain);
    }
    hide Verify, Stands, ReviewGrant, ReviewOffer, DomainOf, GrantKind, OfferKind, SelectionKind, ReservationKind;
  }

  lemma RetainedGrant(c: Checks, s: Transfer, domain: Text)
    requires Retained(c, s, domain).Some?
    ensures ReviewGrant(c, s, domain) == Some(Retained(c, s, domain).value.grant)
    ensures s.grant.Some? && ReviewOffer(c, s, Retained(c, s, domain).value.grant, s.managed) == Some(Retained(c, s, domain).value.offer)
  {
    hide Verify, ReviewOffer;
  }

  // ---------------------------------------------------------------- what is signed passes its review

  /** The vault has signed these fields as a record of this kind; their lifetime is their own affair. */
  predicate SignedAs(c: Checks, w: Wire, f: Fields, kind: Text, key: Text, managed: bool) {
    && |w.payload| <= (if managed then 8192 else 4096) && |w.signature| == 64
    && c.decode(w.payload) == Some(f)
    && c.authentic(key, SigningInput(kind, w.payload), w.signature) && c.shaped(kind, managed, f)
  }

  predicate SafeClock(now: int) { SafeInteger(now) && SafeInteger(now + 3600) }

  /** The account may offer a transfer to this destination. */
  predicate MayOffer(i: OfferInput) {
    var a := i.account;
    && a.mayWrite && a.migration.None? && a.managed == i.managed && a.identityKey.Some?
    && (i.managed ==> a.recoveryKey.Some?) && a.provider != i.destination && SafeClock(i.checks.now)
  }

  function Started(d: Disk, i: OfferInput): Transfer { if d.state.Some? then d.state.value else NewTransfer(i) }

  /** The grant to go on with: the retained one, or the one the vault signs now. */
  function GrantWire(s: Transfer, i: OfferInput): Option<Wire> {
    if s.grant.Some? then s.grant else i.vault(GrantFields(s, i))
  }

  /** Retained, the grant stands and has not lapsed; else the vault has signed it for the owner. */
  predicate GrantUsable(s: Transfer, i: OfferInput) {
    && GrantWire(s, i).Some?
    && if s.grant.Some? then
         ReviewGrant(i.checks, s, i.domain).Some? && ReviewGrant(i.checks, s, i.domain).value.expiresAt > i.checks.now
       else
         SignedAs(i.checks, GrantWire(s, i).value, GrantFields(s, i), GrantKind(i.managed),
                  if i.managed then s.ownerRecoveryKey else s.key, i.managed)
  }

  function GrantNonce(s: Transfer, i: OfferInput): Text
    requires s.grant.Some? ==> ReviewGrant(i.checks, s, i.domain).Some?
  {
    if s.grant.Some? then ReviewGrant(i.checks, s, i.domain).value.nonce else i.nonce
  }

  function GrantEnd(s: Transfer, i: OfferInput): int
    requires s.grant.Some? ==> ReviewGrant(i.checks, s, i.domain).Some?
  {
    if s.grant.Some? then ReviewGrant(i.checks, s, i.domain).value.expiresAt else i.checks.now + 3600
  }

  /** The record is of this account's move from its provider to the destination, under this very grant. */
  predicate UnderGrant(s: Transfer, i: OfferInput, f: Fields)
    requires GrantUsable(s, i)
  {
    && f.did == s.did && f.nonce == GrantNonce(s, i)
    && f.sourceBase == Base(s.provider) && f.destinationBase == Base(s.destination)
    && f.grantDigest == i.checks.digest(GrantWire(s, i).value.payload)
  }

  predicate GoodAck(s: Transfer, i: OfferInput, w: Wire, ack: Fields)
    requires GrantUsable(s, i)
  {
    Stands(i.checks, w, ack, ACKNOWLEDGEMENT, ack.sourceMessagingKey, true) && UnderGrant(s, i, ack)
  }

  predicate GoodOffer(s: Transfer, i: OfferInput, ack: Option<Wire>, w: Wire, offer: Fields)
    requires GrantUsable(s, i)
  {
    && Stands(i.checks, w, offer, OfferKind(i.managed), offer.messagingKey, i.managed) && UnderGrant(s, i, offer)
    && i.checks.now < offer.expiresAt <= GrantEnd(s, i) && offer.rotationKey != offer.messagingKey
    && (i.managed ==> ack.Some? && offer.acknowledgementDigest == i.checks.digest(ack.value.payload)
                      && offer.identityKey != offer.rotationKey && offer.identityKey != offer.messagingKey)
  }

  /** Everything is as it should be: account, state, vault, and the provider's answer. */
  predicate OfferGoesThrough(d: Disk, i: OfferInput) {
    var s, c := Started(d, i), i.checks;
    && MayOffer(i) && (d.state.Some? ==> Selected(s, i.account, i.managed) && s.destination == i.destination) && GrantUsable(s, i)
    && i.reply.Some? && i.reply.value.statusOk && i.reply.value.ready && i.reply.value.offer.Some?
    && (s.offer.Some? ==> s.offer == i.reply.value.offer)
    && (i.managed ==>
          && i.reply.value.acknowledgement.Some? && (s.acknowledgement.Some? ==> s.acknowledgement == i.reply.value.acknowledgement)
          && c.decode(i.reply.value.acknowledgement.value.payload).Some?
          && GoodAck(s, i, i.reply.value.acknowledgement.value, c.decode(i.reply.value.acknowledgement.value.payload).value))
    && c.decode(i.reply.value.offer.value.payload).Some?
    && GoodOffer(s, i, i.reply.value.acknowledgement, i.reply.value.offer.value, c.decode(i.reply.value.offer.value.payload).value)
  }

  /** Grant and offer are retained, for this account and this destination. */
  predicate Offered(e: Disk, d: Disk, i: OfferInput)
    requires i.reply.Some?
  {
    && e.files == d.files && e.state.Some?
    && var t := e.state.value;
       && t == Started(d, i).(grant := t.grant, acknowledgement := t.acknowledgement, offer := t.offer)
       && t.provider == i.account.provider && t.did == i.account.did && t.destination == i.destination && t.managed == i.managed
       && t.grant == GrantWire(Started(d, i), i) && t.grant.Some? && t.offer == i.reply.value.offer
       && t.acknowledgement == (if i.managed then i.reply.value.acknowledgement else Started(d, i).acknowledgement)
       && ReviewGrant(i.checks, t, i.domain).Some?
       && ReviewOffer(i.checks, t, ReviewGrant(i.checks, t, i.domain).value, true).Some?
  }

  lemma SignedGrantStands(s: Transfer, i: OfferInput)
    requires s.grant.None? && s.managed == i.managed && s.destination == i.destination
    requires GrantUsable(s, i) && SafeClock(i.checks.now)
    ensures GrantStands(i.checks, s.(grant := GrantWire(s, i)), i.domain, GrantFields(s, i))
    ensures GrantFields(s, i).nonce == i.nonce && GrantFields(s, i).expiresAt == i.checks.now + 3600
  {
    hide SigningInput, ReviewGrant;
  }

  /** The grant that an offer goes on with stands, and is what the answer is held against. */
  lemma GrantGoesOn(s: Transfer, i: OfferInput)
    requires Selected(s, i.account, i.managed) && s.destination == i.destination && GrantUsable(s, i) && SafeClock(i.checks.now)
    ensures var t := s.(grant := GrantWire(s, i));
            var r := ReviewGrant(i.checks, t, i.domain);
            && r.Some? && r.value.did == s.did && r.value.nonce == GrantNonce(s, i) && r.value.expiresAt == GrantEnd(s, i)
            && r.value.sourceBase == Base(s.provider) && r.value.destinationBase == Base(s.destination) && r.value.expiresAt > i.checks.now
  {
    var t := s.(grant := GrantWire(s, i));
    hide Selected, GrantFields, SigningInput;
    if s.grant.None? {
      ManagedAgrees(s, i);
      SignedGrantStands(s, i);
      GrantExactly(i.checks, t, i.domain, GrantFields(s, i));
    } else {
      assert t == s;
      GrantExactly(i.checks, t, i.domain, ReviewGrant(i.checks, s, i.domain).value);
    }
    hide ReviewGrant, Stands, SignedAs;
  }

  lemma ManagedAgrees(s: Transfer, i: OfferInput)
    requires Selected(s, i.account, i.managed)
    ensures s.managed == i.managed
  {
  }

  /** The review of a grant looks at nothing behind it. */
  lemma SameGrantReview(c: Checks, s: Transfer, ack: Option<Wire>, offer: Option<Wire>, domain: Text)
    ensures ReviewGrant(c, s.(acknowledgement := ack, offer := offer), domain) == ReviewGrant(c, s, domain)
  {
    hide Verify;
  }

  lemma GoodAckStands(s: Transfer, t: Transfer, i: OfferInput, grant: Fields, w: Wire, ack: Fields)
    requires GrantUsable(s, i) && GoodAck(s, i, w, ack) && t.grant == GrantWire(s, i) && t.did == s.did
    requires grant.nonce == GrantNonce(s, i) && grant.sourceBase == Base(s.provider) && grant.destinationBase == Base(s.destination)
    ensures AckStands(i.checks, t, grant, w, ack)
  {
    hide Stands, ReviewGrant, SignedAs, GrantFields;
  }

  lemma GoodOfferStands(s: Transfer, t: Transfer, i: OfferInput, grant: Fields, w: Wire, offer: Fields)
    requires GrantUsable(s, i) && GoodOffer(s, i, t.acknowledgement, w, offer) && t.grant == GrantWire(s, i) && t.did == s.did && t.managed == i.managed
    requires grant.nonce == GrantNonce(s, i) && grant.sourceBase == Base(s.provider) && grant.destinationBase == Base(s.destination)
    requires grant.expiresAt == GrantEnd(s, i)
    requires i.managed ==> t.acknowledgement.Some? && i.checks.decode(t.acknowledgement.value.payload).Some?
                           && AckStands(i.checks, t, grant, t.acknowledgement.value, i.checks.decode(t.acknowledgement.value.payload).value)
    ensures OfferStands(i.checks, t, grant, true, w, offer)
  {
    hide Stands, ReviewGrant, SignedAs, GrantFields, AckStands;
  }

  /** With everything as it should be, offer ends with grant and offer retained. */
  lemma OfferSucceeds(d: Disk, i: OfferInput)
    requires OfferGoesThrough(d, i)
    ensures Offer(d, i) != [] && Offered(Offer(d, i)[|Offer(d, i)| - 1], d, i)
  {
    hide Stands, SignedAs, GrantFields, ReviewGrant, ReviewOffer, ReviewAck, GoodAck, GoodOffer, OfferBehindGrant;
    var s := Started(d, i);
    NewIsSelected(i);
    var t := s.(grant := GrantWire(s, i));
    ManagedAgrees(s, i);
    GrantGoesOn(s, i);
    AnswerRetained(d, i, s, t);
    AccountIsStarted(d, i);
    hide Selected, NewTransfer, GrantUsable;
  }

  /** A transfer that starts now is the account's own, with its keys. */
  lemma NewIsSelected(i: OfferInput)
    requires MayOffer(i)
    ensures Selected(NewTransfer(i), i.account, i.managed) && NewTransfer(i).destination == i.destination
  {
  }

  lemma AccountIsStarted(d: Disk, i: OfferInput)
    requires Selected(Started(d, i), i.account, i.managed)
    ensures var s := Started(d, i); s.provider == i.account.provider && s.did == i.account.did && s.managed == i.managed
  {
  }

  lemma AnswerRetained(d: Disk, i: OfferInput, s: Transfer, t: Transfer)
    requires OfferGoesThrough(d, i) && s == Started(d, i) && t == s.(grant := GrantWire(s, i)) && s.managed == i.managed
    requires var r := ReviewGrant(i.checks, t, i.domain);
             && r.Some? && r.value.did == s.did && r.value.nonce == GrantNonce(s, i) && r.value.expiresAt == GrantEnd(s, i)
             && r.value.sourceBase == Base(s.provider) && r.value.destinationBase == Base(s.destination) && r.value.expiresAt > i.checks.now
    ensures t.grant.Some? && OfferBehindGrant(d, i, t) != []
    ensures var u := t.(acknowledgement := if i.managed then i.reply.value.acknowledgement else t.acknowledgement, offer := i.reply.value.offer);
            && OfferBehindGrant(d, i, t)[|OfferBehindGrant(d, i, t)| - 1] == d.(state := Some(u))
            && ReviewGrant(i.checks, u, i.domain) == ReviewGrant(i.checks, t, i.domain)
            && ReviewOffer(i.checks, u, ReviewGrant(i.checks, t, i.domain).value, true).Some?
  {
    hide Stands, SignedAs, GrantFields, ReviewGrant, ReviewOffer, ReviewAck, GoodAck, GoodOffer, Selected, NewTransfer, GrantNonce, GrantEnd,
      AckStands, OfferStands;
    var c, reply, grant := i.checks, i.reply.value, ReviewGrant(i.checks, t, i.domain).value;
    var t1 := t.(acknowledgement := if i.managed then reply.acknowledgement else t.acknowledgement);
    var u := t1.(offer := reply.offer);
    var offer := c.decode(reply.offer.value.payload).value;
    if i.managed {
      var w := reply.acknowledgement.value;
      GoodAckStands(s, t, i, grant, w, c.decode(w.payload).value);
      AckExactly(c, t, grant, w, c.decode(w.payload).value);
      GoodAckStands(s, u, i, grant, w, c.decode(w.payload).value);
      GoodOfferStands(s, u, i, grant, reply.offer.value, offer);
    } else {
      OwnerOfferStands(s, u, i, grant, reply.offer.value, offer, reply.acknowledgement);
    }
    OfferExactly(c, u, grant, true, offer);
    SameGrantReview(c, t, u.acknowledgement, u.offer, i.domain);
  }

  lemma OwnerOfferStands(s: Transfer, t: Transfer, i: OfferInput, grant: Fields, w: Wire, offer: Fields, ack: Option<Wire>)
    requires GrantUsable(s, i) && GoodOffer(s, i, ack, w, offer) && t.grant == GrantWire(s, i) && t.did == s.did
    requires !i.managed && !t.managed
    requires grant.nonce == GrantNonce(s, i) && grant.sourceBase == Base(s.provider) && grant.destinationBase == Base(s.destination)
    requires grant.expiresAt == GrantEnd(s, i)
    ensures OfferStands(i.checks, t, grant, true, w, offer)
  {
    hide Stands, ReviewGrant, SignedAs, GrantFields;
  }

  // ---------------------------------------------------------------- select

  /** The selection to go on with: the retained one, or the one the vault signs now. */
  function SelectionWire(s: Transfer, i: SelectInput, grant: Fields, offer: Fields): Option<Wire>
    requires s.grant.Some? && s.offer.Some?
  {
    if s.selection.Some? then s.selection else i.vault(SelectionFields(s, i, grant, offer))
  }

  predicate SelectionUsable(s: Transfer, i: SelectInput, grant: Fields, offer: Fields)
    requires s.grant.Some? && s.offer.Some?
  {
    var w := SelectionWire(s, i, grant, offer);
    && w.Some?
    && if s.selection.Some? then
         && i.checks.decode(w.value.payload).Some?
         && var f := i.checks.decode(w.value.payload).value;
            && SelectionStands(i.checks, s, grant, offer, w.value, f)
            && f.address == i.username + "@" + i.domain && i.checks.now < f.expiresAt <= offer.expiresAt
       else
         SignedAs(i.checks, w.value, SelectionFields(s, i, grant, offer), SelectionKind(i.managed), OwnerKey(s), i.managed)
  }

  /** When a selection lapses that is made now. */
  function SelectionEnd(s: Transfer, i: SelectInput, grant: Fields, offer: Fields): int {
    if s.selection.Some? && i.checks.decode(s.selection.value.payload).Some? then i.checks.decode(s.selection.value.payload).value.expiresAt
    else if offer.expiresAt < i.checks.now + 1800 then offer.expiresAt else i.checks.now + 1800
  }

  predicate GoodReceipt(s: Transfer, i: SelectInput, grant: Fields, offer: Fields, selection: Wire, w: Wire, r: Fields)
    requires s.offer.Some?
  {
    && Stands(i.checks, w, r, ReservationKind(i.managed), offer.messagingKey, i.managed)
    && r.did == s.did && r.nonce == grant.nonce && r.transferId == offer.transferId && r.address == i.username + "@" + i.domain
    && r.offerDigest == i.checks.digest(s.offer.value.payload) && r.selectionDigest == i.checks.digest(selection.payload)
    && i.checks.now < r.expiresAt <= SelectionEnd(s, i, grant, offer)
    && (i.managed ==> r.rotationKey == offer.rotationKey && r.identityKey == offer.identityKey && r.messagingKey == offer.messagingKey)
  }

  predicate SelectGoesThrough(d: Disk, i: SelectInput, grant: Fields, offer: Fields) {
    && CanonicalUsername(i.username) && '@' !in i.domain && SafeClock(i.checks.now)
    && d.state.Some?
    && var s := d.state.value;
       && Selected(s, i.account, i.managed) && (i.account.migration.Some? ==> s.selection.Some?) && s.cancellation.None?
       && GrantStands(i.checks, s, i.domain, grant) && s.offer.Some? && OfferStands(i.checks, s, grant, true, s.offer.value, offer)
       && i.statusMatches && SelectionUsable(s, i, grant, offer)
       && i.receipt.Some? && i.checks.decode(i.receipt.value.payload).Some? && (s.reservation.Some? ==> s.reservation == i.receipt)
       && GoodReceipt(s, i, grant, offer, SelectionWire(s, i, grant, offer).value, i.receipt.value, i.checks.decode(i.receipt.value.payload).value)
  }

  /** Selection and reservation are retained, and with them a chain that stands for this very address. */
  predicate Reserved(e: Disk, d: Disk, i: SelectInput, grant: Fields, offer: Fields) {
    && e.files == d.files && e.state.Some? && d.state.Some?
    && e.state.value == d.state.value.(selection := e.state.value.selection, reservation := i.receipt)
    && d.state.value.grant.Some? && d.state.value.offer.Some?
    && e.state.value.selection.Some? && e.state.value.selection == SelectionWire(d.state.value, i, grant, offer)
    && var chain := Retained(i.checks, e.state.value, i.domain);
       chain.Some? && chain.value.grant == grant && chain.value.offer == offer
       && chain.value.selection.address == chain.value.reservation.address == i.username + "@" + i.domain
  }

  lemma SignedSelectionStands(s: Transfer, i: SelectInput, grant: Fields, offer: Fields)
    requires s.grant.Some? && s.offer.Some? && s.selection.None? && s.managed == i.managed && SafeClock(i.checks.now)
    requires GrantStands(i.checks, s, i.domain, grant) && OfferStands(i.checks, s, grant, true, s.offer.value, offer)
    requires SelectionUsable(s, i, grant, offer)
    ensures var f := SelectionFields(s, i, grant, offer);
            && SelectionStands(i.checks, s, grant, offer, SelectionWire(s, i, grant, offer).value, f)
            && f.address == i.username + "@" + i.domain && i.checks.now < f.expiresAt <= offer.expiresAt
            && f.expiresAt == SelectionEnd(s, i, grant, offer)
  {
    hide SigningInput, AckStands;
  }

  lemma SelectionGoesOn(s: Transfer, i: SelectInput, grant: Fields, offer: Fields) returns (f: Fields)
    requires s.grant.Some? && s.offer.Some? && s.managed == i.managed && SafeClock(i.checks.now)
    requires GrantStands(i.checks, s, i.domain, grant) && OfferStands(i.checks, s, grant, true, s.offer.value, offer)
    requires SelectionUsable(s, i, grant, offer)
    ensures SelectionStands(i.checks, s, grant, offer, SelectionWire(s, i, grant, offer).value, f)
    ensures f.address == i.username + "@" + i.domain && i.checks.now < f.expiresAt <= offer.expiresAt
    ensures f.expiresAt == SelectionEnd(s, i, grant, offer)
  {
    hide GrantStands, OfferStands, SelectionFields, Stands, SignedAs, SelectionStands;
    if s.selection.None? {
      SignedSelectionStands(s, i, grant, offer);
      f := SelectionFields(s, i, grant, offer);
    } else {
      f := i.checks.decode(s.selection.value.payload).value;
    }
  }

  lemma {:induction false} BehindUsername(name: Text, domain: Text)
    requires '@' !in name
    ensures Behind(name + "@" + domain) == Some(domain)
    decreases |name|
  {
    var s := name + "@" + domain;
    if name == "" {
      assert s[1..] == domain;
    } else {
      assert s[1..] == name[1..] + "@" + domain;
      BehindUsername(name[1..], domain);
    }
  }

  lemma {:induction false} BeforeNothing(domain: Text)
    requires '@' !in domain
    ensures Before(domain) == domain
    decreases |domain|
  {
    if domain != "" {
      BeforeNothing(domain[1..]);
    }
  }

  lemma AddressIsOfDomain(i: SelectInput)
    requires CanonicalUsername(i.username) && '@' !in i.domain
    ensures DomainOf(i.username + "@" + i.domain) == Some(i.domain)
  {
    BehindUsername(i.username, i.domain);
    BeforeNothing(i.domain);
  }

  /** With everything as it should be, select ends with a chain that export and signing take. */
  lemma SelectSucceeds(d: Disk, i: SelectInput, grant: Fields, offer: Fields)
    requires SelectGoesThrough(d, i, grant, offer)
    ensures Select(d, i) != [] && Reserved(Select(d, i)[|Select(d, i)| - 1], d, i, grant, offer)
  {
    hide GrantStands, OfferStands, SelectionStands, ReservationStands, Stands, SignedAs, SelectionFields, ReviewGrant, ReviewOffer, Reserve, Retained,
      DomainOf, CanonicalUsername, SelectionUsable, GoodReceipt, ChainStands;
    var s := d.state.value;
    GrantIsThere(i.checks, s, i.domain, grant);
    GrantExactly(i.checks, s, i.domain, grant);
    OfferExactly(i.checks, s, grant, true, offer);
    assert s.managed == i.managed;
    hide Selected;
    ReserveSucceeds(d, i, s, grant, offer);
  }

  lemma GrantIsThere(c: Checks, s: Transfer, domain: Text, grant: Fields)
    requires GrantStands(c, s, domain, grant)
    ensures s.grant.Some? && grant.destinationDomain == domain
  {
  }

  lemma ReserveSucceeds(d: Disk, i: SelectInput, s: Transfer, grant: Fields, offer: Fields)
    requires SelectGoesThrough(d, i, grant, offer) && d.state == Some(s) && s.grant.Some? && s.managed == i.managed
    ensures var t := s.(selection := SelectionWire(s, i, grant, offer));
            var u := t.(reservation := i.receipt);
            && t.selection.Some? && Reserve(d, i, t, grant, offer) == [d.(state := Some(u))] && Reserved(d.(state := Some(u)), d, i, grant, offer)
  {
    hide Stands, SignedAs, SelectionFields, SelectionUsable, ReviewSelection, ReviewReservation, Retained, Selected, DomainOf, CanonicalUsername,
      GrantStands, OfferStands, SelectionStands, ReservationStands, GoodReceipt, ChainStands;
    var f := SelectionGoesOn(s, i, grant, offer);
    SelectionPresent(s, i, grant, offer);
    var t := s.(selection := SelectionWire(s, i, grant, offer));
    var r := i.checks.decode(i.receipt.value.payload).value;
    SelectionPasses(s, i, grant, offer, f);
    ReservationPasses(s, i, grant, offer, f, r);
    var u := t.(reservation := i.receipt);
    AddressIsOfDomain(i);
    ChainStandsNow(s, u, i, grant, offer, f, r);
    RetainedExactly(i.checks, u, i.domain, Chain(grant, offer, f, r));
  }

  lemma SelectionPresent(s: Transfer, i: SelectInput, grant: Fields, offer: Fields)
    requires s.grant.Some? && s.offer.Some? && SelectionUsable(s, i, grant, offer)
    ensures SelectionWire(s, i, grant, offer).Some?
  {
    hide SelectionFields, SelectionStands, SignedAs;
  }

  lemma SelectionPasses(s: Transfer, i: SelectInput, grant: Fields, offer: Fields, f: Fields)
    requires s.grant.Some? && s.offer.Some? && s.managed == i.managed && SelectionWire(s, i, grant, offer).Some?
    requires SelectionStands(i.checks, s, grant, offer, SelectionWire(s, i, grant, offer).value, f)
    requires grant.destinationDomain == i.domain || GrantStands(i.checks, s, i.domain, grant)
    requires f.address == i.username + "@" + i.domain && i.checks.now < f.expiresAt <= offer.expiresAt
    ensures ReviewSelection(s.(selection := SelectionWire(s, i, grant, offer)), i, grant, offer) == Some(f)
  {
    var w := SelectionWire(s, i, grant, offer).value;
    SelectionExactly(i.checks, s, w, f);
    hide Stands, Verify, SelectionFields, SelectionKind;
  }

  lemma ReservationPasses(s: Transfer, i: SelectInput, grant: Fields, offer: Fields, f: Fields, r: Fields)
    requires s.grant.Some? && s.offer.Some? && s.managed == i.managed && SelectionWire(s, i, grant, offer).Some? && i.receipt.Some?
    requires GoodReceipt(s, i, grant, offer, SelectionWire(s, i, grant, offer).value, i.receipt.value, r)
    requires GrantStands(i.checks, s, i.domain, grant)
    requires SelectionStands(i.checks, s, grant, offer, SelectionWire(s, i, grant, offer).value, f)
    requires f.address == i.username + "@" + i.domain && f.expiresAt == SelectionEnd(s, i, grant, offer)
    ensures ReviewReservation(s.(selection := SelectionWire(s, i, grant, offer)), i, grant, offer, f) == Some(r)
  {
    ReservationExactly(i.checks, s, offer.messagingKey, i.receipt.value, r);
    hide Stands, Verify, SelectionFields, ReservationKind, SelectionEnd, SelectionWire;
  }

  lemma ChainStandsNow(s: Transfer, u: Transfer, i: SelectInput, grant: Fields, offer: Fields, f: Fields, r: Fields)
    requires s.grant.Some? && s.offer.Some? && s.managed == i.managed && s.cancellation.None? && SelectionWire(s, i, grant, offer).Some? && i.receipt.Some?
    requires u == s.(selection := SelectionWire(s, i, grant, offer), reservation := i.receipt)
    requires GrantStands(i.checks, s, i.domain, grant) && OfferStands(i.checks, s, grant, true, s.offer.value, offer)
    requires SelectionStands(i.checks, s, grant, offer, u.selection.value, f) && f.address == i.username + "@" + i.domain
    requires GoodReceipt(s, i, grant, offer, u.selection.value, i.receipt.value, r)
    requires DomainOf(f.address) == Some(i.domain)
    ensures ChainStands(i.checks, u, i.domain, Chain(grant, offer, f, r)) && r.address == f.address
  {
    hide Stands, SelectionFields, DomainOf, SelectionEnd, SelectionWire;
  }

  // ---------------------------------------------------------------- cancel

  function CancellationWire(s: Transfer, i: CancelInput, grant: Fields): Option<Wire>
    requires s.grant.Some?
  {
    if s.cancellation.Some? then s.cancellation else i.vault(CancellationFields(s, i, grant))
  }

  /** Retained, the cancellation stands and has not lapsed; else the vault has signed it for the owner. */
  predicate CancellationUsable(s: Transfer, i: CancelInput, grant: Fields)
    requires s.grant.Some?
  {
    var w := CancellationWire(s, i, grant);
    && w.Some?
    && if s.cancellation.Some? then
         && i.checks.decode(w.value.payload).Some?
         && var f := i.checks.decode(w.value.payload).value;
            && Stands(i.checks, w.value, f, CANCELLATION, s.key, false) && f.expiresAt > i.checks.now
            && f.did == s.did && f.nonce == grant.nonce && f.grantDigest == i.checks.digest(s.grant.value.payload)
       else
         SignedAs(i.checks, w.value, CancellationFields(s, i, grant), CANCELLATION, s.key, false)
  }

  /** The source's receipt, which may live for a week. */
  predicate GoodCancellationReceipt(s: Transfer, i: CancelInput, grant: Fields, w: Wire, key: Text, v: Fields)
    requires s.grant.Some?
  {
    && SignedAs(i.checks, w, v, RECEIPT, key, false) && v.kind == RECEIPT
    && SafeInteger(v.issuedAt) && SafeInteger(v.expiresAt) && v.issuedAt < v.expiresAt <= v.issuedAt + 604800
    && v.issuedAt <= i.checks.now + 300 && i.checks.now < v.expiresAt
    && v.did == s.did && v.nonce == grant.nonce && v.grantDigest == i.checks.digest(s.grant.value.payload)
    && v.sourceBase == Base(s.provider) && v.destinationDomain == i.domain
    && (s.offer.Some? ==>
          i.checks.decode(s.offer.value.payload).Some? && i.checks.decode(s.offer.value.payload).value.invitationDigest == v.invitationDigest)
  }

  predicate CancelGoesThrough(d: Disk, i: CancelInput, grant: Fields, v: Fields) {
    && SafeClock(i.checks.now) && d.state.Some?
    && var s := d.state.value;
       && Selected(s.(cancellation := None), i.account, false) && i.account.migration.None?
       && GrantStands(i.checks, s, i.domain, grant) && CancellationUsable(s, i, grant)
       && s.receipt.None? && i.reply.Some?
       && GoodCancellationReceipt(s, i, grant, i.reply.value.receipt, i.reply.value.messagingKey, v)
  }

  /** With everything as it should be, cancel ends with cancellation and receipt retained, and says whether the target knows. */
  lemma CancelSucceeds(d: Disk, i: CancelInput, grant: Fields, v: Fields)
    requires CancelGoesThrough(d, i, grant, v)
    ensures Cancel(d, i) != []
    ensures var s, e := d.state.value, Cancel(d, i)[|Cancel(d, i)| - 1];
            e == d.(state := Some(s.(cancellation := CancellationWire(s, i, grant), receipt := Some(i.reply.value.receipt),
                                     sourceMessagingKey := Some(i.reply.value.messagingKey),
                                     targetAcknowledged := s.targetAcknowledged || i.targetAnswers)))
  {
    hide Stands, SignedAs, CancellationFields, ReviewGrant, CancelSubmit, CancellationUsable, GoodCancellationReceipt, GrantStands;
    var s := d.state.value;
    GrantExactly(i.checks, s, i.domain, grant);
    GrantIsThere(i.checks, s, i.domain, grant);
    assert !s.managed;
    hide Selected;
    CancellationPresent(s, i, grant);
    SubmissionSucceeds(d, i, s, grant, v);
  }

  predicate CancelEnds(e: Disk, i: CancelInput) {
    && e.state.Some? && e.state.value.cancellation.Some? && i.reply.Some? && e.state.value.receipt == Some(i.reply.value.receipt)
    && (i.targetAnswers ==> e.state.value.targetAcknowledged)
  }

  lemma CancelEndsWell(d: Disk, i: CancelInput, grant: Fields, v: Fields)
    requires CancelGoesThrough(d, i, grant, v)
    ensures Cancel(d, i) != [] && CancelEnds(Cancel(d, i)[|Cancel(d, i)| - 1], i)
  {
    CancelSucceeds(d, i, grant, v);
    hide Cancel, Selected, GrantStands, GoodCancellationReceipt;
  }

  lemma CancellationPresent(s: Transfer, i: CancelInput, grant: Fields)
    requires s.grant.Some? && CancellationUsable(s, i, grant)
    ensures CancellationWire(s, i, grant).Some?
  {
    hide CancellationFields, Stands, SignedAs;
  }

  lemma CancellationPasses(s: Transfer, i: CancelInput, grant: Fields) returns (f: Fields)
    requires s.grant.Some? && CancellationUsable(s, i, grant) && SafeClock(i.checks.now)
    ensures CancellationWire(s, i, grant).Some?
    ensures Verify(i.checks, CancellationWire(s, i, grant).value, CANCELLATION, s.key, false) == Some(f)
    ensures f.did == s.did && f.nonce == grant.nonce && f.grantDigest == i.checks.digest(s.grant.value.payload) && f.expiresAt > i.checks.now
  {
    NoReceipts(false);
    var w := CancellationWire(s, i, grant).value;
    f := if s.cancellation.Some? then i.checks.decode(w.payload).value else CancellationFields(s, i, grant);
    assert Stands(i.checks, w, f, CANCELLATION, s.key, false) by { hide SigningInput; }
    VerifyExactly(i.checks, w, f, CANCELLATION, s.key, false);
    hide Stands, Verify;
  }

  lemma ReceiptPasses(s: Transfer, i: CancelInput, grant: Fields, w: Wire, key: Text, v: Fields)
    requires s.grant.Some? && GoodCancellationReceipt(s, i, grant, w, key, v)
    ensures Verify(i.checks, w, RECEIPT, key, false) == Some(v)
  {
    hide SigningInput;
  }

  lemma SubmissionSucceeds(d: Disk, i: CancelInput, s: Transfer, grant: Fields, v: Fields)
    requires CancelGoesThrough(d, i, grant, v) && d.state == Some(s) && s.grant.Some? && CancellationWire(s, i, grant).Some?
    ensures var t := s.(cancellation := CancellationWire(s, i, grant));
            var u := t.(receipt := Some(i.reply.value.receipt), sourceMessagingKey := Some(i.reply.value.messagingKey));
            && CancelSubmit(d, i, t, grant) != []
            && CancelSubmit(d, i, t, grant)[|CancelSubmit(d, i, t, grant)| - 1] ==
               d.(state := Some(u.(targetAcknowledged := s.targetAcknowledged || i.targetAnswers)))
  {
    var f := CancellationPasses(s, i, grant);
    ReceiptPasses(s, i, grant, i.reply.value.receipt, i.reply.value.messagingKey, v);
    hide Verify, SignedAs, CancellationFields, CancellationUsable, CancellationWire, GrantStands, Selected;
  }

  // ---------------------------------------------------------------- one transfer

  function Spelled(p: seq<Octet>): Text { seq(|p|, i requires 0 <= i < |p| => p[i] as char) }

  function Record(n: Octet): Wire { Wire([n], seq(64, i => 0)) }

  /** Four records, known by one octet each. */
  function RecordDecode(p: seq<Octet>): Option<Fields> {
    var blank := NO_FIELDS.(did := "d", nonce := "n", expiresAt := 1800);
    if p == [1] then Some(blank.(kind := GrantKind(false), sourceBase := Base("a"), destinationBase := Base("b"), destinationDomain := "b",
                                 expiresAt := 3600))
    else if p == [2] then Some(blank.(kind := OfferKind(false), sourceBase := Base("a"), destinationBase := Base("b"), transferId := "t",
                                      grantDigest := Spelled([1]), rotationKey := "r", messagingKey := "m"))
    else if p == [3] then Some(blank.(kind := SelectionKind(false), transferId := "t", address := "x@b",
                                      grantDigest := Spelled([1]), offerDigest := Spelled([2])))
    else if p == [4] then Some(blank.(kind := ReservationKind(false), transferId := "t", address := "x@b",
                                      offerDigest := Spelled([2]), selectionDigest := Spelled([3])))
    else None
  }

  function ChecksAt(now: int): Checks {
    Checks(now, RecordDecode, Spelled, (key, input, signature) => true, (kind, managed, f) => true)
  }

  const OWNER := Account("a", "i", "d", false, true, None, Some("k"), None)

  const EMPTY := Disk(None, map[])

  const FIRST_OFFER :=
    OfferInput(false, OWNER, "b", "b", "n", ChecksAt(0), (f: Fields) => Some(Record(1)), Some(OfferReply(true, None, Some(Record(2)), true)))

  const OFFERED := Disk(
    Some(Transfer(false, "a", "i", "d", "b", "k", "", "", Some(Record(1)), None, Some(Record(2)), None, None,
                  None, None, None, false, None, None, false)),
    map[])

  const FIRST_SELECTION :=
    SelectInput(false, OWNER, "b", "x", ChecksAt(0), (f: Fields) => Some(Record(3)), true, Some(Record(4)))

  /** The conditions can be met: this offer goes through from nothing, and this selection behind it. */
  lemma FirstOfferGoesThrough()
    ensures OfferGoesThrough(EMPTY, FIRST_OFFER)
  {
    assert Base("a") == "a/hail" && Base("b") == "b/hail";
    hide SigningInput;
  }

  lemma FirstSelectionGoesThrough()
    ensures SelectGoesThrough(OFFERED, FIRST_SELECTION, RecordDecode([1]).value, RecordDecode([2]).value)
  {
    assert Base("a") == "a/hail" && Base("b") == "b/hail";
    assert "x" + "@" + "b" == "x@b";
    hide SigningInput;
  }
}
