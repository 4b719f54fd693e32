/**
 * What the transfer commands need before they write: every record that one of them retains rests on
 * records that stand, on the account it belongs to, and on an answer that fits them.
 */
module TransferWarrants {
  import opened Options
  import opened TransferRecords
  import opened TransferRuns
  import opened TransferProgress

  /** The state is that of the very account, which may write and has the keys the state names. */
  predicate Own(s: Transfer, a: Account, managed: bool) {
    && s.managed == managed && a.managed == managed && a.mayWrite
    && s.provider == a.provider && s.accountId == a.accountId && s.did == a.did
    && (managed ==> s.ownerRecoveryKey == KeyOrNull(a.recoveryKey) && s.sourceIdentityKey == KeyOrNull(a.identityKey))
    && (!managed ==> s.key == KeyOrNull(a.identityKey))
  }

  lemma SelectedIsOwn(s: Transfer, a: Account, managed: bool)
    ensures Selected(s, a, managed) <==> Own(s, a, managed) && (!managed ==> s.cancellation.None?)
  {
  }

  // ---------------------------------------------------------------- offer

  /** A live grant and a live offer under it. */
  ghost predicate OfferRests(c: Checks, s: Transfer, domain: Text) {
    exists grant, offer ::
      && GrantStands(c, s, domain, grant) && s.offer.Some? && OfferStands(c, s, grant, true, s.offer.value, offer)
      && c.now < grant.expiresAt
  }

  /** A live grant, and its acknowledgement by the source. */
  ghost predicate AckRests(c: Checks, s: Transfer, domain: Text) {
    exists grant, ack ::
      && GrantStands(c, s, domain, grant) && s.acknowledgement.Some? && AckStands(c, s, grant, s.acknowledgement.value, ack)
      && c.now < grant.expiresAt
  }

  /** What may differ between the state that offer starts from and one that it writes. */
  ghost predicate OfferWarranted(s: Transfer, i: OfferInput, t: Transfer) {
    && t == s.(grant := t.grant, acknowledgement := t.acknowledgement, offer := t.offer)
    && (t != s ==> Own(s, i.account, i.managed) && s.destination == i.destination)
    && (t.acknowledgement != s.acknowledgement ==>
          i.managed && i.reply.Some? && i.reply.value.statusOk && t.acknowledgement == i.reply.value.acknowledgement
          && AckRests(i.checks, t, i.domain))
    && (t.offer != s.offer ==>
          i.reply.Some? && i.reply.value.statusOk && i.reply.value.ready && t.offer == i.reply.value.offer
          && OfferRests(i.checks, t, i.domain))
  }

  /** Offer writes only for an account that is not migrating and may move, and only what it has warrant for. */
  lemma OfferIsWarranted(d: Disk, i: OfferInput, e: Disk)
    requires e in Offer(d, i)
    ensures var a := i.account;
            && a.mayWrite && a.migration.None? && a.managed == i.managed && a.identityKey.Some?
            && (i.managed ==> a.recoveryKey.Some?) && a.provider != i.destination
    ensures e.files == d.files && e.state.Some? && OfferWarranted(Started(d, i), i, e.state.value)
  {
    hide OfferWarranted, OfferOn, NewTransfer;
    var s := Started(d, i);
    if e in OfferOn(d, i, s) {
      GrantIsWarranted(d, i, s, e);
    } else {
      StartIsWarranted(s, i);
    }
  }

  lemma StartIsWarranted(s: Transfer, i: OfferInput)
    ensures OfferWarranted(s, i, s)
  {
  }

  lemma GrantIsWarranted(d: Disk, i: OfferInput, s: Transfer, e: Disk)
    requires e in OfferOn(d, i, s)
    ensures e.files == d.files && e.state.Some? && OfferWarranted(s, i, e.state.value)
  {
    hide OfferBehindGrant, GrantFields, Selected, OfferRests, AckRests;
    var signed := if s.grant.Some? then s.grant else i.vault(GrantFields(s, i));
    var t := s.(grant := signed);
    SelectedIsOwn(s, i.account, i.managed);
    SelectedIsOwn(t, i.account, i.managed);
    if e in OfferBehindGrant(d, i, t) {
      AnswerIsWarranted(d, i, t, e);
    }
  }

  lemma AnswerIsWarranted(d: Disk, i: OfferInput, s: Transfer, e: Disk)
    requires Selected(s, i.account, i.managed) && s.destination == i.destination && s.grant.Some? && e in OfferBehindGrant(d, i, s)
    ensures e.files == d.files && e.state.Some? && OfferWarranted(s, i, e.state.value)
  {
    hide ReviewGrant, ReviewAck, OfferReceived, GrantStands, AckStands, OfferRests, Selected;
    SelectedIsOwn(s, i.account, i.managed);
    var grant, reply := ReviewGrant(i.checks, s, i.domain).value, i.reply.value;
    GrantExactly(i.checks, s, i.domain, grant);
    if i.managed {
      var t := s.(acknowledgement := reply.acknowledgement);
      var ack := ReviewAck(i.checks, s, grant, reply.acknowledgement.value).value;
      AckExactly(i.checks, s, grant, reply.acknowledgement.value, ack);
      GrantStandsStill(i.checks, s, t, i.domain, grant);
      AckStandsStill(i.checks, s, t, grant, reply.acknowledgement.value, ack);
      assert AckRests(i.checks, t, i.domain);
      if e in OfferReceived(d, i, t, grant, reply) {
        ReceivedIsWarranted(d, i, t, grant, e);
        AckRestsStill(i.checks, t, e.state.value, i.domain);
      }
    } else {
      ReceivedIsWarranted(d, i, s, grant, e);
    }
  }

  lemma GrantStandsStill(c: Checks, s: Transfer, t: Transfer, domain: Text, grant: Fields)
    requires GrantStands(c, s, domain, grant) && t == s.(acknowledgement := t.acknowledgement, offer := t.offer)
    ensures GrantStands(c, t, domain, grant)
  {
    hide Stands;
  }

  lemma AckStandsStill(c: Checks, s: Transfer, t: Transfer, grant: Fields, w: Wire, ack: Fields)
    requires s.grant.Some? && AckStands(c, s, grant, w, ack) && t == s.(acknowledgement := t.acknowledgement, offer := t.offer)
    ensures AckStands(c, t, grant, w, ack)
  {
    hide Stands;
  }

  lemma AckRestsStill(c: Checks, s: Transfer, t: Transfer, domain: Text)
    requires AckRests(c, s, domain) && t == s.(offer := t.offer)
    ensures AckRests(c, t, domain)
  {
    hide AckStands, Stands;
    var grant, ack :| GrantStands(c, s, domain, grant) && s.acknowledgement.Some? && AckStands(c, s, grant, s.acknowledgement.value, ack)
                      && c.now < grant.expiresAt;
    GrantStandsStill(c, s, t, domain, grant);
    AckStandsStill(c, s, t, grant, s.acknowledgement.value, ack);
  }

  lemma ReceivedIsWarranted(d: Disk, i: OfferInput, s: Transfer, grant: Fields, e: Disk)
    requires s.grant.Some? && GrantStands(i.checks, s, i.domain, grant) && i.checks.now < grant.expiresAt
    requires i.reply.Some? && e in OfferReceived(d, i, s, grant, i.reply.value)
    ensures e.files == d.files && e.state == Some(s.(offer := i.reply.value.offer)) && i.reply.value.ready
    ensures OfferRests(i.checks, e.state.value, i.domain)
  {
    hide ReviewOffer, GrantStands, OfferStands;
    var t := s.(offer := i.reply.value.offer);
    var offer := ReviewOffer(i.checks, t, grant, true).value;
    OfferExactly(i.checks, t, grant, true, offer);
    GrantStandsStill(i.checks, s, t, i.domain, grant);
  }

  // ---------------------------------------------------------------- select

  /** A chain that stands for the address asked for, and each record lapses before the one it rests on. */
  ghost predicate ReservationRests(i: SelectInput, s: Transfer) {
    exists x: Chain ::
      && ChainStands(i.checks, s, i.domain, x)
      && x.selection.address == x.reservation.address == i.username + "@" + i.domain
      && i.checks.now < x.reservation.expiresAt <= x.selection.expiresAt <= x.offer.expiresAt <= x.grant.expiresAt
  }

  /** A live grant and offer, and an account that is not migrating or had selected before. */
  ghost predicate SelectWarranted(s: Transfer, i: SelectInput) {
    && CanonicalUsername(i.username) && Own(s, i.account, i.managed) && i.statusMatches
    && (i.account.migration.Some? ==> s.selection.Some?)
    && exists grant, offer ::
         GrantStands(i.checks, s, i.domain, grant) && s.offer.Some? && OfferStands(i.checks, s, grant, true, s.offer.value, offer)
  }

  /** Select signs only under a live offer, and retains only a reservation that completes a chain. */
  lemma SelectIsWarranted(d: Disk, i: SelectInput, e: Disk)
    requires SelectedFirst(d) && e in Select(d, i) && '@' !in i.domain
    requires d.state.value.cancellation.None?
    ensures SelectWarranted(d.state.value, i)
    ensures e == d.(state := e.state) && e.state.Some?
    ensures var s, t := d.state.value, e.state.value;
            && t == s.(selection := t.selection, reservation := t.reservation)
            && (s.selection.Some? ==> t.selection == s.selection)
            && (t.reservation == s.reservation == None || (t.reservation == i.receipt && ReservationRests(i, t)))
  {
    hide ReviewGrant, ReviewOffer, Reserve, SelectionFields, Selected, GrantStands, OfferStands, CanonicalUsername, ReservationRests;
    var s := d.state.value;
    SelectedIsOwn(s, i.account, i.managed);
    var grant := ReviewGrant(i.checks, s, i.domain).value;
    GrantExactly(i.checks, s, i.domain, grant);
    GrantIsThere(i.checks, s, i.domain, grant);
    var offer := ReviewOffer(i.checks, s, grant, true).value;
    OfferExactly(i.checks, s, grant, true, offer);
    var signed := if s.selection.Some? then s.selection else i.vault(SelectionFields(s, i, grant, offer));
    var t := s.(selection := signed);
    if e in Reserve(d, i, t, grant, offer) {
      ReserveIsWarranted(d, i, s, t, grant, offer, e);
    }
  }

  lemma ReserveIsWarranted(d: Disk, i: SelectInput, s: Transfer, t: Transfer, grant: Fields, offer: Fields, e: Disk)
    requires s.managed == i.managed && s.cancellation.None? && '@' !in i.domain && CanonicalUsername(i.username)
    requires GrantStands(i.checks, s, i.domain, grant) && s.grant.Some? && s.offer.Some?
    requires OfferStands(i.checks, s, grant, true, s.offer.value, offer)
    requires t == s.(selection := t.selection) && t.selection.Some? && e in Reserve(d, i, t, grant, offer)
    ensures e == d.(state := Some(t.(reservation := i.receipt))) && ReservationRests(i, t.(reservation := i.receipt))
  {
    hide ReviewSelection, ReviewReservation, GrantStands, OfferStands, SelectionStands, ReservationStands, CanonicalUsername, DomainOf, ChainStands;
    GrantIsThere(i.checks, s, i.domain, grant);
    var u := t.(reservation := i.receipt);
    var f := ReviewSelection(t, i, grant, offer).value;
    SelectionIsWarranted(t, i, grant, offer, f);
    var r := ReviewReservation(t, i, grant, offer, f).value;
    ReceiptIsWarranted(t, i, grant, offer, f, r);
    StandStill(i.checks, s, u, i.domain, grant, offer);
    OfferIsLive(i.checks, s, grant, offer);
    AddressIsOfDomain(i);
    var x := Chain(grant, offer, f, r);
    ChainOf(i.checks, u, i.domain, x, t);
    assert x.selection.address == x.reservation.address == i.username + "@" + i.domain by {
      ReservesTheSelected(t, i, grant, offer, f, i.receipt.value, r);
    }
  }

  lemma SelectionIsWarranted(s: Transfer, i: SelectInput, grant: Fields, offer: Fields, f: Fields)
    requires s.grant.Some? && s.offer.Some? && s.selection.Some? && s.managed == i.managed && grant.destinationDomain == i.domain
    requires ReviewSelection(s, i, grant, offer) == Some(f)
    ensures SelectionStands(i.checks, s, grant, offer, s.selection.value, f)
    ensures f.address == i.username + "@" + i.domain && f.expiresAt <= offer.expiresAt
  {
    SelectionExactly(i.checks, s, s.selection.value, f);
    hide Stands, Verify, SelectionKind;
  }

  lemma ReceiptIsWarranted(s: Transfer, i: SelectInput, grant: Fields, offer: Fields, f: Fields, r: Fields)
    requires s.grant.Some? && s.offer.Some? && s.selection.Some? && i.receipt.Some? && s.managed == i.managed && grant.destinationDomain == i.domain
    requires SelectionStands(i.checks, s, grant, offer, s.selection.value, f) && f.address == i.username + "@" + i.domain
    requires ReviewReservation(s, i, grant, offer, f) == Some(r)
    ensures ReservationStands(i.checks, s, grant, offer, f, i.receipt.value, r)
    ensures i.checks.now < r.expiresAt <= f.expiresAt
  {
    ReservationExactly(i.checks, s, offer.messagingKey, i.receipt.value, r);
    hide Stands, Verify, ReservationKind;
  }

  lemma ReservesTheSelected(s: Transfer, i: SelectInput, grant: Fields, offer: Fields, f: Fields, w: Wire, r: Fields)
    requires s.offer.Some? && s.selection.Some? && ReservationStands(i.checks, s, grant, offer, f, w, r)
    ensures r.address == f.address
  {
    hide Stands;
  }

  lemma StandStill(c: Checks, s: Transfer, u: Transfer, domain: Text, grant: Fields, offer: Fields)
    requires GrantStands(c, s, domain, grant) && s.grant.Some? && s.offer.Some? && OfferStands(c, s, grant, true, s.offer.value, offer)
    requires u == s.(selection := u.selection, reservation := u.reservation)
    ensures GrantStands(c, u, domain, grant) && OfferStands(c, u, grant, u.managed, u.offer.value, offer)
  {
    hide Stands;
  }

  lemma OfferIsLive(c: Checks, s: Transfer, grant: Fields, offer: Fields)
    requires s.grant.Some? && s.offer.Some? && OfferStands(c, s, grant, true, s.offer.value, offer)
    ensures offer.expiresAt <= grant.expiresAt
  {
    hide Stands;
  }

  lemma ChainOf(c: Checks, u: Transfer, domain: Text, x: Chain, t: Transfer)
    requires u == t.(reservation := u.reservation) && u.reservation.Some? && u.cancellation.None?
    requires GrantStands(c, u, domain, x.grant) && u.grant.Some?
    requires u.offer.Some? && OfferStands(c, u, x.grant, u.managed, u.offer.value, x.offer)
    requires t.selection.Some? && SelectionStands(c, t, x.grant, x.offer, t.selection.value, x.selection)
    requires ReservationStands(c, t, x.grant, x.offer, x.selection, u.reservation.value, x.reservation)
    requires DomainOf(x.selection.address) == Some(domain)
    ensures ChainStands(c, u, domain, x)
  {
    hide Stands, GrantStands, OfferStands, DomainOf;
  }

  // ---------------------------------------------------------------- cancel

  /** A cancellation under the grant, in the owner's hand. */
  predicate CancellationRests(c: Checks, s: Transfer, grant: Fields, f: Fields)
    requires s.grant.Some?
  {
    && s.cancellation.Some? && Stands(c, s.cancellation.value, f, CANCELLATION, s.key, false)
    && f.did == s.did && f.nonce == grant.nonce && f.grantDigest == c.digest(s.grant.value.payload)
  }

  /** Cancellation and receipt, and a receipt that is retained for the first time comes before the cancellation has lapsed. */
  ghost predicate ReceiptRests(i: CancelInput, s: Transfer, first: bool) {
    exists grant, f, v ::
      && GrantStands(i.checks, s, i.domain, grant) && CancellationRests(i.checks, s, grant, f) && (first ==> i.checks.now < f.expiresAt)
      && s.receipt.Some? && s.sourceMessagingKey.Some?
      && GoodCancellationReceipt(s, i, grant, s.receipt.value, s.sourceMessagingKey.value, v)
  }

  ghost predicate CancelWarranted(s: Transfer, i: CancelInput, t: Transfer) {
    && t == s.(cancellation := t.cancellation, receipt := t.receipt, sourceMessagingKey := t.sourceMessagingKey,
               targetAcknowledged := t.targetAcknowledged)
    && (s.cancellation.Some? ==> t.cancellation == s.cancellation) && t.cancellation.Some?
    && (t.receipt == s.receipt == None || t.receipt.Some?)
    && (t.receipt != s.receipt || (t.targetAcknowledged && !s.targetAcknowledged) ==>
          ReceiptRests(i, t, s.receipt.None? || s.sourceMessagingKey.None?))
    && (t.targetAcknowledged && !s.targetAcknowledged ==> i.targetAnswers && t.receipt.Some?)
  }

  /** Only owner-controlled transfers that are not migrating are cancelled, and receipts are retained only with warrant. */
  lemma CancelIsWarranted(d: Disk, i: CancelInput, e: Disk)
    requires e in Cancel(d, i)
    ensures Own(d.state.value, i.account, false) && i.account.migration.None?
    ensures exists grant :: GrantStands(i.checks, d.state.value, i.domain, grant)
    ensures e == d.(state := e.state) && e.state.Some? && CancelWarranted(d.state.value, i, e.state.value)
  {
    hide ReviewGrant, CancelSubmit, CancellationFields, Selected, GrantStands, ReceiptRests;
    var s := d.state.value;
    SelectedIsOwn(s.(cancellation := None), i.account, false);
    var grant := ReviewGrant(i.checks, s, i.domain).value;
    GrantExactly(i.checks, s, i.domain, grant);
    var signed := if s.cancellation.Some? then s.cancellation else i.vault(CancellationFields(s, i, grant));
    var t := s.(cancellation := signed);
    if e in CancelSubmit(d, i, t, grant) {
      SubmitIsWarranted(d, i, s, t, grant, e);
    } else {
      assert e == d.(state := Some(t)) && s.cancellation.None?;
    }
  }

  lemma SubmitIsWarranted(d: Disk, i: CancelInput, s: Transfer, t: Transfer, grant: Fields, e: Disk)
    requires s.grant.Some? && GrantStands(i.checks, s, i.domain, grant)
    requires t == s.(cancellation := t.cancellation) && t.cancellation.Some? && (s.cancellation.Some? ==> t == s)
    requires e in CancelSubmit(d, i, t, grant)
    ensures e == d.(state := e.state) && e.state.Some? && CancelWarranted(s, i, e.state.value)
  {
    hide Verify, Stands, GrantStands, GoodCancellationReceipt, CancelConfirmed, CANCELLATION, RECEIPT, GrantKind, OfferKind, SelectionKind, ReservationKind, SigningInput;
    var f := Verify(i.checks, t.cancellation.value, CANCELLATION, t.key, false).value;
    NoReceipts(false);
    VerifyExactly(i.checks, t.cancellation.value, f, CANCELLATION, t.key, false);
    var retained := t.receipt.Some? && t.sourceMessagingKey.Some?;
    var r := if retained then CancelReply(t.receipt.value, t.sourceMessagingKey.value) else i.reply.value;
    assert e in CancelConfirmed(d, i, t, grant, r);
    ConfirmedIsWarranted(d, i, t, grant, r, e);
    CancelledStillStands(i.checks, s, e.state.value, i.domain, grant);
    assert CancellationRests(i.checks, e.state.value, grant, f);
  }

  lemma CancelledStillStands(c: Checks, s: Transfer, t: Transfer, domain: Text, grant: Fields)
    requires GrantStands(c, s, domain, grant)
    requires t == s.(cancellation := t.cancellation, receipt := t.receipt, sourceMessagingKey := t.sourceMessagingKey,
                     targetAcknowledged := t.targetAcknowledged)
    ensures GrantStands(c, t, domain, grant)
  {
    hide Stands;
  }

  lemma ConfirmedIsWarranted(d: Disk, i: CancelInput, t: Transfer, grant: Fields, r: CancelReply, e: Disk)
    requires t.grant.Some? && e in CancelConfirmed(d, i, t, grant, r)
    ensures e.state.Some? && e == d.(state := e.state)
    ensures var u := e.state.value;
            && u == t.(receipt := Some(r.receipt), sourceMessagingKey := Some(r.messagingKey), targetAcknowledged := u.targetAcknowledged)
            && (u.targetAcknowledged != t.targetAcknowledged ==> i.targetAnswers)
            && (t.receipt.Some? ==> t.receipt == u.receipt)
            && exists v :: GoodCancellationReceipt(u, i, grant, r.receipt, r.messagingKey, v)
  {
    var v := Verify(i.checks, r.receipt, RECEIPT, r.messagingKey, false).value;
    VerifiedReceipt(i.checks, r.receipt, r.messagingKey, v);
    hide Verify, SignedAs;
    assert GoodCancellationReceipt(e.state.value, i, grant, r.receipt, r.messagingKey, v);
  }

  lemma VerifiedReceipt(c: Checks, w: Wire, key: Text, v: Fields)
    requires Verify(c, w, RECEIPT, key, false) == Some(v)
    ensures SignedAs(c, w, v, RECEIPT, key, false) && v.kind == RECEIPT
    ensures SafeInteger(v.issuedAt) && SafeInteger(v.expiresAt) && v.issuedAt < v.expiresAt <= v.issuedAt + 604800 && v.issuedAt <= c.now + 300
  {
    hide SigningInput;
  }

  // ---------------------------------------------------------------- export, sign, complete

  /** The snapshot tells the same story as the chain: same account, same move, same keys. */
  predicate Fits(s: Transfer, m: Manifest, x: Chain) {
    && m.accountId == s.accountId
    && m.did == s.did == x.grant.did == x.offer.did == x.selection.did == x.reservation.did
    && m.transferId == x.offer.transferId == x.selection.transferId == x.reservation.transferId
    && m.sourceBase == x.grant.sourceBase == x.offer.sourceBase
    && m.destinationBase == x.grant.destinationBase == x.offer.destinationBase
    && m.rotationKey == x.offer.rotationKey && m.messagingKey == x.offer.messagingKey && m.rotationKey != m.messagingKey
    && (!s.managed ==> m.portable)
    && (s.managed ==>
          && m.rotationKey == x.reservation.rotationKey && m.messagingKey == x.reservation.messagingKey
          && m.identityKey == x.offer.identityKey == x.reservation.identityKey
          && m.ownerRecoveryKey == x.grant.ownerRecoveryKey == s.ownerRecoveryKey
          && m.sourceIdentityKey == x.grant.sourceIdentityKey == s.sourceIdentityKey)
  }

  ghost predicate SnapshotRests(c: Checks, s: Transfer, domain: Text, snapshot: Option<Snapshot>) {
    snapshot.Some? && exists x :: ChainStands(c, s, domain, x) && Fits(s, snapshot.value.manifest, x)
  }

  lemma ReviewedRests(c: Checks, s: Transfer, domain: Text, snapshot: Option<Snapshot>)
    requires Reviewed(c, s, domain, snapshot).Some?
    ensures SnapshotRests(c, s, domain, snapshot)
  {
    var x := Reviewed(c, s, domain, snapshot).value;
    RetainedExactly(c, s, domain, x);
    hide Retained, ChainStands, Fits;
    ChainFits(c, s, domain, snapshot.value.manifest, x);
  }

  lemma ChainFits(c: Checks, s: Transfer, domain: Text, m: Manifest, x: Chain)
    requires ChainStands(c, s, domain, x) && Matches(s, m, x.offer)
    ensures Fits(s, m, x)
  {
    hide Stands, DomainOf;
  }

  /** Export writes only for an account that is fenced or exported already, and a snapshot that fits the chain. */
  lemma ExportIsWarranted(d: Disk, i: ExportInput, e: Disk)
    requires e in Export(d, i)
    ensures var s, a := d.state.value, i.account;
            && s.managed == i.managed == a.managed && a.mayWrite && s.provider == a.provider && s.accountId == a.accountId && s.did == a.did
            && (!i.managed ==> Own(s, a, false)) && (a.migration == Some("fenced") || a.migration == Some("exported"))
            && SnapshotRests(i.checks, s, i.domain, i.snapshot)
    ensures i.output !in d.files && e == d.(files := d.files[i.output := SnapshotFile])
  {
    hide Reviewed, SnapshotRests;
    SelectedIsOwn(d.state.value, i.account, false);
    ReviewedRests(i.checks, d.state.value, i.domain, i.snapshot);
  }

  /** Signing records and writes nothing unless the snapshot fits the chain, and writes files only with the vault's keys. */
  lemma SignIsWarranted(d: Disk, i: SignInput, managed: bool, e: Disk)
    requires e in Sign(d, i, managed)
    ensures d.state.Some? && d.state.value.managed == managed && SnapshotRests(i.checks, d.state.value, i.domain, i.snapshot)
    ensures e.state.Some? && e.state.value == d.state.value.(cutover := e.state.value.cutover)
    ensures e.files != d.files ==>
              && i.evidenceOk && i.vault.Some? && i.vault.value.did == d.state.value.did
              && if managed then i.vault.value.recoveryKey == d.state.value.ownerRecoveryKey
                 else var m := i.snapshot.value.manifest;
                      i.vault.value.identityKey == m.custodyIdentityKey && i.vault.value.recoveryKey == m.custodyRecoveryKey
  {
    hide Reviewed, SnapshotRests, MakeOperation, SignArtifacts;
    var s := d.state.value;
    var chain := Reviewed(i.checks, s, i.domain, i.snapshot).value;
    ReviewedRests(i.checks, s, i.domain, i.snapshot);
    ReviewedIsOwn(i.checks, s, i.domain, i.snapshot);
    if !managed {
      var s1 := s.(cutover := Some(OwnerReview(s, i)));
      var w := SigningOf(i, chain);
      if e in SignArtifacts(d.(state := Some(s1)), i, s1, w) {
        ArtifactsLeaveRecords(d.(state := Some(s1)), i, s1, w, e);
      }
    }
  }

  lemma ReviewedIsOwn(c: Checks, s: Transfer, domain: Text, snapshot: Option<Snapshot>)
    requires Reviewed(c, s, domain, snapshot).Some?
    ensures snapshot.value.manifest.did == s.did
  {
    hide Retained;
  }

  lemma ArtifactsLeaveRecords(d: Disk, i: SignInput, s: Transfer, w: Signing, e: Disk)
    requires s.cutover.Some? && d.state == Some(s) && e in SignArtifacts(d, i, s, w)
    ensures e.state.Some? && e.state.value == s.(cutover := e.state.value.cutover)
  {
    hide NewOperation, SignConsent;
    var hasOp, hasConsent, hasBinding := i.operationPath in d.files, i.consentPath in d.files, i.bindingPath in d.files;
    var d1 := if hasOp then d else d.(files := d.files[i.operationPath := NewOperation(w)]);
    var cid := if hasOp then d.files[i.operationPath].cid else w.cid;
    if e in SignConsent(d1, i, s, w, cid, hasConsent, hasBinding) {
      ConsentLeavesRecords(d1, i, s, w, cid, hasConsent, hasBinding, e);
    }
  }

  lemma ConsentLeavesRecords(d: Disk, i: SignInput, s: Transfer, w: Signing, cid: Text, hasConsent: bool, hasBinding: bool, e: Disk)
    requires s.cutover.Some? && d.state == Some(s) && e in SignConsent(d, i, s, w, cid, hasConsent, hasBinding)
    ensures e.state.Some? && e.state.value == s.(cutover := e.state.value.cutover)
  {
    hide AcceptsConsent, AcceptsBinding, NewConsent, NewBinding;
  }

  /** The owner, with the account's own identity key, consents to this move, this snapshot and this operation. */
  ghost predicate ConsentRests(c: Checks, s: Transfer, domain: Text, n: Snapshot, f: File, cid: Text) {
    && f.ConsentFile? && f.signer == s.key == f.terms.identityKey && f.terms.recoveryKey == n.manifest.custodyRecoveryKey
    && f.terms.did == s.did && f.terms.cid == cid && f.terms.snapshotDigest == n.digest && f.terms.transferId == n.manifest.transferId
    && f.terms.sourceBase == n.manifest.sourceBase && f.terms.destinationBase == n.manifest.destinationBase
    && f.terms.rotationKey == n.manifest.rotationKey && f.terms.messagingKey == n.manifest.messagingKey
    && f.createdAt < f.expiresAt <= f.createdAt + 604800
    && exists x :: ChainStands(c, s, domain, x) && f.terms.address == x.selection.address == x.reservation.address
  }

  lemma CompletingConsentRests(c: Checks, s: Transfer, domain: Text, snapshot: Option<Snapshot>, f: File, cid: Text)
    requires Reviewed(c, s, domain, snapshot).Some?
    requires ConsentCompletes(s, Reviewed(c, s, domain, snapshot).value, snapshot.value, f, cid)
    ensures !s.managed ==> ConsentRests(c, s, domain, snapshot.value, f, cid)
  {
    var x := Reviewed(c, s, domain, snapshot).value;
    RetainedExactly(c, s, domain, x);
    hide Retained, ChainStands;
    SameAddress(c, s, domain, x);
  }

  lemma SameAddress(c: Checks, s: Transfer, domain: Text, x: Chain)
    requires ChainStands(c, s, domain, x)
    ensures x.selection.address == x.reservation.address
  {
    hide Stands, DomainOf, GrantStands, OfferStands, SelectionStands;
  }

  /** A receipt of activation is retained only for this cutover, complete, with the destination's valid and active answer. */
  lemma CompleteIsWarranted(d: Disk, i: CompleteInput, managed: bool, e: Disk)
    requires e in Complete(d, i, managed)
    ensures d.state.Some? && d.state.value.managed == managed && SnapshotRests(i.checks, d.state.value, i.domain, i.snapshot)
    ensures var s := d.state.value;
            && s.cutover.Some? && s.cutover.value.snapshotDigest == i.snapshot.value.digest && s.cutover.value.operationCid.Some?
            && (managed ==> s.cutover.value.snapshotPath == i.snapshotPath && i.approvalValid)
            && s.cutover.value.operationPath in d.files && s.cutover.value.consentPath in d.files
            && (!managed ==>
                  && s.cutover.value.bindingPath in d.files
                  && ConsentRests(i.checks, s, i.domain, i.snapshot.value, d.files[s.cutover.value.consentPath], s.cutover.value.operationCid.value))
            && d.files[s.cutover.value.operationPath].OperationFile?
            && d.files[s.cutover.value.operationPath].cid == s.cutover.value.operationCid.value
    ensures i.reply.Some? && i.reply.value.valid && i.reply.value.active
    ensures e == d.(state := e.state) && e.state.Some?
    ensures var s, t := d.state.value, e.state.value;
            && t == s.(activationReceipt := Some(i.reply.value.receipt), retired := t.retired)
            && (s.activationReceipt.Some? ==> t.activationReceipt == s.activationReceipt)
            && (t.retired && !s.retired ==> i.sourceAnswers)
  {
    hide Reviewed, SnapshotRests, ConsentCompletes, ConsentRests;
    var s := d.state.value;
    ReviewedRests(i.checks, s, i.domain, i.snapshot);
    if !managed {
      CompletingConsentRests(i.checks, s, i.domain, i.snapshot, d.files[s.cutover.value.consentPath], s.cutover.value.operationCid.value);
    }
  }
}
