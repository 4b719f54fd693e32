/**
 * The transfer commands as they run: each reads the state file, assigns into the state, and rewrites
 * the file after every record it adds. What they leave in the journal is, write for write, what
 * TransferRuns says of the command. So every state a crash may leave keeps what that module proves
 * of single writes, and once a cancellation is retained no command but cancel writes anything.
 */
module TransferCommands {
  import opened Options
  import opened Journals
  import opened TransferRecords
  import opened TransferRuns
  import opened TransferProgress
  import opened CutoverRuns

  method Replace(io: Journal<Disk>, s: Transfer)
    modifies io
    ensures io.writes == old(io.writes) + [old(io.Current()).(state := Some(s))]
    ensures io.Current() == old(io.Current()).(state := Some(s))
  {
    io.Write(io.Current().(state := Some(s)));
  }

  /** A file is only ever created where there is none. */
  method Create(io: Journal<Disk>, path: Text, file: File) returns (created: bool)
    modifies io
    ensures created == (path !in old(io.Current()).files)
    ensures created ==> io.writes == old(io.writes) + [old(io.Current()).(files := old(io.Current()).files[path := file])]
    ensures created ==> io.Current() == old(io.Current()).(files := old(io.Current()).files[path := file])
    ensures !created ==> io.writes == old(io.writes) && io.Current() == old(io.Current())
  {
    if path in io.Current().files { return false; }
    io.Write(io.Current().(files := io.Current().files[path := file]));
    return true;
  }

  /** What a command other than cancel keeps, and that a cancellation stops it. */
  lemma CommandKeeps(d: Disk, c: Command)
    requires !c.DoCancel?
    ensures AllSound(d, Writes(d, c))
    ensures Cancelled(d) ==> Writes(d, c) == []
  {
    hide Writes;
    WritesAreSound(d, c);
    if Cancelled(d) {
      CancellationBlocks(d, c);
    }
  }

  // ---------------------------------------------------------------- offer

  method MakeOffer(io: Journal<Disk>, i: OfferInput)
    modifies io
    ensures io.writes == old(io.writes) + Offer(old(io.Current()), i)
  {
    hide OfferOn, NewTransfer;
    ghost var d := io.Current();
    var a := i.account;
    if !a.mayWrite || a.migration.Some? || a.managed != i.managed || a.identityKey.None?
       || (i.managed && a.recoveryKey.None?) || a.provider == i.destination
    {
      return;
    }
    var s;
    if io.Current().state.Some? {
      s := io.Current().state.value;
    } else {
      s := NewTransfer(i);
      Replace(io, s);
    }
    GrantOffer(io, i, s, d);
  }

  method GrantOffer(io: Journal<Disk>, i: OfferInput, start: Transfer, ghost d: Disk)
    requires io.Current().files == d.files
    modifies io
    ensures io.writes == old(io.writes) + OfferOn(d, i, start)
  {
    hide OfferBehindGrant, GrantFields, Selected;
    var s := start;
    if !Selected(s, i.account, i.managed) || s.destination != i.destination { return; }
    if s.grant.None? {
      var signed := i.vault(GrantFields(s, i));
      if signed.None? { return; }
      s := s.(grant := signed);
      Replace(io, s);
    }
    ContinueOffer(io, i, s, d);
  }

  method ContinueOffer(io: Journal<Disk>, i: OfferInput, start: Transfer, ghost d: Disk)
    requires start.grant.Some? && io.Current().files == d.files
    modifies io
    ensures io.writes == old(io.writes) + OfferBehindGrant(d, i, start)
  {
    hide ReviewGrant, ReviewAck, ReviewOffer;
    var s := start;
    var review := ReviewGrant(i.checks, s, i.domain);
    if review.None? || review.value.expiresAt <= i.checks.now { return; }
    if i.reply.None? || !i.reply.value.statusOk { return; }
    var grant, reply := review.value, i.reply.value;
    if i.managed {
      if reply.acknowledgement.None? || ReviewAck(i.checks, s, grant, reply.acknowledgement.value).None? { return; }
      if s.acknowledgement.Some? && s.acknowledgement != reply.acknowledgement { return; }
      s := s.(acknowledgement := reply.acknowledgement);
      Replace(io, s);
    }
    if reply.offer.None? { return; }
    if s.offer.Some? && s.offer != reply.offer { return; }
    s := s.(offer := reply.offer);
    if ReviewOffer(i.checks, s, grant, true).None? || !reply.ready { return; }
    Replace(io, s);
  }

  // ---------------------------------------------------------------- select

  method MakeSelection(io: Journal<Disk>, i: SelectInput)
    modifies io
    ensures io.writes == old(io.writes) + Select(old(io.Current()), i)
  {
    hide ReviewGrant, ReviewOffer, Reserve, SelectionFields, Selected, CanonicalUsername;
    ghost var d := io.Current();
    if !CanonicalUsername(i.username) { return; }
    if io.Current().state.None? { return; }
    var s := io.Current().state.value;
    if !Selected(s, i.account, i.managed) || (i.account.migration.Some? && s.selection.None?) { return; }
    var grant := ReviewGrant(i.checks, s, i.domain);
    if grant.None? { return; }
    HasGrant(i.checks, s, i.domain);
    var offer := ReviewOffer(i.checks, s, grant.value, true);
    if offer.None? || !i.statusMatches { return; }
    HasOffer(i.checks, s, grant.value, true);
    if s.selection.None? {
      var signed := i.vault(SelectionFields(s, i, grant.value, offer.value));
      if signed.None? { return; }
      s := s.(selection := signed);
      Replace(io, s);
    }
    ReserveAddress(io, i, s, grant.value, offer.value, d);
  }

  method ReserveAddress(io: Journal<Disk>, i: SelectInput, s: Transfer, grant: Fields, offer: Fields, ghost d: Disk)
    requires s.grant.Some? && s.offer.Some? && s.selection.Some? && io.Current().files == d.files
    modifies io
    ensures io.writes == old(io.writes) + Reserve(d, i, s, grant, offer)
  {
    hide ReviewSelection, ReviewReservation;
    var selection := ReviewSelection(s, i, grant, offer);
    if selection.None? || i.receipt.None? { return; }
    if ReviewReservation(s, i, grant, offer, selection.value).None? { return; }
    if s.reservation.Some? && s.reservation != i.receipt { return; }
    Replace(io, s.(reservation := i.receipt));
  }

  // ---------------------------------------------------------------- cancel

  method MakeCancellation(io: Journal<Disk>, i: CancelInput)
    modifies io
    ensures io.writes == old(io.writes) + Cancel(old(io.Current()), i)
  {
    hide ReviewGrant, CancelSubmit, CancellationFields, Selected;
    ghost var d := io.Current();
    if io.Current().state.None? { return; }
    var s := io.Current().state.value;
    if !Selected(s.(cancellation := None), i.account, false) || i.account.migration.Some? || s.grant.None? { return; }
    var grant := ReviewGrant(i.checks, s, i.domain);
    if grant.None? { return; }
    if s.cancellation.None? {
      var signed := i.vault(CancellationFields(s, i, grant.value));
      if signed.None? { return; }
      s := s.(cancellation := signed);
      Replace(io, s);
    }
    SubmitCancellation(io, i, s, grant.value, d);
  }

  method SubmitCancellation(io: Journal<Disk>, i: CancelInput, start: Transfer, grant: Fields, ghost d: Disk)
    requires start.grant.Some? && start.cancellation.Some? && io.Current().files == d.files
    modifies io
    ensures io.writes == old(io.writes) + CancelSubmit(d, i, start, grant)
  {
    hide Verify;
    var s := start;
    var cancellation := Verify(i.checks, s.cancellation.value, CANCELLATION, s.key, false);
    if cancellation.None? { return; }
    var c := cancellation.value;
    if c.did != s.did || c.nonce != grant.nonce || c.grantDigest != i.checks.digest(s.grant.value.payload)
       || ((s.receipt.None? || s.sourceMessagingKey.None?) && c.expiresAt <= i.checks.now)
    {
      return;
    }
    var result := i.reply;
    if s.receipt.Some? && s.sourceMessagingKey.Some? {
      result := Some(CancelReply(s.receipt.value, s.sourceMessagingKey.value));
    }
    if result.None? { return; }
    var r := result.value;
    var receipt := Verify(i.checks, r.receipt, RECEIPT, r.messagingKey, false);
    if receipt.None? { return; }
    var v := receipt.value;
    if v.did != s.did || v.nonce != grant.nonce || v.sourceBase != Base(s.provider) || v.destinationDomain != i.domain
       || v.expiresAt <= i.checks.now || v.grantDigest != i.checks.digest(s.grant.value.payload)
    {
      return;
    }
    if s.offer.Some? {
      var offer := i.checks.decode(s.offer.value.payload);
      if offer.None? || v.invitationDigest != offer.value.invitationDigest { return; }
    }
    if s.receipt.Some? && s.receipt.value != r.receipt { return; }
    s := s.(receipt := Some(r.receipt), sourceMessagingKey := Some(r.messagingKey));
    Replace(io, s);
    if !i.targetAnswers { return; }
    s := s.(targetAcknowledged := true);
    Replace(io, s);
  }

  // ---------------------------------------------------------------- export, sign, complete

  method MakeExport(io: Journal<Disk>, i: ExportInput)
    modifies io
    ensures io.writes == old(io.writes) + Export(old(io.Current()), i)
  {
    hide Reviewed, Selected;
    if io.Current().state.None? { return; }
    var s := io.Current().state.value;
    if i.managed {
      if !s.managed || s.provider != i.account.provider || s.accountId != i.account.accountId || s.did != i.account.did
         || !i.account.managed || !i.account.mayWrite
      {
        return;
      }
    } else if !Selected(s, i.account, false) {
      return;
    }
    if i.account.migration != Some("fenced") && i.account.migration != Some("exported") { return; }
    if Reviewed(i.checks, s, i.domain, i.snapshot).None? { return; }
    var _ := Create(io, i.output, SnapshotFile);
  }

  method MakeCutover(io: Journal<Disk>, i: SignInput, managed: bool)
    modifies io
    ensures io.writes == old(io.writes) + Sign(old(io.Current()), i, managed)
  {
    hide Reviewed, SignArtifacts, SignManaged, SigningOf, Unlocked;
    if io.Current().state.None? || io.Current().state.value.managed != managed { return; }
    var s := io.Current().state.value;
    var review := Reviewed(i.checks, s, i.domain, i.snapshot);
    if review.None? { return; }
    if managed {
      SignManagedCutover(io, i, s, review.value);
      return;
    }
    var cid := if s.cutover.Some? then s.cutover.value.operationCid else None;
    var cutover := Cutover(i.snapshot.value.digest, "", i.operationPath, i.consentPath, i.bindingPath, cid);
    if s.cutover.Some? && !SameReview(s.cutover.value, cutover) { return; }
    if cid.Some? {
      if i.operationPath !in io.Current().files || i.consentPath !in io.Current().files || i.bindingPath !in io.Current().files {
        return;
      }
    }
    s := s.(cutover := Some(cutover));
    Replace(io, s);
    if !Unlocked(i, i.snapshot.value.manifest) { return; }
    SignThree(io, i, s, SigningOf(i, review.value));
  }

  method SignThree(io: Journal<Disk>, i: SignInput, s: Transfer, w: Signing)
    requires s.cutover.Some?
    modifies io
    ensures io.writes == old(io.writes) + SignArtifacts(old(io.Current()), i, s, w)
  {
    var files := io.Current().files;
    var previous, consent, binding := i.operationPath in files, i.consentPath in files, i.bindingPath in files;
    if (!previous && (consent || binding)) || (!consent && binding) { return; }
    var cid := w.cid;
    if previous {
      var op := files[i.operationPath];
      if !op.OperationFile? || op.operation != w.operation || op.signer != w.manifest.custodyRecoveryKey { return; }
      cid := op.cid;
    } else {
      var _ := Create(io, i.operationPath, OperationFile(w.operation, w.manifest.custodyRecoveryKey, cid));
    }
    SignTwo(io, i, s, w, cid, consent, binding);
  }

  method SignTwo(io: Journal<Disk>, i: SignInput, s: Transfer, w: Signing, cid: Text, consent: bool, binding: bool)
    requires s.cutover.Some?
    modifies io
    ensures io.writes == old(io.writes) + SignConsent(old(io.Current()), i, s, w, cid, consent, binding)
  {
    hide SignBinding;
    var expected := ConsentTerms(w.manifest, w.digest, w.address, cid);
    if consent {
      if i.consentPath !in io.Current().files { return; }
      var stored := io.Current().files[i.consentPath];
      if !stored.ConsentFile? || stored.signer != w.manifest.custodyIdentityKey || stored.expiresAt <= w.now || stored.terms != expected {
        return;
      }
    } else {
      var created := Create(io, i.consentPath, ConsentFile(expected, w.manifest.custodyIdentityKey, w.now, w.now + 3600));
      if !created { return; }
    }
    SignLast(io, i, s, w, cid, binding);
  }

  method SignLast(io: Journal<Disk>, i: SignInput, s: Transfer, w: Signing, cid: Text, binding: bool)
    requires s.cutover.Some?
    modifies io
    ensures io.writes == old(io.writes) + SignBinding(old(io.Current()), i, s, w, cid, binding)
  {
    if binding {
      if i.bindingPath !in io.Current().files { return; }
      var stored := io.Current().files[i.bindingPath];
      if !stored.BindingFile? || stored.signer != w.manifest.custodyIdentityKey || stored.address != w.address || stored.did != w.manifest.did {
        return;
      }
    } else {
      var created := Create(io, i.bindingPath, BindingFile(w.address, w.manifest.did, w.manifest.custodyIdentityKey));
      if !created { return; }
    }
    var cutover := s.cutover.value;
    if cutover.operationCid.Some? && cutover.operationCid.value != cid { return; }
    Replace(io, s.(cutover := Some(cutover.(operationCid := Some(cid)))));
  }

  method SignManagedCutover(io: Journal<Disk>, i: SignInput, s: Transfer, chain: Chain)
    requires i.snapshot.Some?
    modifies io
    ensures io.writes == old(io.writes) + SignManaged(old(io.Current()), i, s, chain)
  {
    if s.cutover.Some? || !UnlockedByOwner(i, s) { return; }
    var operation := MakeOperation(i.snapshot.value.manifest, chain.offer, true);
    var created := Create(io, i.operationPath, OperationFile(operation, s.ownerRecoveryKey, i.cid));
    if !created { return; }
    created := Create(io, i.approvalPath, ApprovalFile);
    if !created { return; }
    Replace(io, s.(cutover := Some(ManagedReview(i))));
  }

  method MakeCompletion(io: Journal<Disk>, i: CompleteInput, managed: bool)
    modifies io
    ensures io.writes == old(io.writes) + Complete(old(io.Current()), i, managed)
  {
    hide Reviewed, ConsentCompletes;
    if io.Current().state.None? || io.Current().state.value.cutover.None? { return; }
    var s := io.Current().state.value;
    var c := s.cutover.value;
    if s.managed != managed || (managed && c.snapshotPath != i.snapshotPath) || (!managed && c.operationCid.None?) { return; }
    var review := Reviewed(i.checks, s, i.domain, i.snapshot);
    if review.None? || i.snapshot.value.digest != c.snapshotDigest { return; }
    var files := io.Current().files;
    if c.operationPath !in files || !files[c.operationPath].OperationFile? { return; }
    if Some(files[c.operationPath].cid) != c.operationCid { return; }
    if managed {
      if c.consentPath !in files || !i.approvalValid { return; }
    } else {
      if c.bindingPath !in files || c.consentPath !in files { return; }
      if !ConsentCompletes(s, review.value, i.snapshot.value, files[c.consentPath], c.operationCid.value) { return; }
    }
    if i.reply.None? || !i.reply.value.valid || !i.reply.value.active { return; }
    var receipt := i.reply.value.receipt;
    if s.activationReceipt.Some? && s.activationReceipt.value != receipt { return; }
    s := s.(activationReceipt := Some(receipt));
    Replace(io, s);
    if !i.sourceAnswers { return; }
    s := s.(retired := true);
    Replace(io, s);
  }

  // ---------------------------------------------------------------- the commands

  /** Offer: what it leaves behind is sound at every write, and nothing once a cancellation is retained. */
  method OfferTransfer(io: Journal<Disk>, i: OfferInput)
    modifies io
    ensures io.writes == old(io.writes) + Offer(old(io.Current()), i)
    ensures AllSound(old(io.Current()), io.writes[|old(io.writes)|..])
    ensures Cancelled(old(io.Current())) ==> io.writes == old(io.writes)
    ensures OfferGoesThrough(old(io.Current()), i) ==> Offered(io.Current(), old(io.Current()), i)
  {
    hide Offer, AllSound, Cancelled, OnlyCancelling, OfferGoesThrough, Offered;
    ghost var d := io.Current();
    CommandKeeps(d, DoOffer(i));
    if OfferGoesThrough(d, i) {
      OfferSucceeds(d, i);
    }
    MakeOffer(io, i);
  }

  /** Select likewise. */
  method SelectAddress(io: Journal<Disk>, i: SelectInput)
    modifies io
    ensures io.writes == old(io.writes) + Select(old(io.Current()), i)
    ensures AllSound(old(io.Current()), io.writes[|old(io.writes)|..])
    ensures Cancelled(old(io.Current())) ==> io.writes == old(io.writes)
    ensures forall grant, offer | SelectGoesThrough(old(io.Current()), i, grant, offer) ::
              Reserved(io.Current(), old(io.Current()), i, grant, offer)
  {
    hide Select, AllSound, Cancelled, OnlyCancelling, SelectGoesThrough, Reserved;
    ghost var d := io.Current();
    CommandKeeps(d, DoSelect(i));
    forall grant, offer | SelectGoesThrough(d, i, grant, offer)
      ensures Select(d, i) != [] && Reserved(Select(d, i)[|Select(d, i)| - 1], d, i, grant, offer)
    {
      SelectSucceeds(d, i, grant, offer);
    }
    MakeSelection(io, i);
  }

  /** Cancel: sound at every write too, and after a first cancellation it touches nothing but the cancellation. */
  method CancelTransfer(io: Journal<Disk>, i: CancelInput)
    modifies io
    ensures io.writes == old(io.writes) + Cancel(old(io.Current()), i)
    ensures AllSound(old(io.Current()), io.writes[|old(io.writes)|..])
    ensures Cancelled(old(io.Current())) ==>
              forall e | e in io.writes[|old(io.writes)|..] :: OnlyCancelling(old(io.Current()), e)
    ensures forall grant, v | CancelGoesThrough(old(io.Current()), i, grant, v) :: CancelEnds(io.Current(), i)
  {
    hide Cancel, AllSound, Cancelled, OnlyCancelling, CancelGoesThrough, CancelEnds;
    ghost var d := io.Current();
    forall grant, v | CancelGoesThrough(d, i, grant, v)
      ensures Cancel(d, i) != [] && CancelEnds(Cancel(d, i)[|Cancel(d, i)| - 1], i)
    {
      CancelEndsWell(d, i, grant, v);
    }
    WritesAreSound(io.Current(), DoCancel(i));
    CancelOnlyCancels(io.Current(), i);
    MakeCancellation(io, i);
  }

  /** Export likewise. */
  method ExportSnapshot(io: Journal<Disk>, i: ExportInput)
    modifies io
    ensures io.writes == old(io.writes) + Export(old(io.Current()), i)
    ensures AllSound(old(io.Current()), io.writes[|old(io.writes)|..])
    ensures Cancelled(old(io.Current())) ==> io.writes == old(io.writes)
  {
    hide Export, AllSound, Cancelled, OnlyCancelling;
    CommandKeeps(io.Current(), DoExport(i));
    MakeExport(io, i);
  }

  /** Sign likewise. */
  method SignCutover(io: Journal<Disk>, i: SignInput, managed: bool)
    modifies io
    ensures io.writes == old(io.writes) + Sign(old(io.Current()), i, managed)
    ensures AllSound(old(io.Current()), io.writes[|old(io.writes)|..])
    ensures Cancelled(old(io.Current())) ==> io.writes == old(io.writes)
    ensures forall e | e in io.writes[|old(io.writes)|..] :: AddsFresh(old(io.Current()), e, i, managed)
  {
    hide Sign, AllSound, Cancelled, OnlyCancelling, AddsFresh;
    CommandKeeps(io.Current(), DoSign(i, managed));
    SigningAddsFresh(io.Current(), i, managed);
    MakeCutover(io, i, managed);
  }

  /** Complete likewise. */
  method CompleteTransfer(io: Journal<Disk>, i: CompleteInput, managed: bool)
    modifies io
    ensures io.writes == old(io.writes) + Complete(old(io.Current()), i, managed)
    ensures AllSound(old(io.Current()), io.writes[|old(io.writes)|..])
    ensures Cancelled(old(io.Current())) ==> io.writes == old(io.writes)
  {
    hide Complete, AllSound, Cancelled, OnlyCancelling;
    CommandKeeps(io.Current(), DoComplete(i, managed));
    MakeCompletion(io, i, managed);
  }
}
