/**
 * The transfer commands as they change the disk. A command is the sequence of disks it leaves
 * behind, one for each file write; a crash cuts the sequence anywhere. Whatever the two providers
 * answer is an input, so the theorems hold against any answers.
 */
module TransferRuns {
  import opened Options
  import opened Journals
  import opened TransferRecords

  /** The operation that moves the account: what it follows, and what it puts there. */
  datatype Operation = Operation(prior: Text, rotationKey: Text, identityKey: Option<Text>, messagingKey: Text, endpoint: Text)

  /** What the owner consents to; the CID stands for the hash of the operation. */
  datatype Terms = Terms(
    did: Text, transferId: Text, snapshotDigest: Text, cid: Text, sourceBase: Text, destinationBase: Text, address: Text,
    rotationKey: Text, messagingKey: Text, recoveryKey: Text, identityKey: Text)

  /** A file that is not the state: what was written into it, and whose key signed it. */
  datatype File =
    | OperationFile(operation: Operation, signer: Text, cid: Text)
    | ConsentFile(terms: Terms, signer: Text, createdAt: int, expiresAt: int)
    | BindingFile(address: Text, did: Text, signer: Text)
    | ApprovalFile
    | SnapshotFile
    | OtherFile

  datatype Disk = Disk(state: Option<Transfer>, files: map<Text, File>)

  /** What the provider says about the account. */
  datatype Account = Account(
    provider: Text, accountId: Text, did: Text, managed: bool, mayWrite: bool, migration: Option<Text>,
    identityKey: Option<Text>, recoveryKey: Option<Text>)

  /** The vault signs the fields it is given, or fails. */
  type Vault = Fields -> Option<Wire>

  const NO_FIELDS := Fields("", "", "", 0, 0, "", "", "", "", "", "", "", "", "", "", "", "", "", "", "", "")

  function Append(ds: seq<Disk>, d: Disk, s: Transfer): seq<Disk> { ds + [d.(state := Some(s))] }

  // ---------------------------------------------------------------- shared checks

  function KeyOrNull(key: Option<Text>): Text { if key.Some? then key.value else "" }

  /** The state belongs to this account and this kind of transfer, and is not cancelled. */
  predicate Selected(s: Transfer, a: Account, managed: bool) {
    && s.managed == managed
    && s.provider == a.provider && s.accountId == a.accountId && s.did == a.did
    && a.managed == managed && a.mayWrite
    && if managed then s.ownerRecoveryKey == KeyOrNull(a.recoveryKey) && s.sourceIdentityKey == KeyOrNull(a.identityKey)
       else s.key == KeyOrNull(a.identityKey) && s.cancellation.None?
  }

  // ---------------------------------------------------------------- offer

  datatype OfferReply = OfferReply(statusOk: bool, acknowledgement: Option<Wire>, offer: Option<Wire>, ready: bool)

  datatype OfferInput = OfferInput(
    managed: bool, account: Account, destination: Text, domain: Text, nonce: Text, checks: Checks, vault: Vault,
    reply: Option<OfferReply>)

  function GrantFields(s: Transfer, i: OfferInput): Fields {
    NO_FIELDS.(kind := GrantKind(i.managed), did := s.did, nonce := i.nonce,
               sourceBase := Base(s.provider), destinationBase := Base(i.destination), destinationDomain := i.domain,
               issuedAt := i.checks.now, expiresAt := i.checks.now + 3600,
               ownerRecoveryKey := if i.managed then s.ownerRecoveryKey else "",
               sourceIdentityKey := if i.managed then s.sourceIdentityKey else "")
  }

  function NewTransfer(i: OfferInput): Transfer {
    Transfer(i.managed, i.account.provider, i.account.accountId, i.account.did, i.destination,
             if i.managed then "" else KeyOrNull(i.account.identityKey),
             if i.managed then KeyOrNull(i.account.recoveryKey) else "",
             if i.managed then KeyOrNull(i.account.identityKey) else "",
             None, None, None, None, None, None, None, None, false, None, None, false)
  }

  function Offer(d: Disk, i: OfferInput): seq<Disk> {
    var a := i.account;
    if !a.mayWrite || a.migration.Some? || a.managed != i.managed || a.identityKey.None?
       || (i.managed && a.recoveryKey.None?) || a.provider == i.destination
    then []
    else
      var s := if d.state.Some? then d.state.value else NewTransfer(i);
      (if d.state.Some? then [] else Append([], d, s)) + OfferOn(d, i, s)
  }

  function OfferOn(d: Disk, i: OfferInput, s: Transfer): seq<Disk> {
    if !Selected(s, i.account, i.managed) || s.destination != i.destination then []
    else
      var signed := if s.grant.Some? then s.grant else i.vault(GrantFields(s, i));
      if signed.None? then []
      else
        var s1 := s.(grant := signed);
        (if s.grant.Some? then [] else Append([], d, s1)) + OfferBehindGrant(d, i, s1)
  }

  function OfferBehindGrant(d: Disk, i: OfferInput, s: Transfer): seq<Disk>
    requires s.grant.Some?
  {
    match ReviewGrant(i.checks, s, i.domain)
    case None => []
    case Some(grant) =>
      if grant.expiresAt <= i.checks.now || i.reply.None? || !i.reply.value.statusOk then []
      else
        var reply := i.reply.value;
        if i.managed then
          if reply.acknowledgement.None? || ReviewAck(i.checks, s, grant, reply.acknowledgement.value).None?
             || (s.acknowledgement.Some? && s.acknowledgement != reply.acknowledgement)
          then []
          else
            var s1 := s.(acknowledgement := reply.acknowledgement);
            Append([], d, s1) + OfferReceived(d, i, s1, grant, reply)
        else OfferReceived(d, i, s, grant, reply)
  }

  function OfferReceived(d: Disk, i: OfferInput, s: Transfer, grant: Fields, reply: OfferReply): seq<Disk>
    requires s.grant.Some?
  {
    if reply.offer.None? then []
    else if s.offer.Some? && s.offer != reply.offer then []
    else
      var s1 := s.(offer := reply.offer);
      if ReviewOffer(i.checks, s1, grant, true).None? || !reply.ready then [] else Append([], d, s1)
  }

  // ---------------------------------------------------------------- select

  datatype SelectInput = SelectInput(
    managed: bool, account: Account, domain: Text, username: Text, checks: Checks, vault: Vault,
    statusMatches: bool, receipt: Option<Wire>)

  predicate Alphanumeric(c: char) { 'a' <= c <= 'z' || '0' <= c <= '9' }

  /** The name is a canonical local part: labels of lower-case letters, digits and inner hyphens. */
  predicate CanonicalUsername(name: Text) {
    && 1 <= |name| <= 63 && Alphanumeric(name[0]) && Alphanumeric(name[|name| - 1])
    && (forall i | 0 <= i < |name| :: Alphanumeric(name[i]) || name[i] == '.' || name[i] == '-')
    && (forall i | 0 <= i < |name| - 1 && name[i] == '.' :: name[i + 1] != '.' && name[i + 1] != '-')
    && (forall i | 0 < i < |name| && name[i] == '.' :: name[i - 1] != '-')
  }

  function Address(i: SelectInput, grant: Fields): Text { i.username + "@" + grant.destinationDomain }

  function SelectionFields(s: Transfer, i: SelectInput, grant: Fields, offer: Fields): Fields
    requires s.grant.Some? && s.offer.Some?
  {
    var until := i.checks.now + 1800;
    var until1 := if offer.expiresAt < until then offer.expiresAt else until;
    var until2 := if grant.expiresAt < until1 then grant.expiresAt else until1;
    NO_FIELDS.(kind := SelectionKind(i.managed), did := s.did, nonce := grant.nonce, transferId := offer.transferId,
               grantDigest := i.checks.digest(s.grant.value.payload), offerDigest := i.checks.digest(s.offer.value.payload),
               address := Address(i, grant), issuedAt := i.checks.now, expiresAt := until2)
  }

  function ReviewSelection(s: Transfer, i: SelectInput, grant: Fields, offer: Fields): Option<Fields>
    requires s.grant.Some? && s.offer.Some? && s.selection.Some?
  {
    match Verify(i.checks, s.selection.value, SelectionKind(i.managed), OwnerKey(s), i.managed)
    case None => None
    case Some(selection) =>
      if selection.did != s.did || selection.nonce != grant.nonce || selection.transferId != offer.transferId
         || selection.address != Address(i, grant) || selection.expiresAt <= i.checks.now || selection.expiresAt > offer.expiresAt
         || selection.grantDigest != i.checks.digest(s.grant.value.payload)
         || selection.offerDigest != i.checks.digest(s.offer.value.payload)
      then None else Some(selection)
  }

  function ReviewReservation(s: Transfer, i: SelectInput, grant: Fields, offer: Fields, selection: Fields): Option<Fields>
    requires s.selection.Some? && i.receipt.Some?
  {
    match Verify(i.checks, i.receipt.value, ReservationKind(i.managed), offer.messagingKey, i.managed)
    case None => None
    case Some(r) =>
      if r.did != s.did || r.nonce != grant.nonce || r.transferId != offer.transferId || r.address != Address(i, grant)
         || r.expiresAt <= i.checks.now || r.expiresAt > selection.expiresAt
         || r.offerDigest != selection.offerDigest || r.selectionDigest != i.checks.digest(s.selection.value.payload)
         || (i.managed && (r.rotationKey != offer.rotationKey || r.identityKey != offer.identityKey || r.messagingKey != offer.messagingKey))
      then None else Some(r)
  }

  function Select(d: Disk, i: SelectInput): seq<Disk> {
    if !CanonicalUsername(i.username) || d.state.None? then [] else
      var s := d.state.value;
      if !Selected(s, i.account, i.managed) || (i.account.migration.Some? && s.selection.None?) then []
      else
        match ReviewGrant(i.checks, s, i.domain)
        case None => []
        case Some(grant) =>
          match ReviewOffer(i.checks, s, grant, true)
          case None => []
          case Some(offer) =>
            if !i.statusMatches then []
            else
              var signed := if s.selection.Some? then s.selection else i.vault(SelectionFields(s, i, grant, offer));
              if signed.None? then []
              else
                var s1 := s.(selection := signed);
                (if s.selection.Some? then [] else Append([], d, s1)) + Reserve(d, i, s1, grant, offer)
  }

  function Reserve(d: Disk, i: SelectInput, s: Transfer, grant: Fields, offer: Fields): seq<Disk>
    requires s.grant.Some? && s.offer.Some? && s.selection.Some?
  {
    match ReviewSelection(s, i, grant, offer)
    case None => []
    case Some(selection) =>
      if i.receipt.None? then []
      else
        match ReviewReservation(s, i, grant, offer, selection)
        case None => []
        case Some(_) =>
          if s.reservation.Some? && s.reservation != i.receipt then []
          else Append([], d, s.(reservation := i.receipt))
  }

  // ---------------------------------------------------------------- cancel

  datatype CancelReply = CancelReply(receipt: Wire, messagingKey: Text)

  datatype CancelInput = CancelInput(
    account: Account, domain: Text, checks: Checks, vault: Vault, reply: Option<CancelReply>, targetAnswers: bool)

  function CancellationFields(s: Transfer, i: CancelInput, grant: Fields): Fields
    requires s.grant.Some?
  {
    NO_FIELDS.(kind := CANCELLATION, did := s.did, nonce := grant.nonce, grantDigest := i.checks.digest(s.grant.value.payload),
               issuedAt := i.checks.now, expiresAt := i.checks.now + 3600)
  }

  /** Only owner-controlled transfers can be cancelled. */
  function Cancel(d: Disk, i: CancelInput): seq<Disk> {
    if d.state.None? then [] else
      var s := d.state.value;
      if !Selected(s.(cancellation := None), i.account, false) || i.account.migration.Some? || s.grant.None? then []
      else
        match ReviewGrant(i.checks, s, i.domain)
        case None => []
        case Some(grant) =>
          var signed := if s.cancellation.Some? then s.cancellation else i.vault(CancellationFields(s, i, grant));
          if signed.None? then []
          else
            var s1 := s.(cancellation := signed);
            (if s.cancellation.Some? then [] else Append([], d, s1)) + CancelSubmit(d, i, s1, grant)
  }

  function CancelSubmit(d: Disk, i: CancelInput, s: Transfer, grant: Fields): seq<Disk>
    requires s.grant.Some? && s.cancellation.Some?
  {
    match Verify(i.checks, s.cancellation.value, CANCELLATION, s.key, false)
    case None => []
    case Some(c) =>
      var retained := s.receipt.Some? && s.sourceMessagingKey.Some?;
      if c.did != s.did || c.nonce != grant.nonce || c.grantDigest != i.checks.digest(s.grant.value.payload)
         || (!retained && c.expiresAt <= i.checks.now)
      then []
      else
        var result := if retained then Some(CancelReply(s.receipt.value, s.sourceMessagingKey.value)) else i.reply;
        if result.None? then [] else CancelConfirmed(d, i, s, grant, result.value)
  }

  function CancelConfirmed(d: Disk, i: CancelInput, s: Transfer, grant: Fields, r: CancelReply): seq<Disk>
    requires s.grant.Some?
  {
    match Verify(i.checks, r.receipt, RECEIPT, r.messagingKey, false)
    case None => []
    case Some(v) =>
      if v.did != s.did || v.nonce != grant.nonce || v.sourceBase != Base(s.provider) || v.destinationDomain != i.domain
         || v.expiresAt <= i.checks.now || v.grantDigest != i.checks.digest(s.grant.value.payload)
      then []
      else if s.offer.Some? && !(i.checks.decode(s.offer.value.payload).Some?
                                 && i.checks.decode(s.offer.value.payload).value.invitationDigest == v.invitationDigest)
      then []
      else if s.receipt.Some? && s.receipt.value != r.receipt then []
      else
        var s1 := s.(receipt := Some(r.receipt), sourceMessagingKey := Some(r.messagingKey));
        var written := Append([], d, s1);
        if !i.targetAnswers then written else Append(written, d, s1.(targetAcknowledged := true))
  }

  // ---------------------------------------------------------------- export, sign, complete

  datatype ExportInput = ExportInput(
    managed: bool, account: Account, domain: Text, checks: Checks, snapshot: Option<Snapshot>, output: Text)

  /** The retained chain, if the records and the snapshot fit it and one another. */
  function Reviewed(c: Checks, s: Transfer, domain: Text, snapshot: Option<Snapshot>): (r: Option<Chain>)
    ensures r.Some? ==> snapshot.Some?
  {
    match Retained(c, s, domain)
    case None => None
    case Some(chain) => if snapshot.None? || !Matches(s, snapshot.value.manifest, chain.offer) then None else Some(chain)
  }

  /** Export writes the snapshot file once and leaves the state alone. */
  function Export(d: Disk, i: ExportInput): seq<Disk> {
    if d.state.None? then [] else
      var s := d.state.value;
      var mine := if i.managed
                  then s.managed && s.provider == i.account.provider && s.accountId == i.account.accountId && s.did == i.account.did
                       && i.account.managed && i.account.mayWrite
                  else Selected(s, i.account, false);
      if !mine || i.account.migration.None? || (i.account.migration.value != "fenced" && i.account.migration.value != "exported") then []
      else if Reviewed(i.checks, s, i.domain, i.snapshot).None? then []
      else if i.output in d.files then [] else [d.(files := d.files[i.output := SnapshotFile])]
  }

  /** The vault's public half. */
  datatype Keys = Keys(did: Text, identityKey: Text, recoveryKey: Text)

  /** `cid` is that of an operation signed now; `evidenceOk` says whether the rest of the snapshot's evidence is in order. */
  datatype SignInput = SignInput(
    domain: Text, checks: Checks, snapshot: Option<Snapshot>, snapshotPath: Text,
    operationPath: Text, consentPath: Text, bindingPath: Text, approvalPath: Text,
    vault: Option<Keys>, evidenceOk: bool, cid: Text)

  function MakeOperation(m: Manifest, offer: Fields, managed: bool): Operation {
    Operation(m.prior, offer.rotationKey, if managed then Some(offer.identityKey) else None, offer.messagingKey, m.destinationBase)
  }

  function ConsentTerms(m: Manifest, digest: Text, address: Text, cid: Text): Terms {
    Terms(m.did, m.transferId, digest, cid, m.sourceBase, m.destinationBase, address, m.rotationKey, m.messagingKey,
          m.custodyRecoveryKey, m.custodyIdentityKey)
  }

  /** What is to be signed, and what artifacts that are already there are held against. */
  datatype Signing = Signing(manifest: Manifest, digest: Text, operation: Operation, cid: Text, address: Text, now: int)

  /** The keys in the vault are those of the snapshot's custody evidence. */
  predicate Unlocked(i: SignInput, m: Manifest) {
    i.vault == Some(Keys(m.did, m.custodyIdentityKey, m.custodyRecoveryKey)) && i.evidenceOk
  }

  function SigningOf(i: SignInput, chain: Chain): Signing
    requires i.snapshot.Some?
  {
    var m := i.snapshot.value.manifest;
    Signing(m, i.snapshot.value.digest, MakeOperation(m, chain.offer, false), i.cid, chain.reservation.address, i.checks.now)
  }

  function NewOperation(w: Signing): File { OperationFile(w.operation, w.manifest.custodyRecoveryKey, w.cid) }

  /** A consent lapses an hour after it was signed. */
  function NewConsent(w: Signing, cid: Text): File {
    ConsentFile(ConsentTerms(w.manifest, w.digest, w.address, cid), w.manifest.custodyIdentityKey, w.now, w.now + 3600)
  }

  function NewBinding(w: Signing): File { BindingFile(w.address, w.manifest.did, w.manifest.custodyIdentityKey) }

  predicate AcceptsOperation(w: Signing, f: File) {
    f.OperationFile? && f.operation == w.operation && f.signer == w.manifest.custodyRecoveryKey
  }

  predicate AcceptsConsent(w: Signing, f: File, cid: Text) {
    && f.ConsentFile? && f.signer == w.manifest.custodyIdentityKey && f.expiresAt > w.now
    && f.terms == ConsentTerms(w.manifest, w.digest, w.address, cid)
  }

  predicate AcceptsBinding(w: Signing, f: File) { f == NewBinding(w) }

  function Sign(d: Disk, i: SignInput, managed: bool): seq<Disk> {
    if d.state.None? || d.state.value.managed != managed then [] else
      var s := d.state.value;
      match Reviewed(i.checks, s, i.domain, i.snapshot)
      case None => []
      case Some(chain) =>
        if managed then SignManaged(d, i, s, chain)
        else
          var review := OwnerReview(s, i);
          if s.cutover.Some? && !SameReview(s.cutover.value, review) then []
          else if review.operationCid.Some? && !(i.operationPath in d.files && i.consentPath in d.files && i.bindingPath in d.files) then []
          else
            var s1 := s.(cutover := Some(review));
            Append([], d, s1)
            + (if Unlocked(i, i.snapshot.value.manifest) then SignArtifacts(d.(state := Some(s1)), i, s1, SigningOf(i, chain)) else [])
  }

  /** The review of an owner-controlled cutover: what is signed, and where to. */
  function OwnerReview(s: Transfer, i: SignInput): Cutover
    requires i.snapshot.Some?
  {
    Cutover(i.snapshot.value.digest, "", i.operationPath, i.consentPath, i.bindingPath,
            if s.cutover.Some? then s.cutover.value.operationCid else None)
  }

  predicate SameReview(c: Cutover, r: Cutover) {
    && c.snapshotDigest == r.snapshotDigest && c.snapshotPath == r.snapshotPath
    && c.operationPath == r.operationPath && c.consentPath == r.consentPath && c.bindingPath == r.bindingPath
  }

  /** The three artifacts in their order; what exists is reviewed, what does not is created. */
  function SignArtifacts(d: Disk, i: SignInput, s: Transfer, w: Signing): seq<Disk>
    requires s.cutover.Some?
  {
    var hasOp, hasConsent, hasBinding := i.operationPath in d.files, i.consentPath in d.files, i.bindingPath in d.files;
    if (!hasOp && (hasConsent || hasBinding)) || (!hasConsent && hasBinding) then []
    else if hasOp && !AcceptsOperation(w, d.files[i.operationPath]) then []
    else
      var d1 := if hasOp then d else d.(files := d.files[i.operationPath := NewOperation(w)]);
      var cid := if hasOp then d.files[i.operationPath].cid else w.cid;
      (if hasOp then [] else [d1]) + SignConsent(d1, i, s, w, cid, hasConsent, hasBinding)
  }

  function SignConsent(d: Disk, i: SignInput, s: Transfer, w: Signing, cid: Text, hasConsent: bool, hasBinding: bool): seq<Disk>
    requires s.cutover.Some?
  {
    if hasConsent && !(i.consentPath in d.files && AcceptsConsent(w, d.files[i.consentPath], cid)) then []
    else if !hasConsent && i.consentPath in d.files then []
    else
      var d1 := if hasConsent then d else d.(files := d.files[i.consentPath := NewConsent(w, cid)]);
      (if hasConsent then [] else [d1]) + SignBinding(d1, i, s, w, cid, hasBinding)
  }

  function SignBinding(d: Disk, i: SignInput, s: Transfer, w: Signing, cid: Text, hasBinding: bool): seq<Disk>
    requires s.cutover.Some?
  {
    if hasBinding && !(i.bindingPath in d.files && AcceptsBinding(w, d.files[i.bindingPath])) then []
    else if !hasBinding && i.bindingPath in d.files then []
    else
      var d1 := if hasBinding then d else d.(files := d.files[i.bindingPath := NewBinding(w)]);
      var c := s.cutover.value;
      (if hasBinding then [] else [d1])
      + (if c.operationCid.Some? && c.operationCid.value != cid then []
         else Append([], d1, s.(cutover := Some(c.(operationCid := Some(cid))))))
  }

  /** The vault's keys are the ones the managed transfer names as its owner's. */
  predicate UnlockedByOwner(i: SignInput, s: Transfer) {
    && i.vault.Some? && i.vault.value.did == s.did && i.vault.value.recoveryKey == s.ownerRecoveryKey
    && i.evidenceOk
  }

  /** The managed flow signs two files in one go and records them last. */
  function SignManaged(d: Disk, i: SignInput, s: Transfer, chain: Chain): seq<Disk>
    requires i.snapshot.Some?
  {
    if s.cutover.Some? then []
    else if !UnlockedByOwner(i, s) then []
    else if i.operationPath in d.files then []
    else
      var m := i.snapshot.value.manifest;
      var d1 := d.(files := d.files[i.operationPath := OperationFile(MakeOperation(m, chain.offer, true), s.ownerRecoveryKey, i.cid)]);
      if i.approvalPath in d1.files then [d1]
      else
        var d2 := d1.(files := d1.files[i.approvalPath := ApprovalFile]);
        [d1, d2] + Append([], d2, s.(cutover := Some(ManagedReview(i))))
  }

  function ManagedReview(i: SignInput): Cutover
    requires i.snapshot.Some?
  {
    Cutover(i.snapshot.value.digest, i.snapshotPath, i.operationPath, i.approvalPath, "", Some(i.cid))
  }

  datatype CompleteReply = CompleteReply(valid: bool, active: bool, receipt: Wire)

  datatype CompleteInput = CompleteInput(
    domain: Text, checks: Checks, snapshot: Option<Snapshot>, snapshotPath: Text, approvalValid: bool,
    reply: Option<CompleteReply>, sourceAnswers: bool)

  /** The retained consent is the account owner's to this very cutover; that it may have lapsed by now does not matter. */
  predicate ConsentCompletes(s: Transfer, chain: Chain, n: Snapshot, f: File, cid: Text) {
    && f.ConsentFile? && f.signer == s.key
    && f.terms == Terms(s.did, chain.offer.transferId, n.digest, cid, Base(s.provider), Base(s.destination), chain.reservation.address,
                        chain.offer.rotationKey, chain.offer.messagingKey, n.manifest.custodyRecoveryKey, s.key)
    && 0 < f.expiresAt - f.createdAt <= 604800
  }

  /** The artifacts that completion submits are there, and are the right ones as far as it looks. */
  predicate ArtifactsComplete(d: Disk, i: CompleteInput, s: Transfer, chain: Chain)
    requires s.cutover.Some? && i.snapshot.Some?
  {
    var c := s.cutover.value;
    && c.operationCid.Some?
    && c.operationPath in d.files && d.files[c.operationPath].OperationFile? && d.files[c.operationPath].cid == c.operationCid.value
    && c.consentPath in d.files
    && if s.managed then i.approvalValid
       else c.bindingPath in d.files && ConsentCompletes(s, chain, i.snapshot.value, d.files[c.consentPath], c.operationCid.value)
  }

  function Complete(d: Disk, i: CompleteInput, managed: bool): seq<Disk> {
    if d.state.None? || d.state.value.cutover.None? then [] else
      var s := d.state.value;
      var c := s.cutover.value;
      if s.managed != managed || (managed && c.snapshotPath != i.snapshotPath) then []
      else
        match Reviewed(i.checks, s, i.domain, i.snapshot)
        case None => []
        case Some(chain) =>
          if i.snapshot.value.digest != c.snapshotDigest || !ArtifactsComplete(d, i, s, chain) then []
          else if i.reply.None? || !i.reply.value.valid || !i.reply.value.active then []
          else if s.activationReceipt.Some? && s.activationReceipt.value != i.reply.value.receipt then []
          else
            var s1 := s.(activationReceipt := Some(i.reply.value.receipt));
            var written := Append([], d, s1);
            if !i.sourceAnswers then written else Append(written, d, s1.(retired := true))
  }

  // ---------------------------------------------------------------- runs

  datatype Command =
    | DoOffer(offer: OfferInput)
    | DoSelect(select: SelectInput)
    | DoCancel(cancel: CancelInput)
    | DoExport(export_: ExportInput)
    | DoSign(sign: SignInput, managed: bool)
    | DoComplete(complete: CompleteInput, managed: bool)

  /** The disks a command leaves behind, one per write. */
  function Writes(d: Disk, c: Command): seq<Disk> {
    match c
    case DoOffer(i) => Offer(d, i)
    case DoSelect(i) => Select(d, i)
    case DoCancel(i) => Cancel(d, i)
    case DoExport(i) => Export(d, i)
    case DoSign(i, managed) => Sign(d, i, managed)
    case DoComplete(i, managed) => Complete(d, i, managed)
  }

  /** A command that dies after `survives` writes; a larger number lets it run to its end. */
  datatype Attempt = Attempt(command: Command, survives: nat)

  function After(d: Disk, a: Attempt): Disk {
    Left(d, Writes(d, a.command), a.survives)
  }

  function Run(d: Disk, attempts: seq<Attempt>): Disk
    decreases |attempts|
  {
    if attempts == [] then d else Run(After(d, attempts[0]), attempts[1..])
  }

  // ---------------------------------------------------------------- write-once

  ghost predicate Kept<T>(a: Option<T>, b: Option<T>) { a.Some? ==> b == a }

  ghost predicate CutoverKept(a: Option<Cutover>, b: Option<Cutover>) {
    a.Some? ==>
      && b.Some?
      && SameReview(a.value, b.value)
      && Kept(a.value.operationCid, b.value.operationCid)
  }

  /** Nothing that was retained is changed or lost. */
  ghost predicate Extends(a: Transfer, b: Transfer) {
    && a.managed == b.managed && a.provider == b.provider && a.accountId == b.accountId && a.did == b.did
    && a.destination == b.destination && a.key == b.key
    && a.ownerRecoveryKey == b.ownerRecoveryKey && a.sourceIdentityKey == b.sourceIdentityKey
    && Kept(a.grant, b.grant) && Kept(a.acknowledgement, b.acknowledgement) && Kept(a.offer, b.offer)
    && Kept(a.selection, b.selection) && Kept(a.reservation, b.reservation)
    && Kept(a.cancellation, b.cancellation) && Kept(a.receipt, b.receipt)
    && CutoverKept(a.cutover, b.cutover) && Kept(a.activationReceipt, b.activationReceipt)
    && (a.targetAcknowledged ==> b.targetAcknowledged) && (a.retired ==> b.retired)
    // A reservation is only ever added behind a selection.
    && (a.reservation.None? && b.reservation.Some? ==> b.selection.Some?)
  }

  ghost predicate DiskExtends(a: Disk, b: Disk) {
    && (a.state.Some? ==> b.state.Some? && Extends(a.state.value, b.state.value))
    && (forall p | p in a.files :: p in b.files && b.files[p] == a.files[p])
  }

  // ---------------------------------------------------------------- artifacts in order

  ghost predicate HasOperation(d: Disk, c: Cutover) { c.operationPath in d.files && d.files[c.operationPath].OperationFile? }

  ghost predicate HasConsent(d: Disk, c: Cutover) { c.consentPath in d.files && d.files[c.consentPath].ConsentFile? }

  ghost predicate HasBinding(d: Disk, c: Cutover) { c.bindingPath in d.files && d.files[c.bindingPath].BindingFile? }

  /**
   * The artifacts of an owner-controlled cutover are a prefix of operation, consent, binding, and the
   * operation CID is recorded only when all three are there, as that of the operation.
   */
  ghost predicate ArtifactsInOrder(d: Disk) {
    d.state.Some? && !d.state.value.managed && d.state.value.cutover.Some? ==>
      var c := d.state.value.cutover.value;
      && (HasConsent(d, c) ==> HasOperation(d, c))
      && (HasBinding(d, c) ==> HasConsent(d, c))
      && (c.operationCid.Some? ==> HasBinding(d, c) && d.files[c.operationPath].cid == c.operationCid.value)
  }

  /** No consent or binding lies about before a cutover names its paths. */
  ghost predicate NoStrayArtifacts(d: Disk) {
    (d.state.Some? ==> d.state.value.managed || d.state.value.cutover.None?) ==>
      forall p | p in d.files :: !d.files[p].ConsentFile? && !d.files[p].BindingFile?
  }

  ghost predicate InOrder(d: Disk) { ArtifactsInOrder(d) && NoStrayArtifacts(d) }

  /** No reservation is retained without the selection it answers. */
  ghost predicate SelectedFirst(d: Disk) {
    d.state.Some? && d.state.value.reservation.Some? ==> d.state.value.selection.Some?
  }

  /**
   * What every write keeps: retained records, written files, the order of an owner-controlled
   * cutover's artifacts, and that of selection and reservation.
   */
  ghost predicate Sound(d: Disk, e: Disk) {
    && DiskExtends(d, e)
    && (InOrder(d) ==> InOrder(e))
    && (SelectedFirst(d) ==> SelectedFirst(e))
  }

  ghost predicate AllSound(d: Disk, ds: seq<Disk>) { forall e | e in ds :: Sound(d, e) }

  lemma SoundItself(d: Disk)
    ensures Sound(d, d)
  {
  }

  lemma ExtendsTransitive(a: Transfer, b: Transfer, c: Transfer)
    requires Extends(a, b) && Extends(b, c)
    ensures Extends(a, c)
  {
  }

  lemma SoundTransitive(a: Disk, b: Disk, c: Disk)
    requires Sound(a, b) && Sound(b, c)
    ensures Sound(a, c)
  {
    hide Extends, InOrder, SelectedFirst;
    if a.state.Some? {
      ExtendsTransitive(a.state.value, b.state.value, c.state.value);
    }
  }

  lemma SoundBehind(d: Disk, e: Disk, ds: seq<Disk>)
    requires Sound(d, e) && AllSound(e, ds)
    ensures AllSound(d, ds)
  {
    hide Sound;
    forall f | f in ds
      ensures Sound(d, f)
    {
      SoundTransitive(d, e, f);
    }
  }

  // ---------------------------------------------------------------- commands that only record

  /** The record grows and the cutover stays as it was. */
  ghost predicate Grows(a: Transfer, b: Transfer) { Extends(a, b) && b.cutover == a.cutover }

  ghost predicate Recorded(d: Disk, s: Transfer) {
    if d.state.Some? then Grows(d.state.value, s) else s.cutover.None? && (s.reservation.Some? ==> s.selection.Some?)
  }

  ghost predicate AllRecorded(d: Disk, ds: seq<Disk>) {
    forall e | e in ds :: e.files == d.files && e.state.Some? && Recorded(d, e.state.value)
  }

  lemma RecordedIsSound(d: Disk, ds: seq<Disk>)
    requires AllRecorded(d, ds)
    ensures AllSound(d, ds)
  {
    forall e | e in ds
      ensures Sound(d, e)
    {
      assert Recorded(d, e.state.value);
    }
  }

  lemma RecordedOn(d: Disk, s: Transfer, t: Transfer)
    requires Recorded(d, s) && Grows(s, t)
    ensures Recorded(d, t)
  {
    if d.state.Some? {
      hide Extends;
      ExtendsTransitive(d.state.value, s, t);
    }
  }

  /** Writing one more record that was not there, or the same one again. */
  lemma OneMore(written: seq<Disk>, d: Disk, s: Transfer, t: Transfer)
    requires AllRecorded(d, written) && Recorded(d, s) && Grows(s, t)
    ensures Recorded(d, t) && AllRecorded(d, Append(written, d, t))
  {
    hide Grows, Recorded;
    RecordedOn(d, s, t);
  }

  lemma Joined(d: Disk, a: seq<Disk>, b: seq<Disk>)
    requires AllRecorded(d, a) && AllRecorded(d, b)
    ensures AllRecorded(d, a + b)
  {
    hide Recorded;
  }

  lemma OfferReceivedRecords(d: Disk, i: OfferInput, s: Transfer, grant: Fields, reply: OfferReply)
    requires s.grant.Some? && Recorded(d, s)
    ensures AllRecorded(d, OfferReceived(d, i, s, grant, reply))
  {
    hide Recorded, ReviewOffer;
    if reply.offer.Some? && !(s.offer.Some? && s.offer != reply.offer) {
      OneMore([], d, s, s.(offer := reply.offer));
    }
  }

  lemma OfferBehindGrantRecords(d: Disk, i: OfferInput, s: Transfer)
    requires s.grant.Some? && Recorded(d, s)
    ensures AllRecorded(d, OfferBehindGrant(d, i, s))
  {
    hide Recorded, ReviewGrant, ReviewAck, OfferReceived, AllRecorded, Append;
    NothingRecorded(d);
    var review := ReviewGrant(i.checks, s, i.domain);
    if review.Some? && i.reply.Some? {
      var grant, reply := review.value, i.reply.value;
      OfferReceivedRecords(d, i, s, grant, reply);
      if reply.acknowledgement.Some? && !(s.acknowledgement.Some? && s.acknowledgement != reply.acknowledgement) {
        var s1 := s.(acknowledgement := reply.acknowledgement);
        OneMore([], d, s, s1);
        OfferReceivedRecords(d, i, s1, grant, reply);
        Joined(d, Append([], d, s1), OfferReceived(d, i, s1, grant, reply));
      }
    }
  }

  lemma NothingRecorded(d: Disk)
    ensures AllRecorded(d, [])
  {
  }

  lemma OfferOnRecords(d: Disk, i: OfferInput, s: Transfer)
    requires Recorded(d, s)
    ensures AllRecorded(d, OfferOn(d, i, s))
  {
    hide Recorded, OfferBehindGrant, AllRecorded, Append, GrantFields, Selected;
    NothingRecorded(d);
    var signed := if s.grant.Some? then s.grant else i.vault(GrantFields(s, i));
    if signed.Some? {
      var s1 := s.(grant := signed);
      OneMore([], d, s, s1);
      OfferBehindGrantRecords(d, i, s1);
      Joined(d, if s.grant.Some? then [] else Append([], d, s1), OfferBehindGrant(d, i, s1));
    }
  }

  lemma OfferRecords(d: Disk, i: OfferInput)
    ensures AllRecorded(d, Offer(d, i))
  {
    hide Recorded, OfferOn, AllRecorded, Append;
    NothingRecorded(d);
    var s := if d.state.Some? then d.state.value else NewTransfer(i);
    StartRecorded(d, i, s);
    OfferOnRecords(d, i, s);
    Joined(d, if d.state.Some? then [] else Append([], d, s), OfferOn(d, i, s));
  }

  lemma StartRecorded(d: Disk, i: OfferInput, s: Transfer)
    requires s == if d.state.Some? then d.state.value else NewTransfer(i)
    ensures Recorded(d, s) && AllRecorded(d, Append([], d, s))
  {
  }

  lemma ReserveRecords(d: Disk, i: SelectInput, s: Transfer, grant: Fields, offer: Fields)
    requires s.grant.Some? && s.offer.Some? && s.selection.Some? && Recorded(d, s)
    ensures AllRecorded(d, Reserve(d, i, s, grant, offer))
  {
    hide Recorded, ReviewSelection, ReviewReservation, AllRecorded, Append;
    NothingRecorded(d);
    if i.receipt.Some? && !(s.reservation.Some? && s.reservation != i.receipt) {
      OneMore([], d, s, s.(reservation := i.receipt));
    }
  }

  lemma SelectRecords(d: Disk, i: SelectInput)
    ensures AllRecorded(d, Select(d, i))
  {
    hide Recorded, ReviewGrant, ReviewOffer, Reserve, AllRecorded, Append, SelectionFields, Selected;
    NothingRecorded(d);
    if Select(d, i) != [] {
      var s := d.state.value;
      ItselfRecorded(d);
      var grant := ReviewGrant(i.checks, s, i.domain).value;
      HasGrant(i.checks, s, i.domain);
      var offer := ReviewOffer(i.checks, s, grant, true).value;
      HasOffer(i.checks, s, grant, true);
      var signed := if s.selection.Some? then s.selection else i.vault(SelectionFields(s, i, grant, offer));
      var s1 := s.(selection := signed);
      OneMore([], d, s, s1);
      ReserveRecords(d, i, s1, grant, offer);
      Joined(d, if s.selection.Some? then [] else Append([], d, s1), Reserve(d, i, s1, grant, offer));
    }
  }

  lemma HasGrant(c: Checks, s: Transfer, domain: Text)
    requires ReviewGrant(c, s, domain).Some?
    ensures s.grant.Some?
  {
    hide Verify;
  }

  lemma HasOffer(c: Checks, s: Transfer, grant: Fields, live: bool)
    requires s.grant.Some? && ReviewOffer(c, s, grant, live).Some?
    ensures s.offer.Some?
  {
    hide Verify, ReviewAck;
  }

  lemma ItselfRecorded(d: Disk)
    requires d.state.Some?
    ensures Recorded(d, d.state.value)
  {
  }

  lemma CancelConfirmedRecords(d: Disk, i: CancelInput, s: Transfer, grant: Fields, r: CancelReply)
    requires s.grant.Some? && Recorded(d, s)
    ensures AllRecorded(d, CancelConfirmed(d, i, s, grant, r))
  {
    hide Recorded, Verify, AllRecorded, Append;
    NothingRecorded(d);
    if !(s.receipt.Some? && s.receipt.value != r.receipt) {
      var s1 := s.(receipt := Some(r.receipt), sourceMessagingKey := Some(r.messagingKey));
      OneMore([], d, s, s1);
      OneMore(Append([], d, s1), d, s1, s1.(targetAcknowledged := true));
    }
  }

  lemma CancelSubmitRecords(d: Disk, i: CancelInput, s: Transfer, grant: Fields)
    requires s.grant.Some? && s.cancellation.Some? && Recorded(d, s)
    ensures AllRecorded(d, CancelSubmit(d, i, s, grant))
  {
    hide Recorded, Verify, AllRecorded, CancelConfirmed;
    NothingRecorded(d);
    var retained := s.receipt.Some? && s.sourceMessagingKey.Some?;
    var result := if retained then Some(CancelReply(s.receipt.value, s.sourceMessagingKey.value)) else i.reply;
    if result.Some? {
      CancelConfirmedRecords(d, i, s, grant, result.value);
    }
  }

  lemma CancelRecords(d: Disk, i: CancelInput)
    ensures AllRecorded(d, Cancel(d, i))
  {
    hide Recorded, ReviewGrant, CancelSubmit, AllRecorded, Append, CancellationFields, Selected;
    NothingRecorded(d);
    if Cancel(d, i) != [] {
      var s := d.state.value;
      ItselfRecorded(d);
      var grant := ReviewGrant(i.checks, s, i.domain).value;
      var signed := if s.cancellation.Some? then s.cancellation else i.vault(CancellationFields(s, i, grant));
      var s1 := s.(cancellation := signed);
      OneMore([], d, s, s1);
      CancelSubmitRecords(d, i, s1, grant);
      Joined(d, if s.cancellation.Some? then [] else Append([], d, s1), CancelSubmit(d, i, s1, grant));
    }
  }

  lemma CompleteRecords(d: Disk, i: CompleteInput, managed: bool)
    ensures AllRecorded(d, Complete(d, i, managed))
  {
    hide Recorded, Reviewed, AllRecorded, Append;
    NothingRecorded(d);
    if Complete(d, i, managed) != [] {
      var s := d.state.value;
      ItselfRecorded(d);
      var s1 := s.(activationReceipt := Some(i.reply.value.receipt));
      OneMore([], d, s, s1);
      OneMore(Append([], d, s1), d, s1, s1.(retired := true));
    }
  }

  // ---------------------------------------------------------------- commands that write files

  lemma ExportIsSound(d: Disk, i: ExportInput)
    ensures AllSound(d, Export(d, i))
  {
    hide Reviewed, Extends, Selected;
    if d.state.Some? {
      ExtendsItself(d.state.value);
    }
  }

  lemma ExtendsItself(s: Transfer)
    ensures Extends(s, s)
  {
  }

  /** The state on the disk has a cutover that names the paths of this signing. */
  ghost predicate Reviewing(d: Disk, i: SignInput, s: Transfer) {
    && d.state == Some(s) && !s.managed && s.cutover.Some?
    && s.cutover.value.operationPath == i.operationPath
    && s.cutover.value.consentPath == i.consentPath
    && s.cutover.value.bindingPath == i.bindingPath
  }

  /** A new artifact whose predecessor is there keeps the order. */
  lemma Created(d: Disk, i: SignInput, s: Transfer, path: Text, file: File)
    requires Reviewing(d, i, s) && path !in d.files
    requires file.ConsentFile? ==> path == i.consentPath && HasOperation(d, s.cutover.value)
    requires file.BindingFile? ==> path == i.bindingPath && HasConsent(d, s.cutover.value)
    requires file.OperationFile? || file.ConsentFile? || file.BindingFile?
    ensures Sound(d, d.(files := d.files[path := file]))
  {
    hide Extends;
    ExtendsItself(s);
  }

  lemma BindingIsSound(d: Disk, i: SignInput, s: Transfer, w: Signing, cid: Text, has: bool)
    requires Reviewing(d, i, s) && HasConsent(d, s.cutover.value)
    requires HasOperation(d, s.cutover.value) && d.files[i.operationPath].cid == cid
    ensures AllSound(d, SignBinding(d, i, s, w, cid, has))
  {
    hide Sound;
    if SignBinding(d, i, s, w, cid, has) != [] {
      SoundItself(d);
      var d1 := if has then d else d.(files := d.files[i.bindingPath := NewBinding(w)]);
      if !has {
        Created(d, i, s, i.bindingPath, NewBinding(w));
      }
      var c := s.cutover.value;
      if !(c.operationCid.Some? && c.operationCid.value != cid) {
        var s1 := s.(cutover := Some(c.(operationCid := Some(cid))));
        CidRecorded(d1, s, s1);
        SoundTransitive(d, d1, d1.(state := Some(s1)));
      }
    }
  }

  /** Recording the cutover of an owner-controlled transfer, or more of the same one. */
  lemma CutoverRecorded(d: Disk, s: Transfer, t: Transfer)
    requires d.state == Some(s) && !s.managed && t == s.(cutover := t.cutover) && t.cutover.Some?
    requires CutoverKept(s.cutover, t.cutover)
    requires s.cutover.None? ==> t.cutover.value.operationCid.None?
    requires s.cutover.Some? ==> t.cutover.value.operationCid == s.cutover.value.operationCid
    ensures Sound(d, d.(state := Some(t)))
  {
  }

  /** Recording the operation's CID, once all three artifacts are there. */
  lemma CidRecorded(d: Disk, s: Transfer, t: Transfer)
    requires d.state == Some(s) && !s.managed && t == s.(cutover := t.cutover) && s.cutover.Some? && t.cutover.Some?
    requires CutoverKept(s.cutover, t.cutover) && t.cutover.value.operationCid.Some?
    requires var c := t.cutover.value;
             HasConsent(d, c) && HasBinding(d, c) && HasOperation(d, c) && d.files[c.operationPath].cid == c.operationCid.value
    ensures Sound(d, d.(state := Some(t)))
  {
  }

  lemma ConsentIsSound(d: Disk, i: SignInput, s: Transfer, w: Signing, cid: Text, has: bool, hasBinding: bool)
    requires Reviewing(d, i, s) && HasOperation(d, s.cutover.value) && d.files[i.operationPath].cid == cid
    ensures AllSound(d, SignConsent(d, i, s, w, cid, has, hasBinding))
  {
    hide Sound, SignBinding;
    if SignConsent(d, i, s, w, cid, has, hasBinding) != [] {
      SoundItself(d);
      var d1 := if has then d else d.(files := d.files[i.consentPath := NewConsent(w, cid)]);
      if !has {
        Created(d, i, s, i.consentPath, NewConsent(w, cid));
      }
      BindingIsSound(d1, i, s, w, cid, hasBinding);
      SoundBehind(d, d1, SignBinding(d1, i, s, w, cid, hasBinding));
    }
  }

  lemma ArtifactsAreSound(d: Disk, i: SignInput, s: Transfer, w: Signing)
    requires Reviewing(d, i, s)
    ensures AllSound(d, SignArtifacts(d, i, s, w))
  {
    hide Sound, SignConsent;
    if SignArtifacts(d, i, s, w) != [] {
      SoundItself(d);
      var hasOp, hasConsent, hasBinding := i.operationPath in d.files, i.consentPath in d.files, i.bindingPath in d.files;
      var d1 := if hasOp then d else d.(files := d.files[i.operationPath := NewOperation(w)]);
      var cid := if hasOp then d.files[i.operationPath].cid else w.cid;
      if !hasOp {
        Created(d, i, s, i.operationPath, NewOperation(w));
      }
      ConsentIsSound(d1, i, s, w, cid, hasConsent, hasBinding);
      SoundBehind(d, d1, SignConsent(d1, i, s, w, cid, hasConsent, hasBinding));
    }
  }

  lemma ManagedIsSound(d: Disk, i: SignInput, s: Transfer, chain: Chain)
    requires d.state == Some(s) && s.managed && i.snapshot.Some?
    ensures AllSound(d, SignManaged(d, i, s, chain))
  {
    hide Extends, MakeOperation;
    ExtendsItself(s);
    if s.cutover.None? {
      CutoverExtends(s, s.(cutover := Some(ManagedReview(i))));
    }
  }

  lemma CutoverExtends(s: Transfer, t: Transfer)
    requires t == s.(cutover := t.cutover) && CutoverKept(s.cutover, t.cutover)
    ensures Extends(s, t)
  {
  }

  lemma SignIsSound(d: Disk, i: SignInput, managed: bool)
    ensures AllSound(d, Sign(d, i, managed))
  {
    hide Reviewed, Sound, SignManaged, SignArtifacts, SigningOf;
    if Sign(d, i, managed) != [] {
      var s := d.state.value;
      var chain := Reviewed(i.checks, s, i.domain, i.snapshot).value;
      if managed {
        ManagedIsSound(d, i, s, chain);
      } else {
        var s1 := s.(cutover := Some(OwnerReview(s, i)));
        var e := d.(state := Some(s1));
        CutoverRecorded(d, s, s1);
        ArtifactsAreSound(e, i, s1, SigningOf(i, chain));
        SoundBehind(d, e, SignArtifacts(e, i, s1, SigningOf(i, chain)));
      }
    }
  }

  // ---------------------------------------------------------------- every run

  lemma WritesAreSound(d: Disk, c: Command)
    ensures AllSound(d, Writes(d, c))
  {
    hide Offer, Select, Cancel, Export, Sign, Complete, AllSound, AllRecorded;
    match c
    case DoOffer(i) =>
      OfferRecords(d, i);
      RecordedIsSound(d, Offer(d, i));
    case DoSelect(i) =>
      SelectRecords(d, i);
      RecordedIsSound(d, Select(d, i));
    case DoCancel(i) =>
      CancelRecords(d, i);
      RecordedIsSound(d, Cancel(d, i));
    case DoExport(i) =>
      ExportIsSound(d, i);
    case DoSign(i, managed) =>
      SignIsSound(d, i, managed);
    case DoComplete(i, managed) =>
      CompleteRecords(d, i, managed);
      RecordedIsSound(d, Complete(d, i, managed));
  }

  lemma AttemptIsSound(d: Disk, a: Attempt)
    ensures Sound(d, After(d, a))
  {
    hide Writes, Sound;
    SoundItself(d);
    WritesAreSound(d, a.command);
  }

  lemma {:induction false} EveryRunIsSound(d: Disk, attempts: seq<Attempt>)
    ensures Sound(d, Run(d, attempts))
    decreases |attempts|
  {
    hide Sound, After;
    if attempts == [] {
      SoundItself(d);
    } else {
      AttemptIsSound(d, attempts[0]);
      EveryRunIsSound(After(d, attempts[0]), attempts[1..]);
      SoundTransitive(d, After(d, attempts[0]), Run(d, attempts));
    }
  }

  /** Over any sequence of commands, answers and crashes, every retained record is written once. */
  lemma RecordsAreWriteOnce(d: Disk, attempts: seq<Attempt>)
    ensures DiskExtends(d, Run(d, attempts))
  {
    hide Run;
    EveryRunIsSound(d, attempts);
  }

  /** In every run from a disk without artifacts, what has been signed is such a prefix. */
  lemma ArtifactsStayInOrder(d: Disk, attempts: seq<Attempt>)
    requires InOrder(d)
    ensures InOrder(Run(d, attempts))
  {
    hide Run;
    EveryRunIsSound(d, attempts);
  }

  /** So no run leads to a reservation without the selection it answers. */
  lemma SelectionComesFirst(d: Disk, attempts: seq<Attempt>)
    requires SelectedFirst(d)
    ensures SelectedFirst(Run(d, attempts))
  {
    hide Run;
    EveryRunIsSound(d, attempts);
  }

  // ---------------------------------------------------------------- cancellation is final

  ghost predicate Cancelled(d: Disk) { d.state.Some? && !d.state.value.managed && d.state.value.cancellation.Some? }

  /** Once a cancellation is retained, only the cancel command can still write anything. */
  lemma CancellationBlocks(d: Disk, c: Command)
    requires Cancelled(d) && !c.DoCancel?
    ensures Writes(d, c) == []
  {
  }

  /** The cancel command only ever touches the cancellation's own members. */
  ghost predicate OnlyCancelling(a: Disk, b: Disk) {
    && b.files == a.files
    && a.state.Some? && b.state.Some?
    && b.state.value.grant == a.state.value.grant && b.state.value.offer == a.state.value.offer
    && b.state.value.selection == a.state.value.selection && b.state.value.reservation == a.state.value.reservation
    && b.state.value.cutover == a.state.value.cutover && b.state.value.activationReceipt == a.state.value.activationReceipt
    && b.state.value.retired == a.state.value.retired
  }

  lemma CancelOnlyCancels(d: Disk, i: CancelInput)
    ensures forall e | e in Cancel(d, i) :: OnlyCancelling(d, e)
  {
    hide Verify, ReviewGrant, CancelSubmit, Selected;
    if Cancel(d, i) != [] {
      var s := d.state.value;
      var grant := ReviewGrant(i.checks, s, i.domain).value;
      var signed := if s.cancellation.Some? then s.cancellation else i.vault(CancellationFields(s, i, grant));
      SubmitOnlyCancels(d, i, s.(cancellation := signed), grant);
    }
  }

  lemma SubmitOnlyCancels(d: Disk, i: CancelInput, s: Transfer, grant: Fields)
    requires s.grant.Some? && s.cancellation.Some? && OnlyCancelling(d, d.(state := Some(s)))
    ensures forall e | e in CancelSubmit(d, i, s, grant) :: OnlyCancelling(d, e)
  {
    hide Verify;
  }

  /** After a cancellation no run ever adds an offer, a selection, a reservation, an artifact or an activation. */
  lemma {:induction false} CancellationIsFinal(d: Disk, attempts: seq<Attempt>)
    requires Cancelled(d)
    ensures Cancelled(Run(d, attempts)) && OnlyCancelling(d, Run(d, attempts))
    decreases |attempts|
  {
    hide Writes, Cancel;
    if attempts != [] {
      var a := attempts[0];
      var e := After(d, a);
      AttemptIsSound(d, a);
      if a.command.DoCancel? {
        CancelOnlyCancels(d, a.command.cancel);
        WritesOfCancel(d, a.command.cancel);
      } else {
        CancellationBlocks(d, a.command);
      }
      assert OnlyCancelling(d, e);
      CancellationIsFinal(e, attempts[1..]);
    }
  }

  lemma WritesOfCancel(d: Disk, i: CancelInput)
    ensures Writes(d, DoCancel(i)) == Cancel(d, i)
  {
  }

  // ---------------------------------------------------------------- lifetimes nest

  /** Each of the four records lapses before the one it rests on, and none has lapsed yet. */
  ghost predicate Nested(s: Transfer, c: Checks) {
    && s.reservation.Some? && s.selection.Some? && s.offer.Some? && s.grant.Some?
    && c.decode(s.reservation.value.payload).Some? && c.decode(s.selection.value.payload).Some?
    && c.decode(s.offer.value.payload).Some? && c.decode(s.grant.value.payload).Some?
    && c.now < c.decode(s.reservation.value.payload).value.expiresAt
       <= c.decode(s.selection.value.payload).value.expiresAt
       <= c.decode(s.offer.value.payload).value.expiresAt
       <= c.decode(s.grant.value.payload).value.expiresAt
  }

  lemma LiveOffer(c: Checks, s: Transfer, domain: Text)
    requires ReviewGrant(c, s, domain).Some? && s.grant.Some?
    requires ReviewOffer(c, s, ReviewGrant(c, s, domain).value, true).Some? && s.offer.Some?
    ensures var grant := ReviewGrant(c, s, domain).value;
            var offer := ReviewOffer(c, s, grant, true).value;
            && c.decode(s.grant.value.payload) == Some(grant) && c.decode(s.offer.value.payload) == Some(offer)
            && offer.expiresAt <= grant.expiresAt
  {
    VerifyDecodes(c, s.grant.value, GrantKind(s.managed), OwnerKey(s), s.managed);
    OfferDecodes(c, s, ReviewGrant(c, s, domain).value, true);
    hide Verify, ReviewAck;
  }

  lemma LiveReservation(s: Transfer, i: SelectInput, grant: Fields, offer: Fields, selection: Fields)
    requires s.grant.Some? && s.offer.Some? && s.selection.Some? && i.receipt.Some?
    requires ReviewSelection(s, i, grant, offer) == Some(selection)
    requires ReviewReservation(s, i, grant, offer, selection).Some?
    ensures i.checks.decode(s.selection.value.payload) == Some(selection) && selection.expiresAt <= offer.expiresAt
    ensures i.checks.decode(i.receipt.value.payload).Some?
    ensures i.checks.now < i.checks.decode(i.receipt.value.payload).value.expiresAt <= selection.expiresAt
  {
    VerifyDecodes(i.checks, s.selection.value, SelectionKind(i.managed), OwnerKey(s), i.managed);
    VerifyDecodes(i.checks, i.receipt.value, ReservationKind(i.managed), offer.messagingKey, i.managed);
    hide Verify;
  }

  lemma ReserveNests(d: Disk, i: SelectInput, s: Transfer, grant: Fields, offer: Fields, e: Disk)
    requires s.grant.Some? && s.offer.Some? && s.selection.Some? && e in Reserve(d, i, s, grant, offer)
    requires i.checks.decode(s.grant.value.payload) == Some(grant) && i.checks.decode(s.offer.value.payload) == Some(offer)
    requires offer.expiresAt <= grant.expiresAt
    ensures e.state.Some? && e.state.value.reservation == i.receipt && Nested(e.state.value, i.checks)
  {
    hide ReviewSelection, ReviewReservation;
    LiveReservation(s, i, grant, offer, ReviewSelection(s, i, grant, offer).value);
  }

  /**
   * The reservation a selection retains, or retains again on a retry, lapses first, then the
   * selection, the offer, the grant.
   */
  lemma LifetimesNest(d: Disk, i: SelectInput, e: Disk)
    requires SelectedFirst(d)
    requires e in Select(d, i) && e.state.value.reservation.Some? && e.state.value.reservation == i.receipt
    ensures Nested(e.state.value, i.checks)
  {
    hide Verify, ReviewGrant, ReviewOffer, Reserve, SelectionFields, Selected, Nested;
    var s := d.state.value;
    var grant := ReviewGrant(i.checks, s, i.domain).value;
    HasGrant(i.checks, s, i.domain);
    var offer := ReviewOffer(i.checks, s, grant, true).value;
    HasOffer(i.checks, s, grant, true);
    LiveOffer(i.checks, s, i.domain);
    var signed := if s.selection.Some? then s.selection else i.vault(SelectionFields(s, i, grant, offer));
    ReserveNests(d, i, s.(selection := signed), grant, offer, e);
  }
}
