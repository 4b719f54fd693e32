/**
 * Whether a cutover can be finished: what an interrupted signing leaves behind, when one more signing
 * completes it, when none ever will, and whether what was signed is what completion takes.
 */
module CutoverRuns {
  import opened Octets
  import opened Options
  import opened Journals
  import opened TransferRecords
  import opened TransferRuns
  import opened TransferProgress

  /** All three artifacts are there, and the operation's CID is recorded. */
  ghost predicate SignedWhole(d: Disk) {
    && d.state.Some? && d.state.value.cutover.Some?
    && var c := d.state.value.cutover.value;
       && HasOperation(d, c) && HasConsent(d, c) && HasBinding(d, c)
       && c.operationCid == Some(d.files[c.operationPath].cid)
  }

  lemma WholeStays(d: Disk, e: Disk)
    requires SignedWhole(d) && DiskExtends(d, e)
    ensures SignedWhole(e)
  {
  }

  /** An owner-controlled transfer whose CID is recorded has been signed whole. */
  lemma RecordedIsWhole(d: Disk)
    requires InOrder(d) && d.state.Some? && !d.state.value.managed
    requires d.state.value.cutover.Some? && d.state.value.cutover.value.operationCid.Some?
    ensures SignedWhole(d)
  {
  }

  /** The disk after a signing that nothing interrupts. */
  ghost function Signed(d: Disk, i: SignInput): Disk { After(d, Attempt(DoSign(i, false), |Sign(d, i, false)|)) }

  // ---------------------------------------------------------------- when a signing finishes

  /** The records, the snapshot and the vault are in order, and the cutover is the one under review. */
  predicate ReadyToSign(d: Disk, i: SignInput) {
    && d.state.Some? && !d.state.value.managed
    && Reviewed(i.checks, d.state.value, i.domain, i.snapshot).Some?
    && Unlocked(i, i.snapshot.value.manifest)
    && (d.state.value.cutover.Some? ==> SameReview(d.state.value.cutover.value, OwnerReview(d.state.value, i)))
  }

  function WorkOf(d: Disk, i: SignInput): Signing
    requires ReadyToSign(d, i)
  {
    SigningOf(i, Reviewed(i.checks, d.state.value, i.domain, i.snapshot).value)
  }

  predicate DistinctPaths(i: SignInput) {
    i.operationPath != i.consentPath && i.consentPath != i.bindingPath && i.operationPath != i.bindingPath
  }

  /** Three paths, and at each of them what this signing accepts, or nothing there and behind it. */
  predicate Signable(files: map<Text, File>, i: SignInput, w: Signing) {
    && DistinctPaths(i)
    && (i.operationPath in files ==> AcceptsOperation(w, files[i.operationPath]))
    && (i.consentPath in files ==>
          i.operationPath in files && files[i.operationPath].OperationFile?
          && AcceptsConsent(w, files[i.consentPath], files[i.operationPath].cid))
    && (i.bindingPath in files ==> i.consentPath in files && AcceptsBinding(w, files[i.bindingPath]))
  }

  /** The last write records a CID. */
  ghost predicate Ends(ds: seq<Disk>) {
    ds != []
    && var d := ds[|ds| - 1]; d.state.Some? && d.state.value.cutover.Some? && d.state.value.cutover.value.operationCid.Some?
  }

  lemma EndsBehind(ds: seq<Disk>, es: seq<Disk>)
    requires !Ends(ds)
    ensures Ends(ds + es) <==> Ends(es)
    ensures es != [] ==> (ds + es)[|ds + es| - 1] == es[|es| - 1]
  {
    if es == [] {
      assert ds + es == ds;
    }
  }

  /** The cutover under review has no CID yet. */
  ghost predicate Unsigned(d: Disk, i: SignInput, s: Transfer) { Reviewing(d, i, s) && s.cutover.value.operationCid.None? }

  lemma BindingEnds(d: Disk, i: SignInput, s: Transfer, w: Signing, cid: Text, has: bool)
    requires Unsigned(d, i, s) && HasOperation(d, s.cutover.value) && HasConsent(d, s.cutover.value)
    requires d.files[i.operationPath].cid == cid
    ensures var ds := SignBinding(d, i, s, w, cid, has);
            && (Ends(ds) <==> if has then i.bindingPath in d.files && AcceptsBinding(w, d.files[i.bindingPath]) else i.bindingPath !in d.files)
            && (Ends(ds) ==> SignedWhole(ds[|ds| - 1]))
  {
  }

  lemma ConsentEnds(d: Disk, i: SignInput, s: Transfer, w: Signing, cid: Text, has: bool, hasBinding: bool)
    requires Unsigned(d, i, s) && HasOperation(d, s.cutover.value) && d.files[i.operationPath].cid == cid
    requires hasBinding ==> has
    ensures var ds := SignConsent(d, i, s, w, cid, has, hasBinding);
            var e := if has then d else d.(files := d.files[i.consentPath := NewConsent(w, cid)]);
            && (Ends(ds) <==>
                  && (if has then i.consentPath in d.files && AcceptsConsent(w, d.files[i.consentPath], cid) else i.consentPath !in d.files)
                  && (if hasBinding then i.bindingPath in e.files && AcceptsBinding(w, e.files[i.bindingPath]) else i.bindingPath !in e.files))
            && (Ends(ds) ==> SignedWhole(ds[|ds| - 1]))
  {
    hide SignBinding, SignedWhole, Ends, AcceptsBinding;
    var e := if has then d else d.(files := d.files[i.consentPath := NewConsent(w, cid)]);
    assert !Ends([]) by { EndsNothing(); }
    if SignConsent(d, i, s, w, cid, has, hasBinding) != [] || (if has then i.consentPath in d.files && AcceptsConsent(w, d.files[i.consentPath], cid) else i.consentPath !in d.files) {
      BindingEnds(e, i, s, w, cid, hasBinding);
      NotEnded(e, s);
      EndsBehind(if has then [] else [e], SignBinding(e, i, s, w, cid, hasBinding));
    }
  }

  lemma EndsNothing()
    ensures !Ends([])
  {
  }

  lemma NotEnded(e: Disk, s: Transfer)
    requires e.state == Some(s) && s.cutover.Some? && s.cutover.value.operationCid.None?
    ensures !Ends([e])
  {
  }

  /** Behind its review a signing runs to its end exactly on three good paths. */
  lemma ArtifactsEnd(d: Disk, i: SignInput, s: Transfer, w: Signing)
    requires Unsigned(d, i, s)
    ensures var ds := SignArtifacts(d, i, s, w);
            && (Ends(ds) <==> Signable(d.files, i, w))
            && (Ends(ds) ==> SignedWhole(ds[|ds| - 1]))
  {
    hide SignConsent, SignedWhole, Ends;
    EndsNothing();
    var hasOp, hasConsent, hasBinding := i.operationPath in d.files, i.consentPath in d.files, i.bindingPath in d.files;
    if !((!hasOp && (hasConsent || hasBinding)) || (!hasConsent && hasBinding)) && (hasOp ==> AcceptsOperation(w, d.files[i.operationPath])) {
      var e := if hasOp then d else d.(files := d.files[i.operationPath := NewOperation(w)]);
      var cid := if hasOp then d.files[i.operationPath].cid else w.cid;
      ConsentEnds(e, i, s, w, cid, hasConsent, hasBinding);
      NotEnded(e, s);
      EndsBehind(if hasOp then [] else [e], SignConsent(e, i, s, w, cid, hasConsent, hasBinding));
    }
  }

  lemma SignEnds(d: Disk, i: SignInput)
    requires InOrder(d) && !SignedWhole(d)
    ensures var ds := Sign(d, i, false);
            && (Ends(ds) <==> ReadyToSign(d, i) && Signable(d.files, i, WorkOf(d, i)))
            && (Ends(ds) ==> SignedWhole(ds[|ds| - 1]))
            && (ds != [] && SignedWhole(ds[|ds| - 1]) ==> Ends(ds))
  {
    hide SignArtifacts, Reviewed, SigningOf, InOrder, Signable, Unlocked;
    if UnderWay(d) && d.state.value.cutover.value.operationCid.Some? {
      RecordedIsWhole(d);
    }
    if Sign(d, i, false) != [] {
      var s := d.state.value;
      var s1 := s.(cutover := Some(OwnerReview(s, i)));
      var e := d.(state := Some(s1));
      NotEnded(e, s1);
      var chain := Reviewed(i.checks, s, i.domain, i.snapshot).value;
      ArtifactsEnd(e, i, s1, SigningOf(i, chain));
      EndsBehind([e], SignArtifacts(e, i, s1, SigningOf(i, chain)));
      assert [e] + [] == [e];
    }
  }

  lemma LeftWhole(d: Disk, ds: seq<Disk>)
    ensures Left(d, ds, |ds|) == if ds == [] then d else ds[|ds| - 1]
  {
  }

  /**
   * After any run, one more uninterrupted signing leaves the cutover signed whole if and only if it was
   * before, or everything is in order, the three paths differ, and each holds nothing or what this
   * signing accepts - a consent, therefore, that has not lapsed.
   */
  lemma SigningFinishesExactly(d: Disk, attempts: seq<Attempt>, i: SignInput)
    requires InOrder(d)
    ensures var x := Run(d, attempts);
            && DiskExtends(x, Signed(x, i))
            && (SignedWhole(Signed(x, i)) <==> SignedWhole(x) || (ReadyToSign(x, i) && Signable(x.files, i, WorkOf(x, i))))
  {
    hide Sign, ReadyToSign, Signable, WorkOf, SignedWhole, Run, InOrder, Ends, DiskExtends;
    var x := Run(d, attempts);
    ArtifactsStayInOrder(d, attempts);
    AttemptIsSound(x, Attempt(DoSign(i, false), |Sign(x, i, false)|));
    LeftWhole(x, Sign(x, i, false));
    if SignedWhole(x) {
      WholeStays(x, Signed(x, i));
    } else {
      SignEnds(x, i);
      EndsNothing();
    }
  }

  // ---------------------------------------------------------------- whose artifacts they are

  /** What never changes between invocations: how payloads decode, and which snapshot a digest stands for. */
  datatype Background = Background(decode: seq<Octet> -> Option<Fields>, content: Text -> Manifest)

  ghost predicate Shares(c: Checks, snapshot: Option<Snapshot>, b: Background) {
    c.decode == b.decode && (snapshot.Some? ==> snapshot.value.manifest == b.content(snapshot.value.digest))
  }

  ghost predicate SharesWhenSigning(a: Attempt, b: Background) {
    a.command.DoSign? ==> Shares(a.command.sign.checks, a.command.sign.snapshot, b)
  }

  ghost predicate AllShare(attempts: seq<Attempt>, b: Background) { forall a | a in attempts :: SharesWhenSigning(a, b) }

  /** The cutover, the offer and the reservation that fix what is to be signed. */
  ghost predicate Settled(s: Transfer, b: Background) {
    && s.cutover.Some? && s.offer.Some? && s.reservation.Some?
    && b.decode(s.offer.value.payload).Some? && b.decode(s.reservation.value.payload).Some?
    && Matches(s, b.content(s.cutover.value.snapshotDigest), b.decode(s.offer.value.payload).value)
  }

  ghost function Basis(s: Transfer, b: Background, cid: Text, now: int): Signing
    requires Settled(s, b)
  {
    var c := s.cutover.value;
    var m := b.content(c.snapshotDigest);
    Signing(m, c.snapshotDigest, MakeOperation(m, b.decode(s.offer.value.payload).value, false), cid,
            b.decode(s.reservation.value.payload).value.address, now)
  }

  /** The file was signed for this cutover: a consent for its operation, and for one hour. */
  ghost predicate SignedFor(d: Disk, s: Transfer, b: Background, f: File)
    requires Settled(s, b)
  {
    var w, c := Basis(s, b, "", 0), s.cutover.value;
    && (f.OperationFile? ==> AcceptsOperation(w, f))
    && (f.ConsentFile? ==> HasOperation(d, c) && f == NewConsent(w.(now := f.createdAt), d.files[c.operationPath].cid))
    && (f.BindingFile? ==> AcceptsBinding(w, f))
  }

  predicate Artifact(f: File) { f.OperationFile? || f.ConsentFile? || f.BindingFile? }

  ghost predicate UnderWay(d: Disk) { d.state.Some? && !d.state.value.managed && d.state.value.cutover.Some? }

  ghost predicate NotYet(d: Disk) { d.state.Some? ==> !d.state.value.managed && d.state.value.cutover.None? }

  /** Every artifact on the disk was signed for the cutover that is under way, and before one is there is none. */
  ghost predicate Ours(d: Disk, b: Background) {
    && (UnderWay(d) ==> Settled(d.state.value, b) && forall p | p in d.files :: SignedFor(d, d.state.value, b, d.files[p]))
    && (NotYet(d) ==> forall p | p in d.files :: !Artifact(d.files[p]))
  }

  ghost predicate AllOurs(ds: seq<Disk>, b: Background) { forall e | e in ds :: Ours(e, b) }

  /** The cutover stays as it is, and so do the artifacts. */
  ghost predicate Steady(d: Disk, e: Disk) {
    && (d.state.Some? ==> e.state.Some? && Grows(d.state.value, e.state.value))
    && (d.state.None? && e.state.Some? ==> e.state.value.cutover.None?)
    && (forall p | p in d.files :: p in e.files && e.files[p] == d.files[p])
    && (forall p | p in e.files :: p in d.files || !Artifact(e.files[p]))
  }

  lemma SteadyOurs(d: Disk, e: Disk, b: Background)
    requires Ours(d, b) && Steady(d, e)
    ensures Ours(e, b)
  {
    hide MakeOperation, NewConsent, NewBinding;
    if UnderWay(e) {
      var s, t := d.state.value, e.state.value;
      assert Settled(s, b) && Basis(t, b, "", 0) == Basis(s, b, "", 0);
      forall p | p in e.files
        ensures SignedFor(e, t, b, e.files[p])
      {
        if p in d.files {
          assert SignedFor(d, s, b, d.files[p]);
        }
      }
    }
  }

  lemma RecordedIsSteady(d: Disk, ds: seq<Disk>)
    requires AllRecorded(d, ds)
    ensures forall e | e in ds :: Steady(d, e)
  {
    hide Grows;
    forall e | e in ds
      ensures Steady(d, e)
    {
      assert Recorded(d, e.state.value);
    }
  }

  lemma ExportIsSteady(d: Disk, i: ExportInput)
    ensures forall e | e in Export(d, i) :: Steady(d, e)
  {
    hide Reviewed, Extends, Selected;
    if d.state.Some? {
      ExtendsItself(d.state.value);
    }
  }

  /** Every command but sign leaves the cutover and the artifacts alone. */
  lemma OthersAreSteady(d: Disk, c: Command)
    requires !c.DoSign?
    ensures forall e | e in Writes(d, c) :: Steady(d, e)
  {
    hide Offer, Select, Cancel, Export, Complete, Steady, AllRecorded;
    match c
    case DoOffer(i) =>
      OfferRecords(d, i);
      RecordedIsSteady(d, Offer(d, i));
    case DoSelect(i) =>
      SelectRecords(d, i);
      RecordedIsSteady(d, Select(d, i));
    case DoCancel(i) =>
      CancelRecords(d, i);
      RecordedIsSteady(d, Cancel(d, i));
    case DoExport(i) => ExportIsSteady(d, i);
    case DoComplete(i, managed) =>
      CompleteRecords(d, i, managed);
      RecordedIsSteady(d, Complete(d, i, managed));
  }

  lemma ChainDecodes(c: Checks, s: Transfer, domain: Text)
    requires Retained(c, s, domain).Some?
    ensures var chain := Retained(c, s, domain).value;
            && s.offer.Some? && c.decode(s.offer.value.payload) == Some(chain.offer)
            && s.reservation.Some? && c.decode(s.reservation.value.payload) == Some(chain.reservation)
  {
    var chain := Retained(c, s, domain).value;
    hide Verify, ReviewOffer, ReviewGrant;
    OfferDecodes(c, s, chain.grant, s.managed);
    VerifyDecodes(c, s.reservation.value, ReservationKind(s.managed), chain.offer.messagingKey, s.managed);
  }

  /** What a signing with a reviewed snapshot would sign is settled by the state. */
  lemma ReviewSettles(s: Transfer, t: Transfer, i: SignInput, b: Background)
    requires Reviewed(i.checks, s, i.domain, i.snapshot).Some? && Shares(i.checks, i.snapshot, b)
    requires t == s.(cutover := t.cutover) && t.cutover.Some? && t.cutover.value.snapshotDigest == i.snapshot.value.digest
    ensures Settled(t, b)
    ensures SigningOf(i, Reviewed(i.checks, s, i.domain, i.snapshot).value) == Basis(t, b, i.cid, i.checks.now)
  {
    hide Retained, MakeOperation;
    ChainDecodes(i.checks, s, i.domain);
  }

  /** A new artifact that was signed for the cutover is one more of ours. */
  lemma OneMoreOurs(d: Disk, s: Transfer, b: Background, path: Text, f: File)
    requires d.state == Some(s) && UnderWay(d) && Ours(d, b) && path !in d.files && SignedFor(d.(files := d.files[path := f]), s, b, f)
    ensures Ours(d.(files := d.files[path := f]), b)
  {
    hide MakeOperation, NewConsent, NewBinding;
    var e := d.(files := d.files[path := f]);
    forall p | p in e.files
      ensures SignedFor(e, s, b, e.files[p])
    {
      if p != path {
        assert SignedFor(d, s, b, d.files[p]);
      }
    }
  }

  lemma CidKeepsOurs(d: Disk, s: Transfer, b: Background, cid: Text)
    requires d.state == Some(s) && UnderWay(d) && Ours(d, b)
    ensures Ours(d.(state := Some(s.(cutover := Some(s.cutover.value.(operationCid := Some(cid)))))), b)
  {
    hide MakeOperation, NewConsent, NewBinding, AcceptsOperation, AcceptsBinding;
    var t := s.(cutover := Some(s.cutover.value.(operationCid := Some(cid))));
    var e := d.(state := Some(t));
    assert Basis(t, b, "", 0) == Basis(s, b, "", 0);
    forall p | p in e.files
      ensures SignedFor(e, t, b, e.files[p])
    {
      assert SignedFor(d, s, b, d.files[p]);
    }
  }

  /** The state reviews this signing, which is the settled one. */
  ghost predicate Signs(d: Disk, i: SignInput, s: Transfer, b: Background, w: Signing) {
    Reviewing(d, i, s) && Ours(d, b) && w == Basis(s, b, w.cid, w.now)
  }

  lemma BindingIsOurs(d: Disk, i: SignInput, s: Transfer, b: Background, w: Signing, cid: Text, has: bool)
    requires Signs(d, i, s, b, w)
    ensures AllOurs(SignBinding(d, i, s, w, cid, has), b)
  {
    hide Ours, MakeOperation;
    if SignBinding(d, i, s, w, cid, has) != [] {
      var e := if has then d else d.(files := d.files[i.bindingPath := NewBinding(w)]);
      if !has {
        OneMoreOurs(d, s, b, i.bindingPath, NewBinding(w));
      }
      CidKeepsOurs(e, s, b, cid);
    }
  }

  lemma ConsentIsOurs(d: Disk, i: SignInput, s: Transfer, b: Background, w: Signing, cid: Text, has: bool, hasBinding: bool)
    requires Signs(d, i, s, b, w) && HasOperation(d, s.cutover.value) && d.files[i.operationPath].cid == cid
    ensures AllOurs(SignConsent(d, i, s, w, cid, has, hasBinding), b)
  {
    hide Ours, MakeOperation, SignBinding;
    if SignConsent(d, i, s, w, cid, has, hasBinding) != [] {
      var e := if has then d else d.(files := d.files[i.consentPath := NewConsent(w, cid)]);
      if !has {
        OneMoreOurs(d, s, b, i.consentPath, NewConsent(w, cid));
      }
      BindingIsOurs(e, i, s, b, w, cid, hasBinding);
    }
  }

  lemma ArtifactsAreOurs(d: Disk, i: SignInput, s: Transfer, b: Background, w: Signing)
    requires Signs(d, i, s, b, w)
    ensures AllOurs(SignArtifacts(d, i, s, w), b)
  {
    hide Ours, MakeOperation, SignConsent;
    if SignArtifacts(d, i, s, w) != [] {
      var hasOp, hasConsent, hasBinding := i.operationPath in d.files, i.consentPath in d.files, i.bindingPath in d.files;
      var e := if hasOp then d else d.(files := d.files[i.operationPath := NewOperation(w)]);
      if !hasOp {
        OneMoreOurs(d, s, b, i.operationPath, NewOperation(w));
      }
      ConsentIsOurs(e, i, s, b, w, if hasOp then d.files[i.operationPath].cid else w.cid, hasConsent, hasBinding);
    }
  }

  lemma ReviewIsOurs(d: Disk, i: SignInput, b: Background)
    requires Ours(d, b) && d.state.Some? && !d.state.value.managed && Shares(i.checks, i.snapshot, b)
    requires Reviewed(i.checks, d.state.value, i.domain, i.snapshot).Some?
    requires d.state.value.cutover.Some? ==> SameReview(d.state.value.cutover.value, OwnerReview(d.state.value, i))
    ensures var s := d.state.value;
            var s1 := s.(cutover := Some(OwnerReview(s, i)));
            && (s.cutover.Some? ==> s1 == s)
            && Signs(d.(state := Some(s1)), i, s1, b, SigningOf(i, Reviewed(i.checks, s, i.domain, i.snapshot).value))
  {
    hide Reviewed, SigningOf, AcceptsOperation, AcceptsBinding, NewConsent, MakeOperation;
    var s := d.state.value;
    var s1 := s.(cutover := Some(OwnerReview(s, i)));
    ReviewSettles(s, s1, i, b);
    if s.cutover.Some? {
      assert d.(state := Some(s1)) == d;
    }
  }

  lemma SignIsOurs(d: Disk, i: SignInput, managed: bool, b: Background)
    requires Ours(d, b) && Shares(i.checks, i.snapshot, b)
    ensures AllOurs(Sign(d, i, managed), b)
  {
    if Sign(d, i, managed) != [] {
      if managed {
        SignIsSound(d, i, true);
        hide Sign, Sound;
        forall e | e in Sign(d, i, true)
          ensures Ours(e, b)
        {
          ManagedStays(d, e);
        }
      } else {
        hide Ours, Reviewed, SigningOf, SignArtifacts, Shares, Basis;
        var s := d.state.value;
        var s1 := s.(cutover := Some(OwnerReview(s, i)));
        var e := d.(state := Some(s1));
        ReviewIsOurs(d, i, b);
        ArtifactsAreOurs(e, i, s1, b, SigningOf(i, Reviewed(i.checks, s, i.domain, i.snapshot).value));
      }
    }
  }

  lemma ManagedStays(d: Disk, e: Disk)
    requires Sound(d, e) && d.state.Some?
    ensures e.state.Some? && e.state.value.managed == d.state.value.managed
  {
  }

  lemma {:induction false} EveryRunIsOurs(d: Disk, attempts: seq<Attempt>, b: Background)
    requires Ours(d, b) && AllShare(attempts, b)
    ensures Ours(Run(d, attempts), b)
    decreases |attempts|
  {
    hide Ours, Sign, Shares;
    if attempts != [] {
      var a := attempts[0];
      var e := After(d, a);
      assert SharesWhenSigning(a, b);
      if a.command.DoSign? {
        SignIsOurs(d, a.command.sign, a.command.managed, b);
      } else {
        OthersAreSteady(d, a.command);
        hide Writes, Steady;
        if e != d {
          SteadyOurs(d, e, b);
        }
      }
      assert Ours(e, b);
      EveryRunIsOurs(e, attempts[1..], b);
    }
  }

  /** Operation, consent and binding tell one story: that of the account, the offer and the reservation on record. */
  ghost predicate OneStory(d: Disk, s: Transfer, b: Background, cid: Text, operation: Operation, signer: Text) {
    && s.cutover.Some? && s.offer.Some? && s.reservation.Some?
    && b.decode(s.offer.value.payload).Some? && b.decode(s.reservation.value.payload).Some?
    && var c, offer, reservation := s.cutover.value, b.decode(s.offer.value.payload).value, b.decode(s.reservation.value.payload).value;
       && operation.prior == b.content(c.snapshotDigest).prior
       && operation.rotationKey == offer.rotationKey && operation.messagingKey == offer.messagingKey
       && operation.identityKey.None? && operation.endpoint == Base(s.destination)
       && (HasConsent(d, c) ==>
             var f := d.files[c.consentPath];
             && f.terms.rotationKey == operation.rotationKey && f.terms.messagingKey == operation.messagingKey
             && f.terms.destinationBase == operation.endpoint && f.terms.sourceBase == Base(s.provider)
             && f.terms.cid == cid && f.terms.recoveryKey == signer && f.terms.identityKey == f.signer
             && f.terms.did == s.did && f.terms.transferId == offer.transferId && f.terms.snapshotDigest == c.snapshotDigest
             && f.terms.address == reservation.address && f.expiresAt == f.createdAt + 3600)
       && (HasBinding(d, c) && HasConsent(d, c) ==>
             && d.files[c.bindingPath].address == d.files[c.consentPath].terms.address
             && d.files[c.bindingPath].did == s.did && d.files[c.bindingPath].signer == d.files[c.consentPath].signer)
  }

  /** In every run the artifacts that are there agree with one another and with the state. */
  lemma ArtifactsAgree(d: Disk, attempts: seq<Attempt>, b: Background)
    requires NotYet(d) && (forall p | p in d.files :: !Artifact(d.files[p])) && AllShare(attempts, b)
    ensures var x := Run(d, attempts);
            UnderWay(x) && HasOperation(x, x.state.value.cutover.value) ==>
              var f := x.files[x.state.value.cutover.value.operationPath];
              OneStory(x, x.state.value, b, f.cid, f.operation, f.signer)
  {
    var x := Run(d, attempts);
    assert Ours(d, b);
    EveryRunIsOurs(d, attempts, b);
    hide Run, AllShare;
    if UnderWay(x) && HasOperation(x, x.state.value.cutover.value) {
      OursAgree(x, b);
    }
  }

  lemma OursAgree(x: Disk, b: Background)
    requires Ours(x, b) && UnderWay(x) && HasOperation(x, x.state.value.cutover.value)
    ensures var f := x.files[x.state.value.cutover.value.operationPath];
            OneStory(x, x.state.value, b, f.cid, f.operation, f.signer)
  {
    var s, c := x.state.value, x.state.value.cutover.value;
    assert SignedFor(x, s, b, x.files[c.operationPath]);
    if HasConsent(x, c) {
      assert SignedFor(x, s, b, x.files[c.consentPath]);
    }
    if HasBinding(x, c) {
      assert SignedFor(x, s, b, x.files[c.bindingPath]);
    }
    hide Ours;
  }

  /** A recorded managed cutover has its operation, with the keys the destination has reserved. */
  ghost predicate ManagedStory(d: Disk, b: Background) {
    d.state.Some? && d.state.value.managed && d.state.value.cutover.Some? ==>
      var s, c := d.state.value, d.state.value.cutover.value;
      && s.reservation.Some? && b.decode(s.reservation.value.payload).Some? && HasOperation(d, c)
      && var f, reservation := d.files[c.operationPath], b.decode(s.reservation.value.payload).value;
         && f.operation.rotationKey == reservation.rotationKey && f.operation.messagingKey == reservation.messagingKey
         && f.operation.identityKey == Some(reservation.identityKey)
         && f.operation.endpoint == Base(s.destination) && f.operation.prior == b.content(c.snapshotDigest).prior
         && f.signer == s.ownerRecoveryKey && c.operationCid == Some(f.cid)
  }

  lemma SteadyStory(d: Disk, e: Disk, b: Background)
    requires ManagedStory(d, b) && Steady(d, e)
    ensures ManagedStory(e, b)
  {
  }

  lemma SignTellsStory(d: Disk, i: SignInput, managed: bool, b: Background)
    requires ManagedStory(d, b) && Shares(i.checks, i.snapshot, b)
    ensures forall e | e in Sign(d, i, managed) :: ManagedStory(e, b)
  {
    if Sign(d, i, managed) != [] {
      if managed {
        var s := d.state.value;
        ReservedKeys(i.checks, s, i.domain);
        hide Retained;
      } else {
        SignIsSound(d, i, false);
        hide Sign, Sound, ManagedStory;
        forall e | e in Sign(d, i, false)
          ensures ManagedStory(e, b)
        {
          ManagedStays(d, e);
          OwnersTellNone(e, b);
        }
      }
    }
  }

  lemma OwnersTellNone(e: Disk, b: Background)
    requires e.state.Some? && !e.state.value.managed
    ensures ManagedStory(e, b)
  {
  }

  lemma ReservedKeys(c: Checks, s: Transfer, domain: Text)
    requires s.managed
    ensures var r := Retained(c, s, domain);
            r.Some? ==>
              && s.reservation.Some? && c.decode(s.reservation.value.payload) == Some(r.value.reservation)
              && r.value.reservation.rotationKey == r.value.offer.rotationKey
              && r.value.reservation.messagingKey == r.value.offer.messagingKey
              && r.value.reservation.identityKey == r.value.offer.identityKey
  {
    if Retained(c, s, domain).Some? {
      ChainDecodes(c, s, domain);
      RetainedExactly(c, s, domain, Retained(c, s, domain).value);
      hide Retained, GrantStands, OfferStands, SelectionStands, Stands;
    }
  }

  /** In every run a managed cutover that is recorded installs the keys that the reservation names. */
  lemma {:induction false} EveryManagedRunTells(d: Disk, attempts: seq<Attempt>, b: Background)
    requires ManagedStory(d, b) && AllShare(attempts, b)
    ensures ManagedStory(Run(d, attempts), b)
    decreases |attempts|
  {
    hide ManagedStory, Sign, Shares;
    if attempts != [] {
      var a := attempts[0];
      var e := After(d, a);
      assert SharesWhenSigning(a, b);
      if a.command.DoSign? {
        SignTellsStory(d, a.command.sign, a.command.managed, b);
      } else {
        OthersAreSteady(d, a.command);
        hide Writes, Steady;
        if e != d {
          SteadyStory(d, e, b);
        }
      }
      assert ManagedStory(e, b);
      EveryManagedRunTells(e, attempts[1..], b);
    }
  }

  // ---------------------------------------------------------------- what one signing adds

  /** A file that a signing creates, in terms of the state, its records and the vault. */
  predicate Fresh(e: Disk, i: SignInput, managed: bool, s: Transfer, chain: Chain, f: File) {
    && i.snapshot.Some? && i.vault.Some?
    && var keys := i.vault.value;
       match f
       case OperationFile(operation, signer, cid) =>
         && operation.prior == i.snapshot.value.manifest.prior && operation.endpoint == Base(s.destination)
         && operation.rotationKey == chain.offer.rotationKey && operation.messagingKey == chain.offer.messagingKey
         && operation.identityKey == (if managed then Some(chain.offer.identityKey) else None)
         && signer == keys.recoveryKey && cid == i.cid
       case ConsentFile(terms, signer, createdAt, expiresAt) =>
         && !managed && signer == keys.identityKey && createdAt == i.checks.now && expiresAt == i.checks.now + 3600
         && i.operationPath in e.files && e.files[i.operationPath].OperationFile?
         && terms == Terms(s.did, chain.offer.transferId, i.snapshot.value.digest, e.files[i.operationPath].cid, Base(s.provider),
                           Base(s.destination), chain.reservation.address, chain.offer.rotationKey, chain.offer.messagingKey,
                           keys.recoveryKey, keys.identityKey)
       case BindingFile(address, did, signer) =>
         !managed && address == chain.reservation.address && did == s.did && signer == keys.identityKey
       case ApprovalFile => managed
       case _ => false
  }

  /** Every file of e that d does not have is fresh. */
  ghost predicate AddsFresh(d: Disk, e: Disk, i: SignInput, managed: bool) {
    forall p | p in e.files && p !in d.files ::
      && d.state.Some? && Retained(i.checks, d.state.value, i.domain).Some?
      && Fresh(e, i, managed, d.state.value, Retained(i.checks, d.state.value, i.domain).value, e.files[p])
  }

  /** What is behind the review: each file is an old one or this signing's own. */
  ghost predicate OwnFiles(d: Disk, e: Disk, i: SignInput, w: Signing) {
    forall p | p in e.files && p !in d.files ::
      || e.files[p] == NewOperation(w) || e.files[p] == NewBinding(w)
      || (i.operationPath in e.files && e.files[i.operationPath].OperationFile? && e.files[p] == NewConsent(w, e.files[i.operationPath].cid))
  }

  lemma BindingAdds(d0: Disk, d: Disk, i: SignInput, s: Transfer, w: Signing, cid: Text, has: bool)
    requires s.cutover.Some? && OwnFiles(d0, d, i, w)
    ensures forall e | e in SignBinding(d, i, s, w, cid, has) :: OwnFiles(d0, e, i, w)
  {
    hide NewConsent, NewOperation, AcceptsBinding;
  }

  lemma ConsentAdds(d0: Disk, d: Disk, i: SignInput, s: Transfer, w: Signing, cid: Text, has: bool, hasBinding: bool)
    requires s.cutover.Some? && OwnFiles(d0, d, i, w)
    requires i.operationPath in d.files && d.files[i.operationPath].OperationFile? && d.files[i.operationPath].cid == cid
    ensures forall e | e in SignConsent(d, i, s, w, cid, has, hasBinding) :: OwnFiles(d0, e, i, w)
  {
    hide NewConsent, NewOperation, NewBinding, AcceptsConsent, SignBinding;
    var e := if has then d else d.(files := d.files[i.consentPath := NewConsent(w, cid)]);
    if has || i.consentPath !in d.files {
      BindingAdds(d0, e, i, s, w, cid, hasBinding);
    }
  }

  lemma ArtifactsAdd(d: Disk, i: SignInput, s: Transfer, w: Signing)
    requires s.cutover.Some?
    ensures forall e | e in SignArtifacts(d, i, s, w) :: OwnFiles(d, e, i, w)
  {
    hide NewConsent, NewBinding, SignConsent;
    if SignArtifacts(d, i, s, w) != [] {
      var has := i.operationPath in d.files;
      var e := if has then d else d.(files := d.files[i.operationPath := NewOperation(w)]);
      ConsentAdds(d, e, i, s, w, if has then d.files[i.operationPath].cid else w.cid, i.consentPath in d.files, i.bindingPath in d.files);
    }
  }

  lemma OwnFilesAreFresh(d: Disk, e: Disk, i: SignInput, s: Transfer)
    requires d.state == Some(s) && !s.managed && Reviewed(i.checks, s, i.domain, i.snapshot).Some?
    requires Unlocked(i, i.snapshot.value.manifest)
    requires OwnFiles(d, e, i, SigningOf(i, Reviewed(i.checks, s, i.domain, i.snapshot).value))
    ensures AddsFresh(d, e, i, false)
  {
    hide Retained;
  }

  /** Whatever a signing adds to the disk says what state, records, snapshot and vault say. */
  lemma SigningAddsFresh(d: Disk, i: SignInput, managed: bool)
    ensures forall e | e in Sign(d, i, managed) :: AddsFresh(d, e, i, managed)
  {
    hide AddsFresh, SignArtifacts, SignManaged, SigningOf;
    if Sign(d, i, managed) != [] {
      var s := d.state.value;
      if managed {
        ManagedAddsFresh(d, i, s);
      } else {
        var s1 := s.(cutover := Some(OwnerReview(s, i)));
        var x := d.(state := Some(s1));
        NothingAdded(d, x, i, false);
        if Unlocked(i, i.snapshot.value.manifest) {
          var w := SigningOf(i, Reviewed(i.checks, s, i.domain, i.snapshot).value);
          ArtifactsAdd(x, i, s1, w);
          forall e | e in SignArtifacts(x, i, s1, w)
            ensures AddsFresh(d, e, i, false)
          {
            SameFiles(x, d, e, i, w);
            OwnFilesAreFresh(d, e, i, s);
          }
        }
      }
    }
  }

  lemma NothingAdded(d: Disk, e: Disk, i: SignInput, managed: bool)
    requires e.files == d.files
    ensures AddsFresh(d, e, i, managed)
  {
  }

  lemma SameFiles(x: Disk, d: Disk, e: Disk, i: SignInput, w: Signing)
    requires x.files == d.files && OwnFiles(x, e, i, w)
    ensures OwnFiles(d, e, i, w)
  {
  }

  lemma ManagedAddsFresh(d: Disk, i: SignInput, s: Transfer)
    requires d.state == Some(s) && s.managed && Reviewed(i.checks, s, i.domain, i.snapshot).Some?
    ensures forall e | e in SignManaged(d, i, s, Reviewed(i.checks, s, i.domain, i.snapshot).value) :: AddsFresh(d, e, i, true)
  {
    hide Retained;
  }

  // ---------------------------------------------------------------- a cutover finishes unless its consent lapses

  /** Three paths, and at each of them an artifact of its own kind or nothing. */
  predicate Unspoilt(files: map<Text, File>, i: SignInput) {
    && DistinctPaths(i)
    && (i.operationPath in files ==> files[i.operationPath].OperationFile?)
    && (i.consentPath in files ==> files[i.consentPath].ConsentFile?)
    && (i.bindingPath in files ==> files[i.bindingPath].BindingFile?)
  }

  predicate Live(files: map<Text, File>, i: SignInput) {
    i.consentPath in files && files[i.consentPath].ConsentFile? ==> files[i.consentPath].expiresAt > i.checks.now
  }

  lemma OursIsSignable(d: Disk, i: SignInput, b: Background)
    requires Ours(d, b) && InOrder(d) && ReadyToSign(d, i) && Shares(i.checks, i.snapshot, b)
    ensures Signable(d.files, i, WorkOf(d, i)) <==> Unspoilt(d.files, i) && Live(d.files, i)
  {
    hide Reviewed, Unlocked, MakeOperation;
    var s := d.state.value;
    if s.cutover.Some? {
      ReviewSettles(s, s, i, b);
      hide SigningOf;
      var w := WorkOf(d, i);
      forall p | p in d.files
        ensures SignedFor(d, s, b, d.files[p])
      {
      }
      assert w == Basis(s, b, i.cid, i.checks.now);
    }
  }

  /**
   * After any run in which decoding and digests are what they are, one more uninterrupted signing leaves
   * the cutover signed whole if and only if it was before, or everything is in order, the three paths
   * differ and nothing else stands there, and no consent is there or it has not lapsed.
   */
  lemma CutoverFinishesUnlessLapsed(d: Disk, attempts: seq<Attempt>, b: Background, i: SignInput)
    requires NotYet(d) && (forall p | p in d.files :: !Artifact(d.files[p]))
    requires AllShare(attempts, b) && Shares(i.checks, i.snapshot, b)
    ensures var x := Run(d, attempts);
            && DiskExtends(x, Signed(x, i))
            && (SignedWhole(Signed(x, i)) <==>
                  SignedWhole(x) || (ReadyToSign(x, i) && Unspoilt(x.files, i) && Live(x.files, i)))
  {
    var x := Run(d, attempts);
    assert InOrder(d) && Ours(d, b);
    hide Ours, InOrder, Run, Signed, SignedWhole, ReadyToSign, Signable, Unspoilt, Live, WorkOf, Shares, AllShare, DiskExtends;
    EveryRunIsOurs(d, attempts, b);
    ArtifactsStayInOrder(d, attempts);
    SigningFinishesExactly(d, attempts, i);
    if ReadyToSign(x, i) {
      OursIsSignable(x, i, b);
    }
  }

  // ---------------------------------------------------------------- a lapsed cutover never finishes

  /** A consent is retained that lapses by time t, and no CID is recorded. */
  ghost predicate Lapsed(d: Disk, t: int) {
    && UnderWay(d)
    && var c := d.state.value.cutover.value;
       c.operationCid.None? && HasConsent(d, c) && d.files[c.consentPath].expiresAt <= t
  }

  /** Every signing among these comes at time t or later. */
  ghost predicate AllLater(attempts: seq<Attempt>, t: int) {
    forall a | a in attempts :: a.command.DoSign? ==> a.command.sign.checks.now >= t
  }

  /** From then on a signing leaves everything exactly as it is. */
  lemma LapsedBlocksSigning(d: Disk, t: int, i: SignInput, managed: bool)
    requires Lapsed(d, t) && i.checks.now >= t
    ensures forall e | e in Sign(d, i, managed) :: e == d
  {
    hide Reviewed, Unlocked, SignBinding, MakeOperation;
    if !managed && Sign(d, i, managed) != [] {
      var s := d.state.value;
      var w := SigningOf(i, Reviewed(i.checks, s, i.domain, i.snapshot).value);
      assert OwnerReview(s, i) == s.cutover.value;
      assert s.(cutover := Some(OwnerReview(s, i))) == s;
      assert d.(state := Some(s)) == d;
      assert SignArtifacts(d, i, s, w) == [];
    }
  }

  lemma LapsedStays(d: Disk, t: int, a: Attempt)
    requires Lapsed(d, t) && (a.command.DoSign? ==> a.command.sign.checks.now >= t)
    ensures Lapsed(After(d, a), t)
  {
    hide Sign;
    if a.command.DoSign? {
      LapsedBlocksSigning(d, t, a.command.sign, a.command.managed);
    } else {
      OthersAreSteady(d, a.command);
      hide Writes;
    }
  }

  /**
   * Once a consent has lapsed without the CID being recorded the cutover is never signed whole, whatever
   * is run with clocks that do not go back: no signing changes anything, and completion does nothing.
   */
  lemma {:induction false} LapsedIsFinal(d: Disk, t: int, more: seq<Attempt>)
    requires Lapsed(d, t) && AllLater(more, t)
    ensures var x := Run(d, more);
            && Lapsed(x, t) && !SignedWhole(x)
            && (forall i: SignInput, managed, e | i.checks.now >= t && e in Sign(x, i, managed) :: e == x)
            && (forall i: CompleteInput, managed :: Complete(x, i, managed) == [])
    decreases |more|
  {
    hide Sign, Complete;
    if more == [] {
      forall i: SignInput, managed, e | i.checks.now >= t && e in Sign(d, i, managed)
        ensures e == d
      {
        LapsedBlocksSigning(d, t, i, managed);
      }
      forall i: CompleteInput, managed
        ensures Complete(d, i, managed) == []
      {
        NothingToComplete(d, i, managed);
      }
    } else {
      hide Lapsed, SignedWhole, After;
      LapsedStays(d, t, more[0]);
      LapsedIsFinal(After(d, more[0]), t, more[1..]);
    }
  }

  lemma NothingToComplete(d: Disk, i: CompleteInput, managed: bool)
    requires UnderWay(d) && d.state.value.cutover.value.operationCid.None?
    ensures Complete(d, i, managed) == []
  {
    hide Reviewed;
  }

  /** A signing that died behind the consent, before or after it wrote the binding. */
  ghost function CutShort(d: Disk, i: SignInput, bound: bool): Attempt {
    Attempt(DoSign(i, false), (if i.operationPath in d.files then 2 else 3) + (if bound then 1 else 0))
  }

  lemma BindingWrites(d: Disk, i: SignInput, s: Transfer, w: Signing, cid: Text)
    requires Unsigned(d, i, s) && i.bindingPath !in d.files
    ensures var ds := SignBinding(d, i, s, w, cid, false);
            |ds| == 2 && ds[0] == d.(files := d.files[i.bindingPath := NewBinding(w)])
  {
  }

  lemma ConsentWrites(d: Disk, i: SignInput, s: Transfer, w: Signing, cid: Text)
    requires Unsigned(d, i, s) && i.consentPath !in d.files && i.bindingPath !in d.files && i.consentPath != i.bindingPath
    ensures var ds := SignConsent(d, i, s, w, cid, false, false);
            var e := d.(files := d.files[i.consentPath := NewConsent(w, cid)]);
            |ds| == 3 && ds[0] == e && ds[1] == e.(files := e.files[i.bindingPath := NewBinding(w)])
  {
    hide SignBinding, NewConsent, NewBinding;
    BindingWrites(d.(files := d.files[i.consentPath := NewConsent(w, cid)]), i, s, w, cid);
  }

  /** Two disks behind the operation: one with a consent, and one with a consent and a binding. */
  lemma ArtifactsWrite(d: Disk, i: SignInput, s: Transfer, w: Signing)
    requires Unsigned(d, i, s) && Signable(d.files, i, w) && i.consentPath !in d.files
    ensures var ds, k := SignArtifacts(d, i, s, w), if i.operationPath in d.files then 0 else 1;
            |ds| == k + 3 && LapsesAt(ds[k], i, s, w.now + 3600) && LapsesAt(ds[k + 1], i, s, w.now + 3600)
  {
    hide SignConsent, AcceptsConsent, AcceptsBinding, NewBinding;
    var has := i.operationPath in d.files;
    var e := if has then d else d.(files := d.files[i.operationPath := NewOperation(w)]);
    ConsentWrites(e, i, s, w, if has then d.files[i.operationPath].cid else w.cid);
  }

  ghost predicate LapsesAt(d: Disk, i: SignInput, s: Transfer, t: int) {
    d.state == Some(s) && i.consentPath in d.files && d.files[i.consentPath].ConsentFile? && d.files[i.consentPath].expiresAt == t
  }

  lemma LapsesWithoutCid(d: Disk, i: SignInput, s: Transfer, t: int)
    requires LapsesAt(d, i, s, t) && Unsigned(d, i, s)
    ensures Lapsed(d, t)
  {
  }

  /** Without a consent there is no CID either. */
  lemma NoConsentNoCid(d: Disk, i: SignInput)
    requires InOrder(d) && ReadyToSign(d, i) && i.consentPath !in d.files
    ensures var s1 := d.state.value.(cutover := Some(OwnerReview(d.state.value, i)));
            Unsigned(d.(state := Some(s1)), i, s1)
  {
    hide Reviewed, Unlocked;
  }

  lemma SignWrites(d: Disk, i: SignInput)
    requires ReadyToSign(d, i) && Unsigned(d.(state := Some(d.state.value.(cutover := Some(OwnerReview(d.state.value, i))))), i, d.state.value.(cutover := Some(OwnerReview(d.state.value, i))))
    ensures var s1 := d.state.value.(cutover := Some(OwnerReview(d.state.value, i)));
            var e := d.(state := Some(s1));
            Sign(d, i, false) == [e] + SignArtifacts(e, i, s1, WorkOf(d, i))
  {
    hide Reviewed, Unlocked, SigningOf, SignArtifacts;
  }

  lemma AfterSigning(d: Disk, i: SignInput, survives: nat)
    ensures After(d, Attempt(DoSign(i, false), survives)) == Left(d, Sign(d, i, false), survives)
  {
    hide Sign, Left;
  }

  lemma CutShortLeavesConsent(d: Disk, i: SignInput, bound: bool)
    requires InOrder(d) && ReadyToSign(d, i) && Signable(d.files, i, WorkOf(d, i)) && i.consentPath !in d.files
    ensures Lapsed(After(d, CutShort(d, i, bound)), i.checks.now + 3600)
  {
    var w := WorkOf(d, i);
    WorkIsNow(d, i);
    hide Sign, InOrder, WorkOf, Reviewed, Unlocked, SignArtifacts, Signable, LapsesAt, Lapsed, After, Left, SameReview, Unsigned;
    NoConsentNoCid(d, i);
    SignWrites(d, i);
    var s1 := d.state.value.(cutover := Some(OwnerReview(d.state.value, i)));
    var e := d.(state := Some(s1));
    ArtifactsWrite(e, i, s1, w);
    var ds, k := SignArtifacts(e, i, s1, w), (if i.operationPath in d.files then 0 else 1) + (if bound then 1 else 0);
    LeftBehind(d, e, ds, k);
    AfterSigning(d, i, k + 2);
    LapsesOnState(ds[k], i, s1, i.checks.now + 3600, e);
    LapsesWithoutCid(ds[k], i, s1, i.checks.now + 3600);
  }

  lemma WorkIsNow(d: Disk, i: SignInput)
    requires ReadyToSign(d, i)
    ensures WorkOf(d, i).now == i.checks.now
  {
    hide Reviewed, Unlocked;
  }

  lemma LapsesOnState(d: Disk, i: SignInput, s: Transfer, t: int, e: Disk)
    requires LapsesAt(d, i, s, t) && Unsigned(e, i, s)
    ensures Unsigned(d, i, s)
  {
  }

  lemma LeftBehind(d: Disk, e: Disk, ds: seq<Disk>, k: nat)
    requires k < |ds|
    ensures Left(d, [e] + ds, k + 2) == ds[k]
  {
    assert ([e] + ds)[k + 1] == ds[k];
  }

  /**
   * A signing that dies behind the consent has one hour to be resumed in: after that no run of any
   * commands, with clocks that do not go back, ever signs this cutover whole.
   */
  lemma OneHourToResume(d: Disk, attempts: seq<Attempt>, i: SignInput, bound: bool, more: seq<Attempt>)
    requires InOrder(d)
    requires var x := Run(d, attempts); ReadyToSign(x, i) && Signable(x.files, i, WorkOf(x, i)) && i.consentPath !in x.files
    requires AllLater(more, i.checks.now + 3600)
    ensures var x := Run(d, attempts);
            var y := Run(After(x, CutShort(x, i, bound)), more);
            && !SignedWhole(y)
            && (forall j: SignInput, managed, e | j.checks.now >= i.checks.now + 3600 && e in Sign(y, j, managed) :: e == y)
            && (forall j: CompleteInput, managed :: Complete(y, j, managed) == [])
  {
    hide InOrder, ReadyToSign, Signable, WorkOf, Run, After, CutShort, Lapsed, SignedWhole, Sign, Complete, AllLater;
    ArtifactsStayInOrder(d, attempts);
    var x := Run(d, attempts);
    CutShortLeavesConsent(x, i, bound);
    LapsedIsFinal(After(x, CutShort(x, i, bound)), i.checks.now + 3600, more);
  }

  // One transfer, as it stands when its address is reserved.

  const RESERVED := Disk(
    Some(Transfer(false, "a", "i", "d", "b", "k", "", "", Some(Record(1)), None, Some(Record(2)), Some(Record(3)), Some(Record(4)),
                  None, None, None, false, None, None, false)),
    map[])

  lemma OfferLeaves()
    ensures After(EMPTY, Attempt(DoOffer(FIRST_OFFER), |Offer(EMPTY, FIRST_OFFER)|)) == OFFERED
  {
    FirstOfferGoesThrough();
    OfferSucceeds(EMPTY, FIRST_OFFER);
    LeftWhole(EMPTY, Offer(EMPTY, FIRST_OFFER));
    hide Offer, ReviewGrant, ReviewOffer, OfferGoesThrough;
  }

  lemma SelectionLeaves()
    ensures After(OFFERED, Attempt(DoSelect(FIRST_SELECTION), |Select(OFFERED, FIRST_SELECTION)|)) == RESERVED
  {
    FirstSelectionGoesThrough();
    SelectSucceeds(OFFERED, FIRST_SELECTION, RecordDecode([1]).value, RecordDecode([2]).value);
    LeftWhole(OFFERED, Select(OFFERED, FIRST_SELECTION));
    hide Select, Retained, SelectGoesThrough;
  }

  /** It is what an offer and a selection leave behind that start from nothing. */
  lemma ReservedInTwoSteps()
    ensures var offer, selection := DoOffer(FIRST_OFFER), DoSelect(FIRST_SELECTION);
            RESERVED == Run(EMPTY, [Attempt(offer, |Offer(EMPTY, FIRST_OFFER)|), Attempt(selection, |Select(OFFERED, FIRST_SELECTION)|)])
  {
    var a, b := Attempt(DoOffer(FIRST_OFFER), |Offer(EMPTY, FIRST_OFFER)|), Attempt(DoSelect(FIRST_SELECTION), |Select(OFFERED, FIRST_SELECTION)|);
    hide Offer, Select, After;
    OfferLeaves();
    SelectionLeaves();
    assert [a, b][1..] == [b] && [b][1..] == [];
    assert Run(EMPTY, [a, b]) == Run(After(EMPTY, a), [b]) == Run(After(After(EMPTY, a), b), []);
  }

  function SignAt(now: int): SignInput {
    SignInput("b", Checks(now, RecordDecode, Spelled, (key, input, signature) => true, (kind, managed, f) => true),
              Some(Snapshot("s", Manifest("d", "i", "t", Base("a"), Base("b"), "r", "", "m", "", "", true, "k", "v", "p"))), "",
              "operation", "consent", "binding", "", Some(Keys("d", "k", "v")), true, "c")
  }

  lemma AddressDomain()
    ensures DomainOf("x@b") == Some("b")
  {
    assert "x@b"[1..] == "@b" && "@b"[1..] == "b" && "b"[1..] == "" && ['b'] + "" == "b";
    assert Behind("@b") == Some("b") && Behind("x@b") == Some("b");
    assert Before("") == "" && Before("b") == "b";
  }

  lemma SignAtIsReady(now: int)
    requires now >= 0
    ensures ReadyToSign(RESERVED, SignAt(now)) && Signable(RESERVED.files, SignAt(now), WorkOf(RESERVED, SignAt(now)))
  {
    hide DomainOf;
    AddressDomain();
  }

  lemma NothingSigned(now: int)
    ensures Run(RESERVED, []) == RESERVED && InOrder(RESERVED) && RESERVED.files == map[] && SignAt(now).checks.now == now
  {
  }

  /**
   * Signed at noon and cut short behind the consent, this transfer is lost at one o'clock: whatever is run
   * from then on, it is never signed whole and never completes.
   */
  lemma CutShortIsLost(more: seq<Attempt>)
    requires AllLater(more, 43200 + 3600)
    ensures var y := Run(After(RESERVED, Attempt(DoSign(SignAt(43200), false), 3)), more);
            && !SignedWhole(y)
            && (forall j: SignInput, managed, e | j.checks.now >= 43200 + 3600 && e in Sign(y, j, managed) :: e == y)
            && (forall j: CompleteInput, managed :: Complete(y, j, managed) == [])
  {
    var i := SignAt(43200);
    SignAtIsReady(43200);
    NothingSigned(43200);
    hide Run, After, ReadyToSign, Signable, WorkOf, SignedWhole, Sign, Complete, InOrder, SignAt, AllLater;
    OneHourToResume(RESERVED, [], i, false, more);
  }

  /** A cutover whose paths are not three different ones is never signed whole, and its paths can never be changed. */
  lemma RepeatedPathNeverFinishes(d: Disk, i: SignInput, e: Disk, more: seq<Attempt>)
    requires !DistinctPaths(i) && e in Sign(d, i, false)
    ensures !SignedWhole(Run(e, more))
  {
    hide Run, SignArtifacts, SignManaged, Reviewed, SigningOf, Unlocked;
    SignIsSound(d, i, false);
    RecordsAreWriteOnce(e, more);
    NamesPaths(d, i, e);
    hide Sign;
  }

  lemma NamesPaths(d: Disk, i: SignInput, e: Disk)
    requires e in Sign(d, i, false)
    ensures e.state.Some? && e.state.value.cutover.Some?
    ensures var c := e.state.value.cutover.value;
            c.operationPath == i.operationPath && c.consentPath == i.consentPath && c.bindingPath == i.bindingPath
  {
    hide Reviewed, SigningOf, Unlocked, SignArtifacts, Sound, Extends;
    var s := d.state.value;
    var s1 := s.(cutover := Some(OwnerReview(s, i)));
    var e1 := d.(state := Some(s1));
    if e != e1 {
      var w := SigningOf(i, Reviewed(i.checks, s, i.domain, i.snapshot).value);
      ArtifactsAreSound(e1, i, s1, w);
      assert Sound(e1, e);
      KeepsPaths(e1, e);
    }
  }

  lemma KeepsPaths(d: Disk, e: Disk)
    requires Sound(d, e) && d.state.Some? && d.state.value.cutover.Some?
    ensures e.state.Some? && e.state.value.cutover.Some? && SameReview(d.state.value.cutover.value, e.state.value.cutover.value)
  {
  }

  // ---------------------------------------------------------------- what was signed is what completion takes

  /**
   * After any run that has signed the cutover whole, completion with the same snapshot and an answer that
   * it accepts goes through if and only if the identity key in custody is the one that the state names.
   */
  lemma SignedCutoverCompletes(d: Disk, attempts: seq<Attempt>, b: Background, i: CompleteInput)
    requires NotYet(d) && (forall p | p in d.files :: !Artifact(d.files[p])) && AllShare(attempts, b)
    requires var x := Run(d, attempts);
             && SignedWhole(x) && !x.state.value.managed && Shares(i.checks, i.snapshot, b)
             && Reviewed(i.checks, x.state.value, i.domain, i.snapshot).Some?
             && i.snapshot.value.digest == x.state.value.cutover.value.snapshotDigest
             && i.reply.Some? && i.reply.value.valid && i.reply.value.active
             && (x.state.value.activationReceipt.Some? ==> x.state.value.activationReceipt.value == i.reply.value.receipt)
    ensures var x := Run(d, attempts);
            Complete(x, i, false) != [] <==> i.snapshot.value.manifest.custodyIdentityKey == x.state.value.key
  {
    var x := Run(d, attempts);
    assert Ours(d, b);
    EveryRunIsOurs(d, attempts, b);
    var s := x.state.value;
    ConsentIsTheOne(x, b, i);
    hide Run, Reviewed, ConsentCompletes, Ours;
  }

  lemma ConsentIsTheOne(x: Disk, b: Background, i: CompleteInput)
    requires Ours(x, b) && SignedWhole(x) && !x.state.value.managed && Shares(i.checks, i.snapshot, b)
    requires Reviewed(i.checks, x.state.value, i.domain, i.snapshot).Some?
    requires i.snapshot.value.digest == x.state.value.cutover.value.snapshotDigest
    ensures var s, c := x.state.value, x.state.value.cutover.value;
            var chain := Reviewed(i.checks, s, i.domain, i.snapshot).value;
            ConsentCompletes(s, chain, i.snapshot.value, x.files[c.consentPath], c.operationCid.value) <==>
              i.snapshot.value.manifest.custodyIdentityKey == s.key
  {
    hide Retained, MakeOperation;
    var s, c := x.state.value, x.state.value.cutover.value;
    ChainDecodes(i.checks, s, i.domain);
    assert SignedFor(x, s, b, x.files[c.consentPath]);
  }

  // ---------------------------------------------------------------- managed cutovers

  /** A managed cutover is signed in one go or, with these two files, not at all. */
  lemma ManagedSignsExactly(d: Disk, i: SignInput)
    requires d.state.Some? && d.state.value.managed && d.state.value.cutover.None?
    ensures Ends(Sign(d, i, true)) <==>
            && Reviewed(i.checks, d.state.value, i.domain, i.snapshot).Some? && UnlockedByOwner(i, d.state.value)
            && i.operationPath !in d.files && i.approvalPath !in d.files && i.operationPath != i.approvalPath
  {
    hide Reviewed, MakeOperation;
  }
}
