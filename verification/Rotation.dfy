/**
 * Credential rotation as a protocol over two files, one unreliable provider and any number of
 * invocations. One step is one file write or one request; between any two steps the client may
 * die, any reply may be lost, and any request may be refused. The source file is fixed.
 */
module Rotation {
  import opened Options

  type Token = nat
  type Scope = nat

  /** The scope that lets a credential issue and revoke credentials. */
  const WRITE: Scope := 0

  // ---------------------------------------------------------------- the world

  datatype Credential = Credential(id: nat, scopes: set<Scope>, live: bool)

  /** One account at the provider. */
  datatype Provider = Provider(owner: nat, creds: map<Token, Credential>, migrating: bool) {
    predicate Authenticates(token: Token) { token in creds && creds[token].live }

    predicate KnowsId(id: nat) { exists t :: t in creds && creds[t].id == id }

    /** Issuing is idempotent by token: a repeated request answers with the existing credential. */
    function Issue(token: Token, scopes: set<Scope>, id: nat): Provider {
      if token in creds then this else this.(creds := creds[token := Credential(id, scopes, true)])
    }

    /** Revoking a credential that is already revoked succeeds again. */
    function Revoke(id: nat): Provider {
      this.(creds := map t | t in creds :: if creds[t].id == id then creds[t].(live := false) else creds[t])
    }
  }

  /** The source credential file, which rotation only reads. */
  datatype Source = Source(owner: nat, credentialId: nat, token: Token, scopes: set<Scope>)

  /** The retained rotation state. */
  datatype Plan = Plan(owner: nat, sourceCredentialId: nat, token: Token, scopes: set<Scope>)

  /** The output file: first a pending request, later with the credential id the provider gave. */
  datatype Output = Output(owner: nat, token: Token, scopes: set<Scope>, credentialId: Option<nat>)

  datatype Phase =
    | Idle
    | AskSource
    | SavePlan(plan: Plan)
    | CheckPlan(plan: Plan)
    | SavePending(plan: Plan)
    | AskReplacement(plan: Plan)
    | AskIssuer(plan: Plan)
    | PostIssue(plan: Plan)
    | SaveRecord(plan: Plan, record: Output)
    | AskAgain(plan: Plan)
    | SaveFinal(plan: Plan, final: Output)
    | PostRevoke(plan: Plan)
    | Finished

  /** Both files, the provider, and where the current invocation stands; `issued` is history. */
  datatype World = World(source: Source, plan: Option<Plan>, output: Option<Output>, provider: Provider, phase: Phase, issued: set<Token>)

  /** What chance decides about one step. */
  datatype Choice =
    | Proceed(random: Token, id: nat)   // the step succeeds; chance supplies a token and an id
    | LoseReply(random: Token, id: nat) // the step takes effect, but the client does not live to see it
    | Fail                              // the step fails without effect and ends the invocation
    | Elsewhere(migrating: bool, token: Token, credential: Option<Credential>)

  // ---------------------------------------------------------------- the steps

  /** Tokens that only this client can know. */
  predicate Ours(w: World, token: Token) {
    || token == w.source.token
    || (w.plan.Some? && token == w.plan.value.token)
    || (w.phase.SavePlan? && token == w.phase.plan.token)
  }

  predicate OurId(w: World, id: nat) {
    exists t :: t in w.provider.creds && Ours(w, t) && w.provider.creds[t].id == id
  }

  /** What GET /account has to say for the source credential to be rotated or to issue. */
  predicate MayIssue(w: World) {
    && w.provider.Authenticates(w.source.token)
    && !w.provider.migrating
    && WRITE in w.provider.creds[w.source.token].scopes
  }

  /** The checks on a plan that was read back or just written. */
  predicate PlanMatches(w: World, p: Plan) {
    && p.owner == w.source.owner
    && p.sourceCredentialId == w.source.credentialId
    && p.scopes == w.source.scopes
    && p.token != w.source.token
    && WRITE in p.scopes
  }

  /** The checks on the account as the replacement sees it. */
  predicate ReplacementMatches(w: World, p: Plan, token: Token)
    requires token in w.provider.creds
  {
    && w.provider.creds[token].id != p.sourceCredentialId
    && !w.provider.migrating
    && w.provider.creds[token].scopes == p.scopes
  }

  function Final(w: World, p: Plan, token: Token): Output
    requires token in w.provider.creds
  {
    Output(p.owner, p.token, w.provider.creds[token].scopes, Some(w.provider.creds[token].id))
  }

  /** The state after the current step has taken effect and its reply has arrived. */
  function Effect(w: World, random: Token, id: nat): World {
    match w.phase
    case Idle =>
      if w.plan.Some? then w.(phase := CheckPlan(w.plan.value))
      else if w.output.Some? then w
      else w.(phase := AskSource)
    case AskSource =>
      if !w.provider.Authenticates(w.source.token) then w.(phase := Idle)
      else
        var current := w.provider.creds[w.source.token];
        if current.id != w.source.credentialId || !MayIssue(w) || current.scopes != w.source.scopes then w.(phase := Idle)
        else w.(phase := SavePlan(Plan(w.provider.owner, current.id, random, current.scopes)))
    case SavePlan(p) =>
      if w.plan.Some? then w.(phase := Idle)
      else w.(plan := Some(p), phase := CheckPlan(p))
    case CheckPlan(p) =>
      if !PlanMatches(w, p) then w.(phase := Idle)
      else if w.output.None? then w.(phase := SavePending(p))
      else
        var saved := w.output.value;
        if saved.owner != p.owner || saved.token != p.token || saved.scopes != p.scopes then w.(phase := Idle)
        else w.(phase := AskReplacement(p))
    case SavePending(p) =>
      if w.output.Some? then w.(phase := Idle)
      else w.(output := Some(Output(p.owner, p.token, p.scopes, None)), phase := AskReplacement(p))
    case AskReplacement(p) =>
      if w.output.None? then w.(phase := Idle)
      else if !w.provider.Authenticates(w.output.value.token) then w.(phase := AskIssuer(p))
      else if !ReplacementMatches(w, p, w.output.value.token) then w.(phase := Idle)
      else w.(phase := SaveFinal(p, Final(w, p, w.output.value.token)))
    case AskIssuer(p) =>
      if !MayIssue(w) || w.output.None? then w.(phase := Idle)
      else if w.output.value.owner != w.provider.owner || w.output.value.scopes != p.scopes then w.(phase := Idle)
      else if !(p.scopes <= w.provider.creds[w.source.token].scopes) then w.(phase := Idle)
      else w.(phase := PostIssue(p))
    case PostIssue(p) =>
      if !MayIssue(w) || w.output.None? then w.(phase := Idle)
      else
        var token := w.output.value.token;
        var provider := w.provider.Issue(token, p.scopes, id);
        var record := Output(provider.owner, token, provider.creds[token].scopes, Some(provider.creds[token].id));
        var issued := w.issued + {token};
        if record.scopes != p.scopes || (w.output.value.credentialId.Some? && w.output.value.credentialId != record.credentialId)
        then w.(provider := provider, issued := issued, phase := Idle)
        else w.(provider := provider, issued := issued, phase := SaveRecord(p, record))
    case SaveRecord(p, record) =>
      w.(output := Some(record), phase := AskAgain(p))
    case AskAgain(p) =>
      if w.output.None? || !w.provider.Authenticates(w.output.value.token) then w.(phase := Idle)
      else if !ReplacementMatches(w, p, w.output.value.token) then w.(phase := Idle)
      else w.(phase := SaveFinal(p, Final(w, p, w.output.value.token)))
    case SaveFinal(p, final) =>
      w.(output := Some(final), phase := PostRevoke(p))
    case PostRevoke(p) =>
      if w.output.None? || !w.provider.Authenticates(p.token) then w.(phase := Idle)
      else w.(provider := w.provider.Revoke(p.sourceCredentialId), phase := Finished)
    case Finished => w.(phase := Idle)
  }

  /** A 256-bit random token is new when it is drawn, and the provider never gives out an id twice. */
  predicate Unused(w: World, random: Token, id: nat) {
    && (w.phase.AskSource? ==> random !in w.provider.creds && !Ours(w, random))
    && (w.phase.PostIssue? ==> !w.provider.KnowsId(id) && id != w.source.credentialId)
  }

  function Step(w: World, c: Choice): World {
    match c
    case Proceed(random, id) => if Unused(w, random, id) then Effect(w, random, id) else w
    case LoseReply(random, id) => if Unused(w, random, id) then Effect(w, random, id).(phase := Idle) else w
    case Fail => w.(phase := Idle)
    case Elsewhere(migrating, token, credential) =>
      // Others may do anything to the account but touch this client's own credentials. Nobody else holds
      // their tokens; that nobody else revokes them by id, which can be listed, is assumed.
      var p := w.provider.(migrating := migrating);
      if Ours(w, token) then w.(provider := p)
      else if credential.None? then w.(provider := p.(creds := p.creds - {token}))
      else if OurId(w, credential.value.id) then w.(provider := p)
      else w.(provider := p.(creds := p.creds[token := credential.value]))
  }

  function Run(w: World, cs: seq<Choice>): World
    decreases |cs|
  {
    if cs == [] then w else Run(Step(w, cs[0]), cs[1..])
  }

  // ---------------------------------------------------------------- what every run keeps

  /** Nothing retained yet, and the source file tells the truth about a live credential. */
  ghost predicate Initial(w: World) {
    && w.plan.None? && w.output.None? && w.phase.Idle? && w.issued == {}
    && w.source.token in w.provider.creds
    && w.provider.creds[w.source.token] == Credential(w.source.credentialId, w.source.scopes, true)
    && (forall t | t in w.provider.creds && w.provider.creds[t].id == w.source.credentialId :: t == w.source.token)
  }

  /** The replacement is issued, live, other than the source, and as capable as the plan says. */
  ghost predicate ReplacementLive(w: World, p: Plan) {
    && p.token in w.provider.creds
    && w.provider.creds[p.token].live
    && w.provider.creds[p.token].scopes == p.scopes
    && w.provider.creds[p.token].id != w.source.credentialId
  }

  ghost predicate SourceSound(w: World) {
    && w.source.token in w.provider.creds
    && w.provider.creds[w.source.token].id == w.source.credentialId
    && w.provider.creds[w.source.token].scopes == w.source.scopes
    && (forall t | t in w.provider.creds && w.provider.creds[t].id == w.source.credentialId :: t == w.source.token)
  }

  ghost predicate PlanSound(w: World, p: Plan) {
    && p.sourceCredentialId == w.source.credentialId
    && p.scopes == w.source.scopes
    && p.token != w.source.token
    && WRITE in p.scopes
    && p.owner == w.provider.owner
  }

  ghost predicate OutputSound(w: World) {
    w.output.Some? ==>
      && w.plan.Some?
      && w.output.value.owner == w.plan.value.owner
      && w.output.value.token == w.plan.value.token
      && w.output.value.scopes == w.plan.value.scopes
      && (w.output.value.credentialId.Some? ==>
            && w.plan.value.token in w.provider.creds
            && w.output.value.credentialId == Some(w.provider.creds[w.plan.value.token].id))
  }

  /** The source is revoked only once the replacement on disk works. */
  ghost predicate NeverLockedOut(w: World) {
    || w.provider.Authenticates(w.source.token)
    || (w.output.Some? && w.provider.Authenticates(w.output.value.token)
        && w.provider.creds[w.output.value.token].scopes == w.source.scopes)
  }

  /** What the phase of the current invocation says about disk and provider. */
  ghost predicate PhaseSound(w: World) {
    match w.phase
    case Idle => true
    case AskSource => w.plan.None? && w.output.None?
    case SavePlan(p) => w.plan.None? && w.output.None? && PlanSound(w, p) && p.token !in w.provider.creds
    case CheckPlan(p) => w.plan == Some(p)
    case SavePending(p) => w.plan == Some(p) && PlanMatches(w, p) && w.output.None?
    case AskReplacement(p) => w.plan == Some(p) && PlanMatches(w, p) && w.output.Some?
    case AskIssuer(p) => w.plan == Some(p) && PlanMatches(w, p) && w.output.Some? && !w.provider.Authenticates(p.token)
    case PostIssue(p) => w.plan == Some(p) && PlanMatches(w, p) && w.output.Some? && !w.provider.Authenticates(p.token)
    case SaveRecord(p, record) =>
      && w.plan == Some(p) && PlanMatches(w, p) && w.output.Some? && ReplacementLive(w, p)
      && record == Output(p.owner, p.token, p.scopes, Some(w.provider.creds[p.token].id))
    case AskAgain(p) => w.plan == Some(p) && PlanMatches(w, p) && w.output.Some? && ReplacementLive(w, p)
    case SaveFinal(p, final) =>
      && w.plan == Some(p) && PlanMatches(w, p) && w.output.Some? && ReplacementLive(w, p)
      && final == Output(p.owner, p.token, p.scopes, Some(w.provider.creds[p.token].id))
    case PostRevoke(p) =>
      && w.plan == Some(p) && PlanMatches(w, p) && ReplacementLive(w, p)
      && w.output == Some(Output(p.owner, p.token, p.scopes, Some(w.provider.creds[p.token].id)))
    case Finished =>
      && w.plan.Some? && ReplacementLive(w, w.plan.value) && !w.provider.Authenticates(w.source.token)
      && w.output == Some(Output(w.plan.value.owner, w.plan.value.token, w.plan.value.scopes, Some(w.provider.creds[w.plan.value.token].id)))
  }

  ghost predicate Inv(w: World) {
    && SourceSound(w)
    && (w.plan.Some? ==> PlanSound(w, w.plan.value) && (w.plan.value.token in w.provider.creds ==> ReplacementLive(w, w.plan.value)))
    && OutputSound(w)
    && NeverLockedOut(w)
    && PhaseSound(w)
    && (w.plan.None? ==> w.issued == {} && w.output.None?)
    && (w.plan.Some? ==> w.issued <= {w.plan.value.token})
  }

  /**
   * Nothing is planned, asked for or issued, and no replacement is taken over, while the account is
   * migrating. A plan says what the account says, and it and every issue need the write scope.
   */
  ghost predicate Permitted(w: World, x: World) {
    && (w.plan.None? && x.plan.Some? ==> w.phase == SavePlan(x.plan.value))
    && (x.phase.SavePlan? && !w.phase.SavePlan? ==>
          && !w.provider.migrating && w.provider.Authenticates(w.source.token)
          && w.provider.creds[w.source.token] == Credential(x.phase.plan.sourceCredentialId, x.phase.plan.scopes, true)
          && WRITE in x.phase.plan.scopes && x.phase.plan.owner == w.provider.owner
          && w.output.None?)
    && ((x.phase.PostIssue? && !w.phase.PostIssue?) || x.issued != w.issued ==>
          && !w.provider.migrating && w.provider.Authenticates(w.source.token)
          && WRITE in w.provider.creds[w.source.token].scopes)
    && (x.phase.SaveFinal? && !w.phase.SaveFinal? ==> !w.provider.migrating)
  }

  /** What one step may do to what is retained. */
  ghost predicate Lawful(w: World, x: World) {
    && x.source == w.source
    && Permitted(w, x)
    && (w.plan.Some? ==> x.plan == w.plan)
    && (w.output.Some? ==> x.output.Some? && x.output.value.token == w.output.value.token)
    // The source is revoked only while the replacement on disk is live with equal scopes.
    && (w.provider.Authenticates(w.source.token) && !x.provider.Authenticates(w.source.token) ==>
          && w.output.Some? && w.output.value.credentialId.Some?
          && w.provider.Authenticates(w.output.value.token)
          && w.provider.creds[w.output.value.token].scopes == w.source.scopes
          && w.provider.creds[w.output.value.token].id != w.source.credentialId)
  }

  lemma InitialInv(w: World)
    requires Initial(w)
    ensures Inv(w)
  {
  }

  lemma EffectKeeps(w: World, random: Token, id: nat)
    requires Inv(w) && Unused(w, random, id)
    ensures Inv(Effect(w, random, id)) && Lawful(w, Effect(w, random, id))
  {
    hide Inv, Lawful, Unused, Effect;
    match w.phase
    case Idle | AskSource | SavePlan(_) | CheckPlan(_) | SavePending(_) => PlanningKeeps(w, random, id);
    case AskReplacement(_) | AskIssuer(_) | PostIssue(_) => IssuingKeeps(w, random, id);
    case _ => ReplacingKeeps(w, random, id);
  }

  lemma PlanningKeeps(w: World, random: Token, id: nat)
    requires Inv(w) && Unused(w, random, id)
    requires w.phase.Idle? || w.phase.AskSource? || w.phase.SavePlan? || w.phase.CheckPlan? || w.phase.SavePending?
    ensures Inv(Effect(w, random, id)) && Lawful(w, Effect(w, random, id))
  {
  }

  lemma IssuingKeeps(w: World, random: Token, id: nat)
    requires Inv(w) && Unused(w, random, id)
    requires w.phase.AskReplacement? || w.phase.AskIssuer? || w.phase.PostIssue?
    ensures Inv(Effect(w, random, id)) && Lawful(w, Effect(w, random, id))
  {
  }

  lemma ReplacingKeeps(w: World, random: Token, id: nat)
    requires Inv(w) && Unused(w, random, id)
    requires w.phase.SaveRecord? || w.phase.AskAgain? || w.phase.SaveFinal? || w.phase.PostRevoke? || w.phase.Finished?
    ensures Inv(Effect(w, random, id)) && Lawful(w, Effect(w, random, id))
  {
  }

  /** Dying keeps everything but the phase. */
  lemma DyingKeeps(w: World)
    requires Inv(w)
    ensures Inv(w.(phase := Idle))
  {
  }

  /** What others leave alone: everything on disk, and every credential that is this client's own. */
  ghost predicate Spared(w: World, x: World) {
    && x == w.(provider := x.provider) && x.provider.owner == w.provider.owner
    && (forall t | Ours(w, t) :: t in x.provider.creds <==> t in w.provider.creds)
    && (forall t | t in w.provider.creds && Ours(w, t) :: x.provider.creds[t] == w.provider.creds[t])
    && (forall t | t in x.provider.creds && !Ours(w, t) :: !OurId(w, x.provider.creds[t].id) || (t in w.provider.creds && x.provider.creds[t] == w.provider.creds[t]))
  }

  lemma ElsewhereSpares(w: World, migrating: bool, token: Token, credential: Option<Credential>)
    ensures Spared(w, Step(w, Elsewhere(migrating, token, credential)))
  {
    hide Ours, OurId;
  }

  lemma SparedSource(w: World, x: World)
    requires Spared(w, x) && SourceSound(w)
    ensures SourceSound(x) && (x.provider.Authenticates(w.source.token) <==> w.provider.Authenticates(w.source.token))
  {
    assert Ours(w, w.source.token);
    forall t | t in x.provider.creds && x.provider.creds[t].id == w.source.credentialId
      ensures t == w.source.token
    {
      if !Ours(w, t) {
        assert OurId(w, w.source.credentialId);
      }
    }
  }

  lemma SparedPlan(w: World, x: World)
    requires Spared(w, x) && w.plan.Some?
    ensures PlanSound(x, w.plan.value) <==> PlanSound(w, w.plan.value)
    ensures ReplacementLive(x, w.plan.value) <==> ReplacementLive(w, w.plan.value)
    ensures PlanMatches(x, w.plan.value) <==> PlanMatches(w, w.plan.value)
    ensures x.provider.Authenticates(w.plan.value.token) <==> w.provider.Authenticates(w.plan.value.token)
    ensures w.plan.value.token in x.provider.creds <==> w.plan.value.token in w.provider.creds
    ensures w.plan.value.token in w.provider.creds ==> x.provider.creds[w.plan.value.token] == w.provider.creds[w.plan.value.token]
  {
    assert Ours(w, w.plan.value.token);
    hide OurId;
  }

  lemma SparedPhase(w: World, x: World)
    requires Spared(w, x) && PhaseSound(w) && SourceSound(w)
    ensures PhaseSound(x)
  {
    SparedSource(w, x);
    if w.plan.Some? {
      SparedPlan(w, x);
    } else if w.phase.SavePlan? {
      assert Ours(w, w.phase.plan.token);
    }
    hide Ours, OurId, ReplacementLive, PlanMatches, SourceSound;
  }

  lemma ElsewhereKeeps(w: World, migrating: bool, token: Token, credential: Option<Credential>)
    requires Inv(w)
    ensures Inv(Step(w, Elsewhere(migrating, token, credential))) && Lawful(w, Step(w, Elsewhere(migrating, token, credential)))
  {
    var x := Step(w, Elsewhere(migrating, token, credential));
    ElsewhereSpares(w, migrating, token, credential);
    SparedSource(w, x);
    SparedPhase(w, x);
    if w.plan.Some? {
      SparedPlan(w, x);
    }
    hide Step, Ours, OurId, ReplacementLive, PlanMatches, PlanSound, SourceSound, PhaseSound;
  }

  lemma StepKeeps(w: World, c: Choice)
    requires Inv(w)
    ensures Inv(Step(w, c)) && Lawful(w, Step(w, c))
  {
    match c
    case Proceed(random, id) =>
      if Unused(w, random, id) {
        EffectKeeps(w, random, id);
      }
    case LoseReply(random, id) =>
      if Unused(w, random, id) {
        EffectKeeps(w, random, id);
        DyingKeeps(Effect(w, random, id));
      }
    case Fail => DyingKeeps(w);
    case Elsewhere(m, t, cr) => ElsewhereKeeps(w, m, t, cr);
  }

  /**
   * Every run: nobody is ever locked out, the plan and with it the replacement token is written
   * once, and at most that one token is ever issued.
   */
  lemma {:induction false} EveryRun(w: World, cs: seq<Choice>)
    requires Inv(w)
    ensures Inv(Run(w, cs)) && NeverLockedOut(Run(w, cs))
    ensures Run(w, cs).source == w.source
    ensures w.plan.Some? ==> Run(w, cs).plan == w.plan && Run(w, cs).issued <= {w.plan.value.token}
    decreases |cs|
  {
    if cs != [] {
      StepKeeps(w, cs[0]);
      EveryRun(Step(w, cs[0]), cs[1..]);
    }
  }

  /**
   * Every step of every run keeps what is retained, no step of any run plans or issues while the
   * account is migrating, and none revokes the source except under a live replacement on disk that
   * has its own id and the same scopes.
   */
  lemma EveryStepOfEveryRun(w: World, cs: seq<Choice>, c: Choice)
    requires Initial(w)
    ensures Lawful(Run(w, cs), Step(Run(w, cs), c)) && Inv(Step(Run(w, cs), c))
  {
    InitialInv(w);
    EveryRun(w, cs);
    StepKeeps(Run(w, cs), c);
  }

  // ---------------------------------------------------------------- progress

  ghost predicate Done(w: World) {
    && w.plan.Some? && w.output.Some?
    && w.output.value.credentialId.Some?
    && w.provider.Authenticates(w.output.value.token)
    && w.provider.creds[w.output.value.token].scopes == w.source.scopes
    && !w.provider.Authenticates(w.source.token)
  }

  /** Steps without faults, and what is left to do in the worst case from each phase. */
  predicate Calm(w: World, cs: seq<Choice>)
    decreases |cs|
  {
    cs == [] || (cs[0].Proceed? && Unused(w, cs[0].random, cs[0].id) && Calm(Step(w, cs[0]), cs[1..]))
  }

  function Remaining(phase: Phase): nat {
    match phase
    case Idle => 12
    case AskSource => 11
    case SavePlan(_) => 10
    case CheckPlan(_) => 9
    case SavePending(_) => 8
    case AskReplacement(_) => 7
    case AskIssuer(_) => 6
    case PostIssue(_) => 5
    case SaveRecord(_, _) => 4
    case AskAgain(_) => 3
    case SaveFinal(_, _) => 2
    case PostRevoke(_) => 1
    case Finished => 0
  }

  /** The account is where the source file says, can rotate, and is not being moved. */
  ghost predicate Serviceable(w: World) {
    && w.provider.owner == w.source.owner && !w.provider.migrating
    && WRITE in w.source.scopes
  }

  lemma CalmStep(w: World, random: Token, id: nat)
    requires Inv(w) && Serviceable(w) && Unused(w, random, id) && !w.phase.Finished?
    ensures var x := Effect(w, random, id); Inv(x) && Serviceable(x) && Remaining(x.phase) < Remaining(w.phase)
  {
    EffectKeeps(w, random, id);
  }

  /** However badly things went before, twelve steps without faults finish the rotation. */
  lemma {:induction false} CalmRunFinishes(w: World, cs: seq<Choice>)
    requires Inv(w) && Serviceable(w)
    requires Calm(w, cs) && |cs| == Remaining(w.phase)
    ensures exists n :: 0 <= n <= |cs| && Run(w, cs[..n]).phase.Finished? && Done(Run(w, cs[..n]))
    decreases |cs|
  {
    if w.phase.Finished? {
      FinishedIsDone(w);
      assert Run(w, cs[..0]) == w;
    } else {
      CalmStep(w, cs[0].random, cs[0].id);
      var x := Step(w, cs[0]);
      var left := Remaining(x.phase);
      hide Inv, Serviceable, Step, Done, Effect, Run, Remaining;
      var rest := cs[1..][..left];
      CalmPrefix(x, cs[1..], left);
      CalmRunFinishes(x, rest);
      var n :| 0 <= n <= |rest| && Run(x, rest[..n]).phase.Finished? && Done(Run(x, rest[..n]));
      RunFirst(w, cs, n);
      assert rest[..n] == cs[1..][..n];
    }
  }

  lemma FinishedIsDone(w: World)
    requires Inv(w) && w.phase.Finished?
    ensures Done(w)
  {
  }

  lemma RunFirst(w: World, cs: seq<Choice>, n: nat)
    requires n < |cs|
    ensures Run(w, cs[..n + 1]) == Run(Step(w, cs[0]), cs[1..][..n])
  {
    hide Step;
    assert cs[..n + 1][1..] == cs[1..][..n];
  }

  lemma {:induction false} CalmPrefix(w: World, cs: seq<Choice>, n: nat)
    requires Calm(w, cs) && n <= |cs|
    ensures Calm(w, cs[..n])
    decreases n
  {
    hide Step;
    if n > 0 {
      CalmPrefix(Step(w, cs[0]), cs[1..], n - 1);
      FrontRest(cs, n);
    }
  }

  lemma FrontRest(cs: seq<Choice>, n: nat)
    requires 0 < n <= |cs|
    ensures cs[..n][0] == cs[0] && cs[..n][1..] == cs[1..][..n - 1]
  {
  }

  /** After any run at all, one more invocation without faults finishes. */
  lemma AnyRunCanFinish(w: World, cs: seq<Choice>, calm: seq<Choice>)
    requires Initial(w) && Serviceable(Run(w, cs + [Fail]))
    requires Calm(Run(w, cs + [Fail]), calm) && |calm| == 12
    ensures exists n :: 0 <= n <= 12 && Done(Run(w, cs + [Fail] + calm[..n]))
  {
    InitialInv(w);
    EveryRun(w, cs + [Fail]);
    RunAppend(w, cs, [Fail]);
    var x := Run(w, cs + [Fail]);
    assert x.phase.Idle? by {
      assert [Fail][1..] == [];
      assert Run(Run(w, cs), [Fail]) == Step(Run(w, cs), Fail);
    }
    CalmRunFinishes(x, calm);
    var n :| 0 <= n <= |calm| && Run(x, calm[..n]).phase.Finished? && Done(Run(x, calm[..n]));
    RunAppend(w, cs + [Fail], calm[..n]);
  }

  lemma {:induction false} RunAppend(w: World, a: seq<Choice>, b: seq<Choice>)
    ensures Run(w, a + b) == Run(Run(w, a), b)
    decreases |a|
  {
    if a == [] {
      assert a + b == b;
    } else {
      assert (a + b)[1..] == a[1..] + b;
      RunAppend(Step(w, a[0]), a[1..], b);
    }
  }
}
