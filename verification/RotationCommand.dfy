/**
 * Credential rotation as it runs: one invocation reads and writes its two files and calls the
 * provider in order. Without faults it is a run of the step machine in Rotation, so what that
 * machine keeps at every step holds at every point where the invocation could have died.
 */
module RotationCommand {
  import opened Options
  import opened Rotation

  /** A run with one more step. */
  lemma RunSnoc(w: World, cs: seq<Choice>, c: Choice)
    ensures Run(w, cs + [c]) == Step(Run(w, cs), c)
  {
    RunAppend(w, cs, [c]);
    assert [c][1..] == [];
  }

  /** The token an invocation would draw and the id the provider would give are new. */
  ghost predicate New(w: World, token: Token, id: nat) {
    token !in w.provider.creds && !Ours(w, token) && !w.provider.KnowsId(id) && id != w.source.credentialId
  }

  /** Where a step without faults leads on: the invariant holds and the account can be served. */
  ghost predicate Fine(w: World) { Inv(w) && Serviceable(w) && !w.phase.Finished? }

  /** If all was fine before, something has been achieved since. */
  ghost predicate Onward(before: World, now: World) {
    Fine(before) ==> Inv(now) && Serviceable(now) && Remaining(now.phase) < Remaining(before.phase)
  }

  class Invocation {
    const source: Source
    var plan: Option<Plan>
    var output: Option<Output>
    var provider: Provider
    /** The step machine, and the steps it has taken. */
    ghost var world: World
    ghost var steps: seq<Choice>

    constructor (w: World)
      requires w.phase.Idle? && Inv(w)
      ensures world == w && steps == [] && Agrees(w)
    {
      source, plan, output, provider := w.source, w.plan, w.output, w.provider;
      world, steps := w, [];
    }

    /** Files and account are those of the step machine, which came here from `start`. */
    ghost predicate Agrees(start: World)
      reads this
    {
      && world.source == source && world.plan == plan && world.output == output && world.provider == provider
      && world == Run(start, steps)
    }

    ghost method Take(start: World, token: Token, id: nat)
      requires world == Run(start, steps) && Unused(world, token, id)
      modifies this`world, this`steps
      ensures world == Effect(old(world), token, id) && world == Run(start, steps)
      ensures Onward(old(world), world)
    {
      if Fine(world) {
        CalmStep(world, token, id);
      }
      hide Effect, Unused, Run, Onward;
      RunSnoc(start, steps, Proceed(token, id));
      world, steps := Step(world, Proceed(token, id)), steps + [Proceed(token, id)];
    }

    /** The plan is made once, from what the provider says of the source credential. */
    method MakePlan(ghost start: World, token: Token) returns (ok: bool)
      requires Agrees(start) && world.phase.Idle? && plan.None?
      requires token !in provider.creds && !Ours(world, token)
      modifies this
      ensures Agrees(start) && output == old(output) && provider == old(provider)
      ensures ok ==> plan.Some? && world.phase == CheckPlan(plan.value)
      ensures ok ==> !provider.migrating && plan.value == Plan(provider.owner, source.credentialId, token, source.scopes)
      ensures !ok ==> world.phase.Idle? && plan.None?
      ensures Onward(old(world), world)
    {
      hide Inv, Serviceable, Run, WRITE;
      Take(start, 0, 0);
      if output.Some? { return false; }
      Take(start, token, 0);
      if !provider.Authenticates(source.token) { return false; }
      var current := provider.creds[source.token];
      if current.id != source.credentialId || provider.migrating || WRITE !in current.scopes || current.scopes != source.scopes {
        return false;
      }
      plan := Some(Plan(provider.owner, current.id, token, current.scopes));
      Take(start, 0, 0);
      return true;
    }

    /** The pending request is written once, and must be the planned one ever after. */
    method MakePending(ghost start: World) returns (ok: bool)
      requires Agrees(start) && plan.Some? && world.phase == CheckPlan(plan.value)
      modifies this
      ensures Agrees(start) && plan == old(plan) && provider == old(provider)
      ensures ok ==> output.Some? && world.phase == AskReplacement(plan.value)
      ensures !ok ==> world.phase.Idle?
      ensures Onward(old(world), world)
    {
      hide Inv, Serviceable, Run;
      var p := plan.value;
      Take(start, 0, 0);
      if p.owner != source.owner || p.sourceCredentialId != source.credentialId || p.scopes != source.scopes
         || p.token == source.token || WRITE !in p.scopes
      {
        return false;
      }
      if output.Some? {
        var saved := output.value;
        return saved.owner == p.owner && saved.token == p.token && saved.scopes == p.scopes;
      }
      output := Some(Output(p.owner, p.token, p.scopes, None));
      Take(start, 0, 0);
      return true;
    }

    /** Issue, or issue again, the credential that the output file asks for, and record it there. */
    method Create(ghost start: World, id: nat) returns (ok: bool)
      requires Agrees(start) && plan.Some? && output.Some? && world.phase == AskIssuer(plan.value)
      requires !provider.KnowsId(id) && id != source.credentialId
      modifies this
      ensures Agrees(start) && plan == old(plan)
      ensures ok ==> output.Some? && world.phase == AskAgain(plan.value)
      ensures !ok ==> world.phase.Idle?
      ensures provider == old(provider) || !old(provider).migrating
      ensures ok ==> !old(provider).migrating
      ensures Onward(old(world), world)
    {
      hide Inv, Serviceable, Run;
      var p, saved := plan.value, output.value;
      Take(start, 0, 0);
      if !provider.Authenticates(source.token) || provider.migrating { return false; }
      var account := provider.creds[source.token];
      if WRITE !in account.scopes { return false; }
      if saved.owner != provider.owner || saved.scopes != p.scopes || !(p.scopes <= account.scopes) { return false; }
      provider := provider.Issue(saved.token, p.scopes, id);
      Take(start, 0, id);
      var issued := provider.creds[saved.token];
      if issued.scopes != p.scopes || (saved.credentialId.Some? && saved.credentialId != Some(issued.id)) { return false; }
      output := Some(Output(provider.owner, saved.token, issued.scopes, Some(issued.id)));
      Take(start, 0, 0);
      return true;
    }

    /** One invocation of rotate. */
    method Rotate(ghost start: World, token: Token, id: nat) returns (ok: bool)
      requires Agrees(start) && start == world && world.phase.Idle? && New(world, token, id)
      modifies this
      ensures Agrees(start)
      ensures ok <==> world.phase.Finished?
      ensures !ok ==> world.phase.Idle?
      ensures old(provider).migrating ==> !ok && plan == old(plan) && provider == old(provider)
      ensures Onward(old(world), world)
    {
      hide Inv, Serviceable, Run;
      if plan.None? {
        var planned := MakePlan(start, token);
        if !planned { return false; }
      } else {
        Take(start, 0, 0);
      }
      var pending := MakePending(start);
      if !pending { return false; }
      var p := plan.value;
      Take(start, 0, 0);
      if !provider.Authenticates(output.value.token) {
        var created := Create(start, id);
        if !created { return false; }
        Take(start, 0, 0);
        if !provider.Authenticates(output.value.token) { return false; }
      }
      ok := Replace(start, p);
    }

    /** The replacement is checked and recorded in full before it revokes the source. */
    method Replace(ghost start: World, p: Plan) returns (ok: bool)
      requires output.Some? && provider.Authenticates(output.value.token)
      requires world.source == source && world.plan == plan && world.output == output && world.provider == provider
      requires world == Run(start, steps)
      requires if ReplacementMatches(world, p, output.value.token)
               then world.phase == SaveFinal(p, Final(world, p, output.value.token)) else world.phase.Idle?
      modifies this
      ensures Agrees(start) && plan == old(plan)
      ensures ok <==> world.phase.Finished?
      ensures !ok ==> world.phase.Idle?
      ensures provider == old(provider) || !old(provider).migrating
      ensures ok ==> !old(provider).migrating
      ensures world == old(world) || Onward(old(world), world)
    {
      hide Inv, Serviceable, Run;
      var account := provider.creds[output.value.token];
      if account.id == p.sourceCredentialId || provider.migrating || account.scopes != p.scopes { return false; }
      output := Some(Output(p.owner, p.token, account.scopes, Some(account.id)));
      Take(start, 0, 0);
      if provider.Authenticates(p.token) {
        provider := provider.Revoke(p.sourceCredentialId);
        Take(start, 0, 0);
        return true;
      }
      Take(start, 0, 0);
      return false;
    }
  }

  /**
   * However far an invocation gets, from any state that runs can reach: nobody is locked out, and a
   * finished one has replaced the source by a live credential with the same scopes. If the account is
   * as the source file says and can rotate, it does finish; while it is migrating nothing is planned,
   * issued or revoked.
   */
  method RotateSafely(w: World, token: Token, id: nat) returns (ok: bool, plan: Option<Plan>, output: Option<Output>, provider: Provider)
    requires Inv(w) && w.phase.Idle? && New(w, token, id)
    ensures ok ==>
              && output.Some? && output.value.credentialId.Some?
              && provider.Authenticates(output.value.token) && provider.creds[output.value.token].scopes == w.source.scopes
              && !provider.Authenticates(w.source.token)
    ensures provider.Authenticates(w.source.token)
            || (output.Some? && provider.Authenticates(output.value.token) && provider.creds[output.value.token].scopes == w.source.scopes)
    ensures w.plan.Some? ==> plan == w.plan
    ensures Serviceable(w) ==> ok
    ensures w.provider.migrating ==> !ok && plan == w.plan && provider == w.provider
  {
    hide Run, Effect;
    var invocation := new Invocation(w);
    ok := invocation.Rotate(w, token, id);
    assert Serviceable(w) ==> Remaining(invocation.world.phase) < Remaining(Idle);
    EveryRun(w, invocation.steps);
    plan, output, provider := invocation.plan, invocation.output, invocation.provider;
  }
}
