/**
 * What grant updates and revocations need before they write: an account that may, a record that its
 * owner signed, and arguments that are the retained ones. The categories they select are those that
 * the payload codec takes.
 */
module GrantWarrants {
  import opened Octets
  import opened Options
  import opened KeyOrder
  import opened Grants
  import Cose
  import P = Payloads
  import Prefilters

  // ---------------------------------------------------------------- update

  /** The retained request is this account's, for this grant, and asks for what the arguments ask. */
  predicate Requested(i: UpdateInput, q: Request) {
    && q.provider == i.account.provider && q.accountId == i.account.accountId && Some(q.key) == i.account.key
    && q.grantId == i.id && q.choice == i.choice && q.refresh == i.refresh && q.sender == i.sender
    && multiset(q.scope) == multiset(i.categories)
  }

  /** The base of a request is the provider's active record of a grant that this account gave. */
  predicate FromRecord(c: Codec, i: UpdateInput, b: Bytes) {
    && i.record == Some(Record(true, b)) && c.inspect(b).Some?
    && var g := c.inspect(b).value;
       g.id == i.id && g.grantor == i.account.did && g.status.Active?
  }

  /** The proposal continues the base that the owner signed, for the owner's own key, as the arguments ask. */
  ghost predicate Continues(c: Codec, i: UpdateInput, q: Request, p: Grant) {
    && c.signedBy(q.base, q.key) && c.inspect(q.base).Some? && c.valid(p)
    && var base := c.inspect(q.base).value;
       && base.keyId == i.account.did + "#hail-identity" == p.keyId
       && p.id == i.id && p.grantor == i.account.did && p.grantee == base.grantee && p.issuedAt == base.issuedAt
       && p.revision == base.revision + 1 && p.previous == Some(c.digest(q.base)) && p.status.Active?
       && base.updatedAt < p.updatedAt <= i.now + 300
       && multiset(p.scope) == multiset(i.categories)
       && (match i.choice
           case Keep => p.expiresAt == base.expiresAt
           case Never => p.expiresAt.None?
           case Until(at) => p.expiresAt == Some(at))
       && (p.context == base.context || p.context.address == c.lower(if i.sender.Some? then i.sender.value else base.context.address))
  }

  /** What one write of an update may add, and on what grounds. */
  ghost predicate UpdateWarranted(c: Codec, f: Files, i: UpdateInput, g: Files) {
    && g.request.Some? && Requested(i, g.request.value)
    && (if f.request.Some? then g.request.value.base == f.request.value.base else FromRecord(c, i, g.request.value.base))
    && (g.output != f.output || g.submitted != f.submitted || g.asked != f.asked ==>
          g.request.value.proposal.Some? && Continues(c, i, g.request.value, g.request.value.proposal.value))
    && (g.output != f.output ==> g.output.Some?)
    && (g.submitted != f.submitted ==> !i.account.managed && g.output.Some? && g.submitted == f.submitted + [g.output.value])
    && (g.asked != f.asked ==> i.account.managed && g.asked == f.asked + [g.request.value.proposal.value])
    && (g.output != f.output || g.submitted != f.submitted ==>
          && (i.account.managed || f.output.Some? || i.unlocked)
          && (Lawful(c) ==> c.signedBy(g.output.value, g.request.value.key) && c.inspect(g.output.value) == g.request.value.proposal))
  }

  /** Updates write nothing for an account that may not write or is migrating, and nothing without warrant. */
  lemma UpdateIsWarranted(c: Codec, f: Files, i: UpdateInput, g: Files)
    requires g in Update(c, f, i)
    ensures i.account.mayWrite && !i.account.migrating && i.account.key.Some? && i.account.managed != i.vault
    ensures UpdateWarranted(c, f, i, g)
  {
    hide SelectScope, UpdateFrom, UpdateWarranted;
    SelectScopeMeans(i.categories);
    var selected := SelectScope(i.categories).value;
    if f.request.Some? {
      ContinuationIsWarranted(c, f, i, selected, g);
    } else {
      var q := StartUpdate(c, i, selected).value;
      StartIsWarranted(c, f, i, selected, q);
      var f1 := f.(request := Some(q));
      if g in UpdateFrom(c, f1, i, selected) {
        ContinuationIsWarranted(c, f1, i, selected, g);
        StartsFromRecord(c, f, f1, i, g);
      }
    }
  }

  lemma StartIsWarranted(c: Codec, f: Files, i: UpdateInput, selected: seq<Category>, q: Request)
    requires i.account.key.Some? && f.request.None? && StartUpdate(c, i, selected) == Some(q) && multiset(selected) == multiset(i.categories)
    ensures Requested(i, q) && FromRecord(c, i, q.base) && UpdateWarranted(c, f, i, f.(request := Some(q)))
  {
    hide Continues;
  }

  lemma StartsFromRecord(c: Codec, f: Files, f1: Files, i: UpdateInput, g: Files)
    requires f.request.None? && f1 == f.(request := f1.request) && f1.request.Some? && FromRecord(c, i, f1.request.value.base)
    requires UpdateWarranted(c, f1, i, g)
    ensures UpdateWarranted(c, f, i, g)
  {
    hide Continues, Requested, Lawful;
  }

  lemma ContinuationIsWarranted(c: Codec, f: Files, i: UpdateInput, selected: seq<Category>, g: Files)
    requires f.request.Some? && g in UpdateFrom(c, f, i, selected) && multiset(selected) == multiset(i.categories)
    ensures UpdateWarranted(c, f, i, g)
  {
    hide Acceptable, SignUpdate, Verify, Lawful, Continues, UpdateWarranted;
    var q := f.request.value;
    var base := Verify(c, q.base, q.key).value;
    var p := (if q.proposal.Some? then q.proposal else i.proposal).value;
    var f1 := f.(request := Some(q.(proposal := Some(p))));
    if g == f1 {
      ProposalIsWarranted(c, f, i, f1);
    } else {
      AcceptableContinues(c, i, selected, q, base, p);
      SigningIsWarranted(c, f, f1, i, q.(proposal := Some(p)), p, g);
    }
  }

  lemma ProposalIsWarranted(c: Codec, f: Files, i: UpdateInput, g: Files)
    requires f.request.Some? && g == f.(request := g.request) && g.request.Some?
    requires Requested(i, g.request.value) && g.request.value.base == f.request.value.base
    ensures UpdateWarranted(c, f, i, g)
  {
    hide Continues, Requested, Lawful;
  }

  lemma AcceptableContinues(c: Codec, i: UpdateInput, selected: seq<Category>, q: Request, base: Grant, p: Grant)
    requires Verify(c, q.base, q.key) == Some(base) && base.keyId == KeyIdOf(i.account.did)
    requires Acceptable(c, i, q.base, base, selected, p) && multiset(selected) == multiset(i.categories)
    ensures Continues(c, i, q.(proposal := Some(p)), p)
  {
    hide Restricts;
  }

  lemma SigningIsWarranted(c: Codec, f: Files, f1: Files, i: UpdateInput, q: Request, p: Grant, g: Files)
    requires f.request.Some? && f1 == f.(request := Some(q)) && q.base == f.request.value.base && q.proposal == Some(p)
    requires Requested(i, q) && Continues(c, i, q, p) && g in SignUpdate(c, f1, i, q.key, p)
    ensures UpdateWarranted(c, f, i, g)
  {
    hide Continues, Requested, GrantRules;
  }

  // ---------------------------------------------------------------- revoke

  /** Revocations rest on the provider's record, signed with the vault's key, of a grant the vault's owner gave. */
  lemma RevokeIsWarranted(c: Codec, f: Files, i: RevokeInput, g: Files)
    requires g in Revoke(c, f, i)
    ensures i.account.mayWrite && !i.account.managed && i.vault && i.unlocked && i.vaultDid == i.account.did
    ensures i.record.Some? && c.signedBy(i.record.value.bytes, i.vaultKey) && c.inspect(i.record.value.bytes).Some?
    ensures c.inspect(i.record.value.bytes).value.id == i.id && c.inspect(i.record.value.bytes).value.grantor == i.account.did
    ensures g == f.(output := g.output, submitted := g.submitted)
    ensures g.output.Some? && c.signedBy(g.output.value, i.vaultKey) && (f.output.Some? ==> g.output == f.output)
    ensures g.submitted == f.submitted || (g.submitted == f.submitted + [g.output.value] && |g.output.value| <= 262144)
    ensures c.inspect(i.record.value.bytes).value.status.Active? ==>
              c.inspect(g.output.value).Some?
              && c.inspect(i.record.value.bytes).value.updatedAt < c.inspect(g.output.value).value.updatedAt <= i.now + 300
  {
  }

  // ---------------------------------------------------------------- categories

  function Asciis(ts: seq<string>): (r: seq<Category>)
    ensures |r| == |ts| && forall i | 0 <= i < |ts| :: r[i] == Cose.Ascii(ts[i])
  {
    seq(|ts|, i requires 0 <= i < |ts| => Cose.Ascii(ts[i]))
  }

  /** The client and the codec agree on what a category is. */
  lemma CategoriesAgree(t: string)
    ensures CategoryName(Cose.Ascii(t)) <==> P.Category(t)
  {
    var s := Cose.Ascii(t);
    forall i | 0 <= i < |t|
      ensures LowerOrDigit(s[i]) <==> P.Lower(t[i]) || P.Digit(t[i])
      ensures s[i] == 46 <==> t[i] == '.'
      ensures s[i] == 95 <==> t[i] == '_'
      ensures s[i] == 45 <==> t[i] == '-'
    {
      assert s[i] == if t[i] as int < 128 then t[i] as int else 63;
    }
    hide Cose.Ascii, LowerOrDigit, P.Lower, P.Digit;
    if CategoryName(s) {
      forall i | 1 <= i < |t|
        ensures P.Lower(t[i]) || P.Digit(t[i]) || t[i] == '.' || t[i] == '_' || t[i] == '-'
      {
        assert s[i] in s;
      }
    }
    if P.Category(t) {
      forall o | o in s
        ensures LowerOrDigit(o) || o == 46 || o == 95 || o == 45
      {
        var i :| 0 <= i < |s| && s[i] == o;
      }
    }
  }

  ghost predicate Plain(t: string) { forall i | 0 <= i < |t| :: t[i] as int < 128 }

  lemma CategoryIsPlain(t: string)
    requires P.Category(t)
    ensures Plain(t)
  {
  }

  lemma {:induction false} OrdersAgree(a: string, b: string)
    requires Plain(a) && Plain(b)
    ensures P.Before(a, b) <==> LexLess(Cose.Ascii(a), Cose.Ascii(b))
    decreases |a|
  {
    if a != [] && b != [] {
      assert Cose.Ascii(a)[1..] == Cose.Ascii(a[1..]) && Cose.Ascii(b)[1..] == Cose.Ascii(b[1..]);
      assert Cose.Ascii(a)[0] == a[0] as int && Cose.Ascii(b)[0] == b[0] as int;
      OrdersAgree(a[1..], b[1..]);
    }
  }

  /** Neighbours that ascend make a list that ascends. */
  lemma {:induction false} AscendingFar(s: seq<Category>, i: nat, j: nat)
    requires i < j < |s| && forall k | 1 <= k < |s| :: LexLess(s[k - 1], s[k])
    ensures LexLess(s[i], s[j])
    decreases j
  {
    hide LexLess;
    if i < j - 1 {
      AscendingFar(s, i, j - 1);
      LexTransitive(s[i], s[j - 1], s[j]);
    }
  }

  /** What update selects is what the codec takes as a scope, neither more nor less. */
  lemma SelectionIsWhatTheCodecTakes(ts: seq<string>)
    ensures SelectScope(Asciis(ts)) == Some(Asciis(ts)) <==> Prefilters.GoodCategories(ts)
  {
    hide SelectScope, CategoryName, LexLess, P.Category, P.Before, Cose.Ascii;
    var vs := Asciis(ts);
    SelectScopeMeans(vs);
    forall i | 0 <= i < |ts|
      ensures CategoryName(vs[i]) <==> P.Category(ts[i])
    {
      CategoriesAgree(ts[i]);
    }
    if (forall i | 0 <= i < |ts| :: P.Category(ts[i])) && ts != [] {
      forall i | 1 <= i < |ts|
        ensures P.Before(ts[i - 1], ts[i]) <==> LexLess(vs[i - 1], vs[i])
      {
        CategoryIsPlain(ts[i - 1]);
        CategoryIsPlain(ts[i]);
        OrdersAgree(ts[i - 1], ts[i]);
      }
      if Prefilters.GoodCategories(ts) {
        GoodIsSelected(vs);
      }
    }
    if SelectScope(vs) == Some(vs) {
      forall i | 0 <= i < |ts|
        ensures P.Category(ts[i])
      {
        assert vs[i] in vs;
      }
    }
  }

  lemma GoodIsSelected(vs: seq<Category>)
    requires vs != [] && (forall v | v in vs :: CategoryName(v)) && forall k | 1 <= k < |vs| :: LexLess(vs[k - 1], vs[k])
    ensures SelectScope(vs) == Some(vs)
  {
    hide SelectScope, CategoryName, LexLess;
    SelectScopeMeans(vs);
    forall i, j | 0 <= i < j < |vs|
      ensures LexLess(vs[i], vs[j])
    {
      AscendingFar(vs, i, j);
    }
    AscendingIsDistinct(vs);
    SameMembers(SelectScope(vs).value, vs);
    SameScope(SelectScope(vs).value, vs);
  }

  /** However the categories were given, the selection is a scope that the codec takes. */
  lemma SelectionIsGood(values: seq<string>, ts: seq<string>)
    requires SelectScope(Asciis(values)) == Some(Asciis(ts))
    ensures Prefilters.GoodCategories(ts)
  {
    hide SelectScope, CategoryName, LexLess, Cose.Ascii, Prefilters.GoodCategories;
    var vs := Asciis(ts);
    SelectScopeMeans(Asciis(values));
    SameMembers(vs, Asciis(values));
    GoodIsSelected(vs);
    SelectionIsWhatTheCodecTakes(ts);
  }
}
