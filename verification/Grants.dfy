/**
 * The lineage of a grant: `update` and `revoke` build the next revision from the current one, sign
 * it, keep it on disk and submit it. Disk and outbox are one value, and a command is the sequence
 * of values it passes through, so a crash may leave any of them; what the provider answers is an
 * input.
 */
module Grants {
  import opened Octets
  import opened Options
  import opened Journals
  import opened KeyOrder

  type Text = string
  type Bytes = seq<Octet>
  /** A category, as the octets of its ASCII name. */
  type Category = seq<Octet>

  datatype Context = Context(address: Text, bindingHash: Text, profileHash: Text)

  datatype Status = Active | Revoked

  datatype Grant = Grant(
    id: Text, grantor: Text, grantee: Text, issuedAt: int, revision: int, previous: Option<Text>, status: Status,
    updatedAt: int, scope: seq<Category>, expiresAt: Option<int>, context: Context, keyId: Text)

  /** The record codec: `inspect` decodes and validates, `sign` makes a signed record or fails. */
  datatype Codec = Codec(
    inspect: Bytes -> Option<Grant>,
    signedBy: (Bytes, Text) -> bool,
    sign: (Grant, Text) -> Option<Bytes>,
    valid: Grant -> bool,
    digest: Bytes -> Text,
    lower: Text -> Text)

  function Verify(c: Codec, b: Bytes, key: Text): Option<Grant> {
    if c.signedBy(b, key) then c.inspect(b) else None
  }

  /** What a validated grant is known to have. */
  ghost predicate GrantRules(g: Grant) {
    && StrictlyAscending(g.scope)
    && g.keyId == g.grantor + "#hail-identity"
  }

  ghost predicate Lawful(c: Codec) {
    && (forall b | c.inspect(b).Some? :: GrantRules(c.inspect(b).value))
    && (forall g: Grant, key | c.sign(g, key).Some? :: Verify(c, c.sign(g, key).value, key) == Some(g))
  }

  // ---------------------------------------------------------------- scopes and deadlines

  ghost predicate StrictlyAscending(scope: seq<Category>) {
    scope != [] && forall i, j | 0 <= i < j < |scope| :: LexLess(scope[i], scope[j])
  }

  function Insert(v: Category, sorted: seq<Category>): seq<Category> {
    if sorted == [] || LexLess(v, sorted[0]) then [v] + sorted else [sorted[0]] + Insert(v, sorted[1..])
  }

  function Sort(values: seq<Category>): seq<Category> {
    if values == [] then [] else Insert(values[0], Sort(values[1..]))
  }

  predicate CategoryName(s: Category) {
    && 0 < |s| <= 64
    && (LowerOrDigit(s[0]))
    && forall o | o in s :: LowerOrDigit(o) || o == 46 || o == 95 || o == 45
  }

  predicate LowerOrDigit(o: Octet) { 97 <= o <= 122 || 48 <= o <= 57 }

  /** The requested categories in order, unless there are none, a repeated one or a malformed one. */
  function SelectScope(values: seq<Category>): Option<seq<Category>> {
    var sorted := Sort(values);
    if sorted == [] || (exists i | 0 <= i < |sorted| - 1 :: sorted[i] == sorted[i + 1])
       || (exists s | s in sorted :: !CategoryName(s))
    then None else Some(sorted)
  }

  ghost predicate NonDescending(s: seq<Category>) { forall i, j | 0 <= i < j < |s| :: !LexLess(s[j], s[i]) }

  lemma {:induction false} InsertCounts(v: Category, sorted: seq<Category>)
    ensures multiset(Insert(v, sorted)) == multiset(sorted) + multiset{v}
    decreases sorted
  {
    if sorted != [] && !LexLess(v, sorted[0]) {
      InsertCounts(v, sorted[1..]);
      assert sorted == [sorted[0]] + sorted[1..];
    }
  }

  lemma {:induction false} InsertKeeps(v: Category, sorted: seq<Category>)
    requires NonDescending(sorted)
    ensures NonDescending(Insert(v, sorted))
    decreases sorted
  {
    hide LexLess;
    if sorted != [] && !LexLess(v, sorted[0]) {
      var rest := sorted[1..];
      InsertKeeps(v, rest);
      InsertCounts(v, rest);
      NothingBelow(sorted[0], Insert(v, rest), rest, v);
      assert Insert(v, sorted) == [sorted[0]] + Insert(v, rest);
    } else {
      forall j | 0 <= j < |sorted|
        ensures !LexLess(sorted[j], v)
      {
        LexTotal(sorted[j], v);
        LexTotal(v, sorted[0]);
        if LexLess(sorted[j], v) {
          LexTransitive(sorted[j], v, sorted[0]);
        }
      }
      assert Insert(v, sorted) == [v] + sorted;
    }
  }

  lemma NothingBelow(x: Category, all: seq<Category>, rest: seq<Category>, v: Category)
    requires multiset(all) == multiset(rest) + multiset{v}
    requires !LexLess(v, x) && forall r | r in rest :: !LexLess(r, x)
    ensures forall a | a in all :: !LexLess(a, x)
  {
    hide LexLess;
    forall a | a in all
      ensures !LexLess(a, x)
    {
      assert a in multiset(all);
    }
  }

  lemma {:induction false} SortKeeps(values: seq<Category>)
    ensures multiset(Sort(values)) == multiset(values)
    ensures NonDescending(Sort(values))
  {
    hide LexLess;
    if values != [] {
      SortKeeps(values[1..]);
      InsertKeeps(values[0], Sort(values[1..]));
      InsertCounts(values[0], Sort(values[1..]));
      assert values == [values[0]] + values[1..];
    }
  }

  /**
   * A selection succeeds exactly on nonempty lists of distinct well-formed names, and the order in
   * which they were given does not matter.
   */
  lemma SelectScopeMeans(values: seq<Category>)
    ensures SelectScope(values).Some? <==> values != [] && Distinct(values) && forall s | s in values :: CategoryName(s)
    ensures SelectScope(values).Some? ==>
              && StrictlyAscending(SelectScope(values).value)
              && multiset(SelectScope(values).value) == multiset(values)
  {
    var sorted := Sort(values);
    SortKeeps(values);
    assert |sorted| == |values| by { assert |multiset(sorted)| == |multiset(values)|; }
    SameMembers(sorted, values);
    if exists i :: 0 <= i < |sorted| - 1 && sorted[i] == sorted[i + 1] {
      var i :| 0 <= i < |sorted| - 1 && sorted[i] == sorted[i + 1];
      assert !Distinct(sorted);
      DistinctByCount(sorted);
      DistinctByCount(values);
    } else {
      forall k, l | 0 <= k < l < |sorted| && l == k + 1
        ensures sorted[k] != sorted[l]
      {
        assert sorted[k] != sorted[k + 1];
      }
      forall i, j | 0 <= i < j < |sorted|
        ensures LexLess(sorted[i], sorted[j])
      {
        ApartWhenSorted(sorted, i, j);
      }
      forall i, j | 0 <= i < j < |sorted|
        ensures sorted[i] != sorted[j]
      {
        LexTotal(sorted[i], sorted[j]);
      }
      assert Distinct(sorted);
      DistinctByCount(sorted);
      DistinctByCount(values);
    }
  }

  lemma SameMembers(a: seq<Category>, b: seq<Category>)
    requires multiset(a) == multiset(b)
    ensures forall s :: s in a <==> s in b
  {
    forall s
      ensures s in a <==> s in b
    {
      assert s in a <==> s in multiset(a);
      assert s in b <==> s in multiset(b);
    }
  }

  /** In a sorted list without equal neighbours every later element is greater. */
  lemma {:induction false} ApartWhenSorted(sorted: seq<Category>, i: nat, j: nat)
    requires i < j < |sorted|
    requires NonDescending(sorted)
    requires forall k, l | 0 <= k < l < |sorted| && l == k + 1 :: sorted[k] != sorted[l]
    ensures LexLess(sorted[i], sorted[j])
    decreases j
  {
    hide LexLess;
    LexTotal(sorted[j - 1], sorted[j]);
    if i < j - 1 {
      ApartWhenSorted(sorted, i, j - 1);
      LexTransitive(sorted[i], sorted[j - 1], sorted[j]);
    }
  }

  lemma {:induction false} DistinctByCount(a: seq<Category>)
    ensures Distinct(a) <==> forall s | s in multiset(a) :: multiset(a)[s] == 1
    decreases a
  {
    if a != [] {
      var rest := a[1..];
      assert a == [a[0]] + rest;
      DistinctByCount(rest);
      assert multiset(a) == multiset{a[0]} + multiset(rest);
      if Distinct(a) {
        assert a[0] !in rest;
        assert a[0] !in multiset(rest);
        forall i, j | 0 <= i < j < |rest|
          ensures rest[i] != rest[j]
        {
          assert a[i + 1] != a[j + 1];
        }
        assert Distinct(rest);
        forall s | s in multiset(a)
          ensures multiset(a)[s] == 1
        {
          if s != a[0] {
            assert s in multiset(rest);
          }
        }
      } else {
        var i, j :| 0 <= i < j < |a| && a[i] == a[j];
        if i == 0 {
          assert a[0] == rest[j - 1];
          assert a[0] in multiset(rest);
          assert multiset(a)[a[0]] >= 2;
        } else {
          assert rest[i - 1] == rest[j - 1];
          assert !Distinct(rest);
          var s :| s in multiset(rest) && multiset(rest)[s] != 1;
          assert s in multiset(a) && multiset(a)[s] >= 2;
        }
      }
    }
  }

  /** Whether the grant lets a message of this category through at this time. */
  predicate Permits(g: Grant, category: Category, time: int) {
    && g.status.Active?
    && category in g.scope
    && (g.expiresAt.Some? ==> time < g.expiresAt.value)
  }

  ghost predicate PermitsNoMore(a: Grant, b: Grant) {
    forall category, time | Permits(a, category, time) :: Permits(b, category, time)
  }

  predicate NotExtended(before: Option<int>, deadline: Option<int>) {
    before.None? || (deadline.Some? && deadline.value <= before.value)
  }

  /** The test for a change that only takes permission away. */
  predicate Restricts(base: Grant, scope: seq<Category>, deadline: Option<int>) {
    && (forall v | v in scope :: v in base.scope)
    && NotExtended(base.expiresAt, deadline)
    && (base.scope != scope || deadline != base.expiresAt)
  }

  lemma SubsetPermitsNoMore(a: Grant, b: Grant)
    requires a.status.Active? && b.status.Active? && a.scope != []
    ensures (forall v | v in a.scope :: v in b.scope) && NotExtended(b.expiresAt, a.expiresAt) <==> PermitsNoMore(a, b)
  {
    if PermitsNoMore(a, b) {
      forall v | v in a.scope
        ensures v in b.scope
      {
        var time := if a.expiresAt.Some? then a.expiresAt.value - 1 else 0;
        assert Permits(a, v, time);
      }
      if b.expiresAt.Some? {
        // At b's deadline nothing is permitted any more, so a must have expired by then too.
        assert !Permits(b, a.scope[0], b.expiresAt.value);
        assert !Permits(a, a.scope[0], b.expiresAt.value);
      }
    }
  }

  /** The test is exact: it holds when, and only when, strictly less is permitted afterwards. */
  lemma RestrictsExactly(base: Grant, next: Grant)
    requires base.status.Active? && next.status.Active?
    requires StrictlyAscending(base.scope) && StrictlyAscending(next.scope)
    ensures Restricts(base, next.scope, next.expiresAt) <==> PermitsNoMore(next, base) && !PermitsNoMore(base, next)
  {
    SubsetPermitsNoMore(next, base);
    SubsetPermitsNoMore(base, next);
    if PermitsNoMore(next, base) && PermitsNoMore(base, next) {
      SameScope(base.scope, next.scope);
    }
  }

  /** Two strictly ascending scopes with the same members are the same list. */
  lemma SameScope(a: seq<Category>, b: seq<Category>)
    requires StrictlyAscending(a) && StrictlyAscending(b)
    requires forall v :: v in a <==> v in b
    ensures a == b
  {
    var members := set v | v in a;
    forall x, y | LexLess(x, y)
      ensures !LexLess(y, x)
    {
      LexTotal(x, y);
    }
    AscendingIsDistinct(a);
    AscendingIsDistinct(b);
    OneStrictListing(members, LexLess, a, b);
  }

  lemma AscendingIsDistinct(a: seq<Category>)
    requires StrictlyAscending(a)
    ensures Distinct(a)
  {
    forall i, j | 0 <= i < j < |a|
      ensures a[i] != a[j]
    {
      LexTotal(a[i], a[j]);
    }
  }

  // ---------------------------------------------------------------- what a command works on

  datatype Account = Account(
    provider: Text, accountId: Text, did: Text, key: Option<Text>, managed: bool, mayWrite: bool, migrating: bool)

  datatype Choice = Keep | Never | Until(at: int)

  /** The retained update: what was asked for, the signed base, and the provider's proposal once it came. */
  datatype Request = Request(
    provider: Text, accountId: Text, key: Text, grantId: Text, base: Bytes,
    scope: seq<Category>, choice: Choice, refresh: bool, sender: Option<Text>, proposal: Option<Grant>)

  /** The two files of one output path, and what was ever submitted, or posted for signing, from it. */
  datatype Files = Files(request: Option<Request>, output: Option<Bytes>, submitted: seq<Bytes>, asked: seq<Grant>)

  const NOTHING := Files(None, None, [], [])

  /** The provider's copy of a grant: whether this account is its grantor, and the signed record. */
  datatype Record = Record(grantor: bool, bytes: Bytes)

  function Fetched(c: Codec, id: Text, record: Option<Record>): Option<Grant> {
    if record.None? then None else
      match c.inspect(record.value.bytes)
      case None => None
      case Some(g) => if g.id == id then Some(g) else None
  }

  function Submit(c: Codec, f: Files, b: Bytes): seq<Files> {
    if |b| > 262144 || c.inspect(b).None? then [] else [f.(submitted := f.submitted + [b])]
  }

  function KeyIdOf(did: Text): Text { did + "#hail-identity" }

  // ---------------------------------------------------------------- update

  /** What the provider answers when it signs on the owner's behalf. */
  datatype ManagedReply = ManagedReply(bytes: Bytes, grantId: Text, revision: int, status: Text, publication: Text, digest: Text)

  /** It signed the very proposal, and says so. */
  predicate Acknowledges(c: Codec, r: ManagedReply, id: Text, key: Text, p: Grant) {
    && Verify(c, r.bytes, key) == Some(p)
    && r.grantId == id && r.revision == p.revision && r.status == "active"
    && r.publication == "durable" && r.digest == c.digest(r.bytes)
  }

  datatype UpdateInput = UpdateInput(
    account: Account, id: Text, categories: seq<Category>, choice: Choice, refresh: bool, sender: Option<Text>,
    vault: bool, unlocked: bool, now: int, record: Option<Record>, proposal: Option<Grant>, reply: Option<ManagedReply>)

  function Deadline(choice: Choice, base: Grant): Option<int> {
    match choice
    case Keep => base.expiresAt
    case Never => None
    case Until(at) => Some(at)
  }

  function StartUpdate(c: Codec, i: UpdateInput, selected: seq<Category>): Option<Request>
    requires i.account.key.Some?
  {
    match Fetched(c, i.id, i.record)
    case None => None
    case Some(g) =>
      if !i.record.value.grantor || g.grantor != i.account.did || !g.status.Active? then None
      else Some(Request(i.account.provider, i.account.accountId, i.account.key.value, i.id, i.record.value.bytes,
                        selected, i.choice, i.refresh, i.sender, None))
  }

  predicate SameUpdate(q: Request, i: UpdateInput, selected: seq<Category>) {
    && q.provider == i.account.provider && q.accountId == i.account.accountId && Some(q.key) == i.account.key
    && q.grantId == i.id && q.scope == selected && q.choice == i.choice && q.refresh == i.refresh && q.sender == i.sender
  }

  /** The provider's proposal is exactly the revision that was asked for. */
  predicate Acceptable(c: Codec, i: UpdateInput, b: Bytes, base: Grant, selected: seq<Category>, p: Grant) {
    var deadline := Deadline(i.choice, base);
    && c.valid(p)
    && p.id == i.id && p.grantor == i.account.did && p.grantee == base.grantee && p.issuedAt == base.issuedAt
    && p.revision == base.revision + 1 && p.previous == Some(c.digest(b)) && p.status.Active?
    && base.updatedAt < p.updatedAt <= i.now + 300
    && p.keyId == KeyIdOf(i.account.did)
    && p.scope == selected && p.expiresAt == deadline
    && if Restricts(base, selected, deadline) then p.context == base.context
       else p.context.address == c.lower(if i.sender.Some? then i.sender.value else base.context.address)
  }

  function Update(c: Codec, f: Files, i: UpdateInput): seq<Files> {
    match SelectScope(i.categories)
    case None => []
    case Some(selected) =>
      if !i.account.mayWrite || i.account.migrating || i.account.key.None? || i.account.managed == i.vault then []
      else if f.request.Some? then UpdateFrom(c, f, i, selected)
      else
        match StartUpdate(c, i, selected)
        case None => []
        case Some(q) =>
          var f1 := f.(request := Some(q));
          [f1] + UpdateFrom(c, f1, i, selected)
  }

  function UpdateFrom(c: Codec, f: Files, i: UpdateInput, selected: seq<Category>): seq<Files>
    requires f.request.Some?
  {
    var q := f.request.value;
    if !SameUpdate(q, i, selected) then []
    else
      match Verify(c, q.base, q.key)
      case None => []
      case Some(base) =>
        var proposed := if q.proposal.Some? then q.proposal else i.proposal;
        if base.keyId != KeyIdOf(i.account.did) || proposed.None? then []
        else
          var f1 := f.(request := Some(q.(proposal := proposed)));
          (if q.proposal.Some? then [] else [f1])
          + (if Acceptable(c, i, q.base, base, selected, proposed.value) then SignUpdate(c, f1, i, q.key, proposed.value) else [])
  }

  function SignUpdate(c: Codec, f: Files, i: UpdateInput, key: Text, p: Grant): seq<Files> {
    if f.output.Some? && Verify(c, f.output.value, key) != Some(p) then []
    else if i.account.managed then
      var f1 := f.(asked := f.asked + [p]);
      [f1] + (if i.reply.None? || !Acknowledges(c, i.reply.value, i.id, key, p) || f.output.Some? then []
              else [f1.(output := Some(i.reply.value.bytes))])
    else if f.output.Some? then Submit(c, f, f.output.value)
    else if !i.unlocked then []
    else
      match c.sign(p, key)
      case None => []
      case Some(b) => SaveAndSubmit(c, f, b)
  }

  function SaveAndSubmit(c: Codec, f: Files, b: Bytes): seq<Files> {
    var f1 := f.(output := Some(b));
    [f1] + Submit(c, f1, b)
  }

  // ---------------------------------------------------------------- revoke

  datatype RevokeInput = RevokeInput(
    account: Account, id: Text, vault: bool, unlocked: bool, vaultDid: Text, vaultKey: Text, now: int, record: Option<Record>)

  function Revocation(c: Codec, b: Bytes, current: Grant, updatedAt: int): Grant {
    current.(revision := current.revision + 1, previous := Some(c.digest(b)), status := Revoked, updatedAt := updatedAt)
  }

  /** The bytes to submit: the provider's own revocation, the retained one, or a new one. */
  function RevocationBytes(c: Codec, f: Files, i: RevokeInput, b: Bytes, current: Grant): Option<Bytes> {
    if current.status.Revoked? then
      if f.output.Some? && f.output.value != b then None else Some(b)
    else
      var retained := if f.output.Some? then c.inspect(f.output.value) else None;
      if f.output.Some? && retained.None? then None
      else
        var updatedAt := if f.output.Some? then retained.value.updatedAt
                         else if i.now <= current.updatedAt then current.updatedAt + 1 else i.now;
        if updatedAt <= current.updatedAt || updatedAt > i.now + 300 then None
        else
          var p := Revocation(c, b, current, updatedAt);
          var signed := if f.output.Some? then f.output else if c.valid(p) then c.sign(p, i.vaultKey) else None;
          if signed.None? || Verify(c, signed.value, i.vaultKey) != Some(p) then None else signed
  }

  function Revoke(c: Codec, f: Files, i: RevokeInput): seq<Files> {
    if !i.account.mayWrite then []
    else
      match Fetched(c, i.id, i.record)
      case None => []
      case Some(current) =>
        var b := i.record.value.bytes;
        if i.account.managed || !i.vault || !i.unlocked || i.vaultDid != i.account.did
           || Verify(c, b, i.vaultKey).None? || current.grantor != i.vaultDid
        then []
        else
          match RevocationBytes(c, f, i, b, current)
          case None => []
          case Some(signed) => if f.output.Some? then Submit(c, f, signed) else SaveAndSubmit(c, f, signed)
  }

  // ---------------------------------------------------------------- one invocation, step by step

  method SubmitGrant(c: Codec, disk: Journal<Files>, b: Bytes)
    modifies disk
    ensures disk.writes == old(disk.writes) + Submit(c, old(disk.Current()), b)
  {
    if |b| > 262144 || c.inspect(b).None? { return; }
    disk.Write(disk.Current().(submitted := disk.Current().submitted + [b]));
  }

  method MakeUpdate(c: Codec, disk: Journal<Files>, i: UpdateInput)
    modifies disk
    ensures disk.writes == old(disk.writes) + Update(c, old(disk.Current()), i)
  {
    hide SelectScope, UpdateFrom, StartUpdate;
    var selection := SelectScope(i.categories);
    if selection.None? { return; }
    if !i.account.mayWrite || i.account.migrating || i.account.key.None? || i.account.managed == i.vault { return; }
    if disk.Current().request.None? {
      var start := StartUpdate(c, i, selection.value);
      if start.None? { return; }
      disk.Write(disk.Current().(request := start));
    }
    ContinueUpdate(c, disk, i, selection.value);
  }

  method ContinueUpdate(c: Codec, disk: Journal<Files>, i: UpdateInput, selected: seq<Category>)
    requires disk.Current().request.Some?
    modifies disk
    ensures disk.writes == old(disk.writes) + UpdateFrom(c, old(disk.Current()), i, selected)
  {
    hide Acceptable, SignUpdate, Verify, SameUpdate;
    var q := disk.Current().request.value;
    if !SameUpdate(q, i, selected) { return; }
    var base := Verify(c, q.base, q.key);
    if base.None? || base.value.keyId != KeyIdOf(i.account.did) { return; }
    if q.proposal.None? {
      if i.proposal.None? { return; }
      q := q.(proposal := i.proposal);
      disk.Write(disk.Current().(request := Some(q)));
    }
    var p := q.proposal.value;
    if !Acceptable(c, i, q.base, base.value, selected, p) { return; }
    SignProposal(c, disk, i, q.key, p);
  }

  method SignProposal(c: Codec, disk: Journal<Files>, i: UpdateInput, key: Text, p: Grant)
    modifies disk
    ensures disk.writes == old(disk.writes) + SignUpdate(c, old(disk.Current()), i, key, p)
  {
    var output := disk.Current().output;
    if output.Some? && Verify(c, output.value, key) != Some(p) { return; }
    if !i.account.managed {
      if output.None? {
        if !i.unlocked { return; }
        output := c.sign(p, key);
        if output.None? { return; }
        disk.Write(disk.Current().(output := output));
      }
      SubmitGrant(c, disk, output.value);
      return;
    }
    AskProvider(c, disk, i, key, p);
  }

  method AskProvider(c: Codec, disk: Journal<Files>, i: UpdateInput, key: Text, p: Grant)
    requires i.account.managed
    requires disk.Current().output.Some? ==> Verify(c, disk.Current().output.value, key) == Some(p)
    modifies disk
    ensures disk.writes == old(disk.writes) + SignUpdate(c, old(disk.Current()), i, key, p)
  {
    disk.Write(disk.Current().(asked := disk.Current().asked + [p]));
    if i.reply.None? { return; }
    var result, output := i.reply.value, disk.Current().output;
    if Verify(c, result.bytes, key) != Some(p) || (output.Some? && output.value != result.bytes) { return; }
    if result.grantId != i.id || result.revision != p.revision || result.status != "active" { return; }
    if result.publication != "durable" || result.digest != c.digest(result.bytes) { return; }
    if output.None? {
      disk.Write(disk.Current().(output := Some(result.bytes)));
    }
  }

  method MakeRevocation(c: Codec, disk: Journal<Files>, i: RevokeInput)
    modifies disk
    ensures disk.writes == old(disk.writes) + Revoke(c, old(disk.Current()), i)
  {
    if !i.account.mayWrite { return; }
    var fetched := Fetched(c, i.id, i.record);
    if fetched.None? { return; }
    var current, b := fetched.value, i.record.value.bytes;
    if i.account.managed || !i.vault || !i.unlocked || i.vaultDid != i.account.did { return; }
    if Verify(c, b, i.vaultKey).None? || current.grantor != i.vaultDid { return; }
    var existing := disk.Current().output;
    if current.status.Revoked? {
      if existing.Some? && existing.value != b { return; }
    } else {
      var updated := if i.now <= current.updatedAt then current.updatedAt + 1 else i.now;
      if existing.Some? {
        var retained := c.inspect(existing.value);
        if retained.None? { return; }
        updated := retained.value.updatedAt;
      }
      if updated <= current.updatedAt || updated > i.now + 300 { return; }
      var p := Revocation(c, b, current, updated);
      var signed := if existing.Some? then existing else if c.valid(p) then c.sign(p, i.vaultKey) else None;
      if signed.None? || Verify(c, signed.value, i.vaultKey) != Some(p) { return; }
      b := signed.value;
    }
    if existing.None? {
      disk.Write(disk.Current().(output := Some(b)));
    }
    SubmitGrant(c, disk, b);
  }

  // ---------------------------------------------------------------- what every run keeps

  /** An invocation that dies after `survives` writes or submissions. */
  datatype Attempt =
    | TryUpdate(update: UpdateInput, survives: nat)
    | TryRevoke(revoke: RevokeInput, survives: nat)

  function Writes(c: Codec, f: Files, a: Attempt): seq<Files> {
    match a
    case TryUpdate(i, _) => Update(c, f, i)
    case TryRevoke(i, _) => Revoke(c, f, i)
  }

  function Run(c: Codec, f: Files, attempts: seq<Attempt>): Files
    decreases |attempts|
  {
    if attempts == [] then f else Run(c, Left(f, Writes(c, f, attempts[0]), attempts[0].survives), attempts[1..])
  }

  /** The signed output is written once, and the request is too but for the proposal it waits for. */
  ghost predicate Kept(f: Files, g: Files) {
    && (f.output.Some? ==> g.output == f.output)
    && (f.request.Some? ==>
          && g.request.Some?
          && (f.request.value.proposal.Some? ==> g.request == f.request)
          && g.request.value.(proposal := None) == f.request.value.(proposal := None))
    && f.submitted <= g.submitted && f.asked <= g.asked
  }

  /** Everything submitted is the retained output, octet for octet, and everything posted for signing the retained proposal. */
  ghost predicate OneSubmission(f: Files) {
    && (forall b | b in f.submitted :: f.output == Some(b))
    && (forall p | p in f.asked :: f.request.Some? && f.request.value.proposal == Some(p))
  }

  /** The base of a retained update is an active grant with the id that is being updated. */
  ghost predicate BaseSound(c: Codec, f: Files) {
    f.request.Some? ==>
      var base := c.inspect(f.request.value.base);
      base.Some? && base.value.status.Active? && base.value.id == f.request.value.grantId
  }

  ghost predicate Sound(c: Codec, f: Files, g: Files) {
    && Kept(f, g)
    && (OneSubmission(f) ==> OneSubmission(g))
    && (BaseSound(c, f) ==> BaseSound(c, g))
  }

  lemma SoundTransitive(c: Codec, f: Files, g: Files, h: Files)
    requires Sound(c, f, g) && Sound(c, g, h)
    ensures Sound(c, f, h)
  {
  }

  lemma SubmitIsSound(c: Codec, f: Files, b: Bytes)
    requires f.output == Some(b)
    ensures forall g | g in Submit(c, f, b) :: Sound(c, f, g)
  {
  }

  lemma SaveIsSound(c: Codec, f: Files, b: Bytes)
    requires f.output.None?
    ensures forall g | g in SaveAndSubmit(c, f, b) :: Sound(c, f, g)
  {
    var f1 := f.(output := Some(b));
    assert Sound(c, f, f1);
    SubmitIsSound(c, f1, b);
    forall g | g in Submit(c, f1, b)
      ensures Sound(c, f, g)
    {
      SoundTransitive(c, f, f1, g);
    }
  }

  lemma SignUpdateIsSound(c: Codec, f: Files, i: UpdateInput, key: Text, p: Grant)
    requires f.request.Some? && f.request.value.proposal == Some(p)
    ensures forall g | g in SignUpdate(c, f, i, key, p) :: Sound(c, f, g)
  {
    hide Submit, SaveAndSubmit;
    if !i.account.managed && SignUpdate(c, f, i, key, p) != [] {
      hide Sound;
      if f.output.Some? {
        SubmitIsSound(c, f, f.output.value);
      } else {
        SaveIsSound(c, f, c.sign(p, key).value);
      }
    }
  }

  lemma UpdateFromIsSound(c: Codec, f: Files, i: UpdateInput, selected: seq<Category>)
    requires f.request.Some?
    ensures forall g | g in UpdateFrom(c, f, i, selected) :: Sound(c, f, g)
  {
    hide SignUpdate, Acceptable;
    if UpdateFrom(c, f, i, selected) != [] {
      var q := f.request.value;
      var proposed := if q.proposal.Some? then q.proposal else i.proposal;
      var f1 := f.(request := Some(q.(proposal := proposed)));
      assert Sound(c, f, f1);
      SignUpdateIsSound(c, f1, i, q.key, proposed.value);
      hide Sound;
      forall g | g in SignUpdate(c, f1, i, q.key, proposed.value)
        ensures Sound(c, f, g)
      {
        SoundTransitive(c, f, f1, g);
      }
    }
  }

  lemma UpdateIsSound(c: Codec, f: Files, i: UpdateInput)
    ensures forall g | g in Update(c, f, i) :: Sound(c, f, g)
  {
    hide UpdateFrom, SelectScope;
    var selected := SelectScope(i.categories);
    if selected.Some? && i.account.key.Some? {
      if f.request.Some? {
        UpdateFromIsSound(c, f, i, selected.value);
      } else {
        var q := StartUpdate(c, i, selected.value);
        if q.Some? {
          var f1 := f.(request := q);
          assert Sound(c, f, f1);
          UpdateFromIsSound(c, f1, i, selected.value);
          hide Sound;
          forall g | g in UpdateFrom(c, f1, i, selected.value)
            ensures Sound(c, f, g)
          {
            SoundTransitive(c, f, f1, g);
          }
        }
      }
    }
  }

  lemma RevokeIsSound(c: Codec, f: Files, i: RevokeInput)
    ensures forall g | g in Revoke(c, f, i) :: Sound(c, f, g)
  {
    hide Submit, SaveAndSubmit, Sound;
    var current := Fetched(c, i.id, i.record);
    if current.Some? {
      var signed := RevocationBytes(c, f, i, i.record.value.bytes, current.value);
      if signed.Some? {
        if f.output.Some? {
          SubmitIsSound(c, f, signed.value);
        } else {
          SaveIsSound(c, f, signed.value);
        }
      }
    }
  }

  lemma {:induction false} EveryRunIsSound(c: Codec, f: Files, attempts: seq<Attempt>)
    ensures Sound(c, f, Run(c, f, attempts))
    decreases |attempts|
  {
    hide Update, Revoke;
    if attempts != [] {
      var a := attempts[0];
      match a {
        case TryUpdate(i, _) => UpdateIsSound(c, f, i);
        case TryRevoke(i, _) => RevokeIsSound(c, f, i);
      }
      var g := Left(f, Writes(c, f, a), a.survives);
      assert Sound(c, f, g);
      EveryRunIsSound(c, g, attempts[1..]);
      SoundTransitive(c, f, g, Run(c, f, attempts));
    }
  }

  /**
   * However often a revocation or update is retried, with whatever clock and answers, every
   * submission from one output path carries the very same octets, and they never change afterwards.
   */
  lemma RetriesAreIdentical(c: Codec, before: seq<Attempt>, after: seq<Attempt>)
    ensures var f := Run(c, NOTHING, before);
            var g := Run(c, f, after);
            && Kept(f, g)
            && (forall a, b | a in g.submitted && b in g.submitted :: a == b)
            && (forall a | a in f.submitted :: g.output == Some(a))
            && (forall p, q | p in g.asked && q in g.asked :: p == q)
  {
    var f := Run(c, NOTHING, before);
    EveryRunIsSound(c, NOTHING, before);
    EveryRunIsSound(c, f, after);
  }

  // ---------------------------------------------------------------- the lineage

  /** The second record is the next revision of the first. */
  ghost predicate Succeeds(c: Codec, b: Bytes, next: Bytes) {
    && c.inspect(b).Some? && c.inspect(next).Some?
    && NextRevision(c, b, c.inspect(b).value, c.inspect(next).value)
  }

  ghost predicate NextRevision(c: Codec, b: Bytes, g: Grant, h: Grant) {
    && g.status.Active?
    && h.revision == g.revision + 1 && h.previous == Some(c.digest(b)) && g.updatedAt < h.updatedAt
    && h.id == g.id && h.grantor == g.grantor && h.grantee == g.grantee && h.issuedAt == g.issuedAt
    && (h.status.Revoked? ==> h.scope == g.scope && h.expiresAt == g.expiresAt && h.context == g.context)
    && (h.status.Active? && Restricts(g, h.scope, h.expiresAt) ==> h.context == g.context)
  }

  /** What an update signs is the next revision of its retained base. */
  lemma UpdateSucceeds(c: Codec, f: Files, i: UpdateInput, g: Files)
    requires Lawful(c) && BaseSound(c, f) && g in Update(c, f, i)
    requires g.output != f.output || g.submitted != f.submitted
    ensures g.request.Some? && g.output.Some? && Succeeds(c, g.request.value.base, g.output.value)
  {
    hide SelectScope, Lawful, Succeeds, UpdateFrom;
    var selected := SelectScope(i.categories).value;
    var f1 := if f.request.Some? then f else f.(request := StartUpdate(c, i, selected));
    ContinuedSucceeds(c, f1, i, selected, g);
  }

  lemma ContinuedSucceeds(c: Codec, f: Files, i: UpdateInput, selected: seq<Category>, g: Files)
    requires Lawful(c) && f.request.Some? && BaseSound(c, f) && g in UpdateFrom(c, f, i, selected)
    requires g.output != f.output || g.submitted != f.submitted
    ensures g.request.Some? && g.output.Some? && Succeeds(c, g.request.value.base, g.output.value)
  {
    var q := f.request.value;
    var base := Verify(c, q.base, q.key).value;
    var p := (if q.proposal.Some? then q.proposal else i.proposal).value;
    var f1 := f.(request := Some(q.(proposal := Some(p))));
    ProposalSigned(c, f, i, selected, g);
    SignedIsProposal(c, f1, i, q.key, p, g);
    assert GrantRules(base);
    hide Acceptable, Succeeds, SignUpdate, Lawful, GrantRules, UpdateFrom;
    AcceptableSucceeds(c, i, q.base, base, selected, p, g.output.value);
  }

  /** Where signing starts the proposal is known, and acceptable. */
  lemma ProposalSigned(c: Codec, f: Files, i: UpdateInput, selected: seq<Category>, g: Files)
    requires f.request.Some? && g in UpdateFrom(c, f, i, selected)
    requires g.output != f.output || g.submitted != f.submitted
    ensures var q := f.request.value;
            var base, proposed := Verify(c, q.base, q.key), if q.proposal.Some? then q.proposal else i.proposal;
            && base.Some? && base.value.keyId == KeyIdOf(i.account.did) && proposed.Some?
            && SameUpdate(q, i, selected) && Acceptable(c, i, q.base, base.value, selected, proposed.value)
            && g in SignUpdate(c, f.(request := Some(q.(proposal := proposed))), i, q.key, proposed.value)
  {
    hide Acceptable, SignUpdate, Verify, SameUpdate;
  }

  lemma AcceptableSucceeds(c: Codec, i: UpdateInput, b: Bytes, base: Grant, selected: seq<Category>, p: Grant, next: Bytes)
    requires Acceptable(c, i, b, base, selected, p) && GrantRules(base)
    requires c.inspect(b) == Some(base) && c.inspect(next) == Some(p)
    requires base.status.Active? && base.id == i.id && base.keyId == KeyIdOf(i.account.did)
    ensures Succeeds(c, b, next)
  {
    hide Restricts;
    SameGrantor(base.grantor, i.account.did);
  }

  lemma SameGrantor(a: Text, b: Text)
    ensures KeyIdOf(a) == KeyIdOf(b) ==> a == b
  {
    if KeyIdOf(a) == KeyIdOf(b) {
      assert |KeyIdOf(a)| == |a| + 14 && |KeyIdOf(b)| == |b| + 14;
      assert a == KeyIdOf(a)[..|a|] && b == KeyIdOf(b)[..|b|];
    }
  }

  lemma SignedIsProposal(c: Codec, f: Files, i: UpdateInput, key: Text, p: Grant, g: Files)
    requires Lawful(c) && g in SignUpdate(c, f, i, key, p)
    requires g.output != f.output || g.submitted != f.submitted
    ensures g.request == f.request && g.output.Some? && c.inspect(g.output.value) == Some(p)
  {
  }

  /** The output of g is the provider's own revocation, or the revoking next revision of its active record. */
  ghost predicate SignsRevocation(c: Codec, record: Option<Record>, g: Files) {
    && record.Some? && g.output.Some?
    && c.inspect(g.output.value).Some? && c.inspect(g.output.value).value.status.Revoked?
    && (g.output.value == record.value.bytes || Succeeds(c, record.value.bytes, g.output.value))
  }

  /** What a revocation submits is the provider's own revocation, or the next revision of its active record. */
  lemma RevokeSucceeds(c: Codec, f: Files, i: RevokeInput, g: Files)
    requires g in Revoke(c, f, i)
    ensures SignsRevocation(c, i.record, g)
  {
  }

  /** The output of g says what these arguments ask: their categories, their expiry, for their account and grant. */
  ghost predicate AsAsked(c: Codec, i: UpdateInput, g: Files) {
    && g.request.Some? && g.output.Some?
    && c.inspect(g.request.value.base).Some? && c.inspect(g.output.value).Some?
    && var base, h := c.inspect(g.request.value.base).value, c.inspect(g.output.value).value;
       && h.status.Active? && h.id == i.id && h.grantor == i.account.did
       && (forall v :: v in h.scope <==> v in i.categories)
       && (match i.choice
           case Keep => h.expiresAt == base.expiresAt
           case Never => h.expiresAt.None?
           case Until(at) => h.expiresAt == Some(at))
       && base.updatedAt < h.updatedAt <= i.now + 300
       // Keeping the expiry and some of the categories never permits more than before.
       && (i.choice.Keep? && (forall v | v in i.categories :: v in base.scope) ==> PermitsNoMore(h, base))
  }

  /** What an update newly keeps or submits says what it was asked to. */
  lemma UpdateSaysAsAsked(c: Codec, f: Files, i: UpdateInput, g: Files)
    requires Lawful(c) && BaseSound(c, f) && g in Update(c, f, i)
    requires g.output != f.output || g.submitted != f.submitted
    ensures AsAsked(c, i, g)
  {
    hide SelectScope, Lawful, AsAsked, UpdateFrom;
    var selected := SelectScope(i.categories).value;
    var f1 := if f.request.Some? then f else f.(request := StartUpdate(c, i, selected));
    ContinuedAsAsked(c, f1, i, selected, g);
  }

  lemma ContinuedAsAsked(c: Codec, f: Files, i: UpdateInput, selected: seq<Category>, g: Files)
    requires Lawful(c) && f.request.Some? && BaseSound(c, f) && g in UpdateFrom(c, f, i, selected)
    requires SelectScope(i.categories) == Some(selected)
    requires g.output != f.output || g.submitted != f.submitted
    ensures AsAsked(c, i, g)
  {
    var q := f.request.value;
    var base := Verify(c, q.base, q.key).value;
    var p := (if q.proposal.Some? then q.proposal else i.proposal).value;
    var f1 := f.(request := Some(q.(proposal := Some(p))));
    ProposalSigned(c, f, i, selected, g);
    SignedIsProposal(c, f1, i, q.key, p, g);
    SelectScopeMeans(i.categories);
    SameMembers(selected, i.categories);
    hide Lawful, SignUpdate, UpdateFrom, SelectScope, SameUpdate, StrictlyAscending;
    assert selected != [] by { assert |multiset(selected)| == |multiset(i.categories)|; }
    AcceptedAsAsked(c, i, q.base, base, selected, p);
  }

  lemma AcceptedAsAsked(c: Codec, i: UpdateInput, b: Bytes, base: Grant, selected: seq<Category>, p: Grant)
    requires Acceptable(c, i, b, base, selected, p) && base.status.Active? && selected != []
    requires forall v :: v in selected <==> v in i.categories
    ensures p.status.Active? && p.id == i.id && p.grantor == i.account.did
    ensures forall v :: v in p.scope <==> v in i.categories
    ensures match i.choice
            case Keep => p.expiresAt == base.expiresAt
            case Never => p.expiresAt.None?
            case Until(at) => p.expiresAt == Some(at)
    ensures base.updatedAt < p.updatedAt <= i.now + 300
    ensures i.choice.Keep? && (forall v | v in i.categories :: v in base.scope) ==> PermitsNoMore(p, base)
  {
    hide PermitsNoMore, Restricts;
    SubsetPermitsNoMore(p, base);
  }

  // ---------------------------------------------------------------- a good update goes through

  /** The provider proposes what was asked for, as the next revision of the record. */
  ghost predicate GoodProposal(c: Codec, i: UpdateInput, b: Bytes, base: Grant, p: Grant) {
    && c.valid(p) && GrantRules(p)
    && p.id == i.id && p.grantor == i.account.did && p.grantee == base.grantee && p.issuedAt == base.issuedAt
    && p.revision == base.revision + 1 && p.previous == Some(c.digest(b)) && p.status.Active?
    && base.updatedAt < p.updatedAt <= i.now + 300
    && (forall v :: v in p.scope <==> v in i.categories)
    && (match i.choice
        case Keep => p.expiresAt == base.expiresAt
        case Never => p.expiresAt.None?
        case Until(at) => p.expiresAt == Some(at))
    // Consent is kept as it is when nothing is added, and otherwise names the grantee anew.
    && if PermitsNoMore(p, base) && !PermitsNoMore(base, p) then p.context == base.context
       else p.context.address == c.lower(if i.sender.Some? then i.sender.value else base.context.address)
  }

  ghost predicate UpdateGoesThrough(c: Codec, f: Files, i: UpdateInput) {
    var a := i.account;
    && Lawful(c) && f.request.None? && f.output.None?
    && a.mayWrite && !a.migrating && a.key.Some? && a.managed == !i.vault
    && i.categories != [] && Distinct(i.categories) && (forall s | s in i.categories :: CategoryName(s))
    && i.record.Some? && i.record.value.grantor && c.signedBy(i.record.value.bytes, a.key.value)
    && c.inspect(i.record.value.bytes).Some?
    && var base := c.inspect(i.record.value.bytes).value;
       && base.id == i.id && base.grantor == a.did && base.status.Active?
       && i.proposal.Some? && GoodProposal(c, i, i.record.value.bytes, base, i.proposal.value)
       && if a.managed then
            i.reply.Some? && Acknowledges(c, i.reply.value, i.id, a.key.value, i.proposal.value)
          else
            i.unlocked && c.sign(i.proposal.value, a.key.value).Some? && |c.sign(i.proposal.value, a.key.value).value| <= 262144
  }

  /** The signed proposal is kept, and was submitted; a managed account's was asked for. */
  ghost predicate Updated(c: Codec, f: Files, i: UpdateInput, g: Files)
    requires i.proposal.Some? && i.account.key.Some?
  {
    && g.output.Some? && Verify(c, g.output.value, i.account.key.value) == i.proposal
    && if i.account.managed then g.submitted == f.submitted && g.asked == f.asked + [i.proposal.value]
       else g.submitted == f.submitted + [g.output.value] && g.asked == f.asked
  }

  lemma GoodIsAcceptable(c: Codec, i: UpdateInput, b: Bytes, base: Grant, selected: seq<Category>, p: Grant)
    requires GoodProposal(c, i, b, base, p) && GrantRules(base) && base.status.Active?
    requires StrictlyAscending(selected) && forall v :: v in selected <==> v in i.categories
    ensures Acceptable(c, i, b, base, selected, p)
  {
    hide PermitsNoMore, Restricts, StrictlyAscending;
    SameScope(p.scope, selected);
    RestrictsExactly(base, p);
  }

  lemma UpdateEndsWell(c: Codec, f: Files, i: UpdateInput)
    requires UpdateGoesThrough(c, f, i)
    ensures Update(c, f, i) != [] && Updated(c, f, i, Update(c, f, i)[|Update(c, f, i)| - 1])
  {
    var base, b, key := c.inspect(i.record.value.bytes).value, i.record.value.bytes, i.account.key.value;
    var p := i.proposal.value;
    SelectScopeMeans(i.categories);
    var selected := SelectScope(i.categories).value;
    SameMembers(selected, i.categories);
    hide SelectScope, CategoryName;
    GoodIsAcceptable(c, i, b, base, selected, p);
    SameGrantor(base.grantor, i.account.did);
    assert base.keyId == KeyIdOf(i.account.did) && Verify(c, b, key) == Some(base);
    hide GoodProposal, Acceptable, GrantRules, StrictlyAscending, KeyIdOf, Acknowledges, Lawful, Verify;
    var f1 := f.(request := StartUpdate(c, i, selected));
    var f2 := f1.(request := Some(f1.request.value.(proposal := i.proposal)));
    SigningEndsWell(c, f2, i, key, p);
    assert UpdateFrom(c, f1, i, selected) == [f2] + SignUpdate(c, f2, i, key, p) by { hide SignUpdate; }
    assert Update(c, f, i) == [f1] + ([f2] + SignUpdate(c, f2, i, key, p)) by { hide SignUpdate, UpdateFrom; }
    hide SignUpdate, Update, UpdateFrom, Updated;
    EndOfThree(f1, f2, SignUpdate(c, f2, i, key, p));
  }

  lemma EndOfThree(f: Files, g: Files, hs: seq<Files>)
    requires hs != []
    ensures var all := [f] + ([g] + hs); all[|all| - 1] == hs[|hs| - 1]
  {
  }

  lemma SigningEndsWell(c: Codec, f: Files, i: UpdateInput, key: Text, p: Grant)
    requires Lawful(c) && f.output.None? && i.account.key == Some(key) && i.proposal == Some(p)
    requires if i.account.managed then i.reply.Some? && Acknowledges(c, i.reply.value, i.id, key, p)
             else i.unlocked && c.sign(p, key).Some? && |c.sign(p, key).value| <= 262144
    ensures SignUpdate(c, f, i, key, p) != []
    ensures var g := SignUpdate(c, f, i, key, p)[|SignUpdate(c, f, i, key, p)| - 1];
            && g.output.Some? && Verify(c, g.output.value, key) == Some(p)
            && if i.account.managed then g.submitted == f.submitted && g.asked == f.asked + [p]
               else g.submitted == f.submitted + [g.output.value] && g.asked == f.asked
  {
    hide GrantRules;
    if !i.account.managed {
      assert Verify(c, c.sign(p, key).value, key) == Some(p);
    }
  }

  // ---------------------------------------------------------------- a good revocation goes through

  /** The grant as the grantor's own vault revokes it now. */
  ghost function RevokedNow(c: Codec, b: Bytes, g: Grant, now: int): Grant {
    Grant(g.id, g.grantor, g.grantee, g.issuedAt, g.revision + 1, Some(c.digest(b)), Status.Revoked,
          if now <= g.updatedAt then g.updatedAt + 1 else now, g.scope, g.expiresAt, g.context, g.keyId)
  }

  ghost predicate RevokeGoesThrough(c: Codec, f: Files, i: RevokeInput) {
    && Lawful(c) && f.output.None? && i.account.mayWrite && !i.account.managed && i.vault && i.unlocked && i.vaultDid == i.account.did
    && i.record.Some? && c.signedBy(i.record.value.bytes, i.vaultKey) && c.inspect(i.record.value.bytes).Some?
    && var b, g := i.record.value.bytes, c.inspect(i.record.value.bytes).value;
       && g.id == i.id && g.grantor == i.vaultDid && g.status.Active? && g.updatedAt < i.now + 300
       && var p := RevokedNow(c, b, g, i.now);
          c.valid(p) && c.sign(p, i.vaultKey).Some? && |c.sign(p, i.vaultKey).value| <= 262144
  }

  /** A first revocation of an active grant ends kept and submitted. */
  lemma RevokeEndsWell(c: Codec, f: Files, i: RevokeInput)
    requires RevokeGoesThrough(c, f, i)
    ensures Revoke(c, f, i) != []
    ensures var b := c.sign(RevokedNow(c, i.record.value.bytes, c.inspect(i.record.value.bytes).value, i.now), i.vaultKey);
            var g := Revoke(c, f, i)[|Revoke(c, f, i)| - 1];
            g.output == b && g.submitted == f.submitted + [b.value]
  {
    hide GrantRules;
    var b, g := i.record.value.bytes, c.inspect(i.record.value.bytes).value;
    var p := RevokedNow(c, b, g, i.now);
    assert Verify(c, c.sign(p, i.vaultKey).value, i.vaultKey) == Some(p);
    assert RevocationBytes(c, f, i, b, g) == c.sign(p, i.vaultKey);
    hide RevocationBytes, Verify;
  }

  // ---------------------------------------------------------------- the commands

  /** The output of g is the next revision of the base that g retains. */
  ghost predicate SignsNext(c: Codec, g: Files) {
    g.request.Some? && g.output.Some? && Succeeds(c, g.request.value.base, g.output.value)
  }

  /** What a command does to its files, wherever it dies: nothing retained changes, and what is new is a proper revision. */
  method UpdateGrant(c: Codec, disk: Journal<Files>, i: UpdateInput)
    modifies disk
    ensures disk.writes == old(disk.writes) + Update(c, old(disk.Current()), i)
    ensures forall g | g in disk.writes[|old(disk.writes)|..] :: Sound(c, old(disk.Current()), g)
    ensures Lawful(c) && BaseSound(c, old(disk.Current())) ==>
              forall g | g in disk.writes[|old(disk.writes)|..] && (g.output != old(disk.Current()).output || g.submitted != old(disk.Current()).submitted) ::
                SignsNext(c, g) && AsAsked(c, i, g)
    ensures UpdateGoesThrough(c, old(disk.Current()), i) ==> Updated(c, old(disk.Current()), i, disk.Current())
  {
    hide Update, Sound, Succeeds, BaseSound, Lawful, AsAsked, UpdateGoesThrough, Updated;
    var f := disk.Current();
    UpdateIsSound(c, f, i);
    if UpdateGoesThrough(c, f, i) {
      UpdateEndsWell(c, f, i);
    }
    if Lawful(c) && BaseSound(c, f) {
      forall g | g in Update(c, f, i) && (g.output != f.output || g.submitted != f.submitted)
        ensures SignsNext(c, g) && AsAsked(c, i, g)
      {
        UpdateSucceeds(c, f, i, g);
        UpdateSaysAsAsked(c, f, i, g);
      }
    }
    MakeUpdate(c, disk, i);
  }

  method RevokeGrant(c: Codec, disk: Journal<Files>, i: RevokeInput)
    modifies disk
    ensures disk.writes == old(disk.writes) + Revoke(c, old(disk.Current()), i)
    ensures forall g | g in disk.writes[|old(disk.writes)|..] :: Sound(c, old(disk.Current()), g)
    ensures forall g | g in disk.writes[|old(disk.writes)|..] :: SignsRevocation(c, i.record, g)
    ensures RevokeGoesThrough(c, old(disk.Current()), i) ==>
              var b := c.sign(RevokedNow(c, i.record.value.bytes, c.inspect(i.record.value.bytes).value, i.now), i.vaultKey);
              disk.Current().output == b && disk.Current().submitted == old(disk.Current()).submitted + [b.value]
  {
    hide Revoke, Sound, SignsRevocation;
    var f := disk.Current();
    if RevokeGoesThrough(c, f, i) {
      RevokeEndsWell(c, f, i);
    }
    RevokeIsSound(c, f, i);
    forall g | g in Revoke(c, f, i)
      ensures SignsRevocation(c, i.record, g)
    {
      RevokeSucceeds(c, f, i, g);
    }
    MakeRevocation(c, disk, i);
  }

  // ---------------------------------------------------------------- lineages

  ghost predicate Lineage(c: Codec, bs: seq<Bytes>) {
    && bs != []
    && c.inspect(bs[0]).Some?
    && forall i | 0 <= i < |bs| - 1 :: Succeeds(c, bs[i], bs[i + 1])
  }

  /**
   * A run of updates and revocations, each starting where the last ended: consecutive revisions,
   * ever later, the same grant between the same parties, and nothing after a revocation.
   */
  lemma {:induction false} LineageFacts(c: Codec, bs: seq<Bytes>, i: nat, j: nat)
    requires Lineage(c, bs) && i < j < |bs|
    ensures c.inspect(bs[i]).Some? && c.inspect(bs[j]).Some?
    ensures var g, h := c.inspect(bs[i]).value, c.inspect(bs[j]).value;
            && g.status.Active?
            && h.revision == g.revision + (j - i) && g.updatedAt < h.updatedAt
            && h.id == g.id && h.grantor == g.grantor && h.grantee == g.grantee && h.issuedAt == g.issuedAt
    decreases j
  {
    assert Succeeds(c, bs[j - 1], bs[j - 1 + 1]);
    if i < j - 1 {
      LineageFacts(c, bs, i, j - 1);
    }
  }

  /** The last record of a lineage binds all of it, and its length: revision one has no predecessor. */
  lemma {:induction false} EndBindsLineage(c: Codec, a: seq<Bytes>, b: seq<Bytes>)
    requires Lineage(c, a) && Lineage(c, b) && a[|a| - 1] == b[|b| - 1]
    requires forall x, y | c.digest(x) == c.digest(y) :: x == y
    requires c.inspect(a[0]).value.previous.None? && c.inspect(b[0]).value.previous.None?
    ensures a == b
    decreases |a|
  {
    if |a| > 1 {
      assert Succeeds(c, a[|a| - 2], a[|a| - 2 + 1]);
    }
    if |b| > 1 {
      assert Succeeds(c, b[|b| - 2], b[|b| - 2 + 1]);
    }
    if |a| > 1 && |b| > 1 {
      var x, y := a[..|a| - 1], b[..|b| - 1];
      assert c.digest(x[|x| - 1]) == c.digest(y[|y| - 1]);
      ShorterLineage(c, a);
      ShorterLineage(c, b);
      EndBindsLineage(c, x, y);
      assert a == x + [a[|a| - 1]] && b == y + [b[|b| - 1]];
    }
  }

  lemma ShorterLineage(c: Codec, a: seq<Bytes>)
    requires Lineage(c, a) && |a| > 1
    ensures Lineage(c, a[..|a| - 1])
  {
    var x := a[..|a| - 1];
    forall i | 0 <= i < |x| - 1
      ensures Succeeds(c, x[i], x[i + 1])
    {
      assert Succeeds(c, a[i], a[i + 1]);
    }
  }

  /** Every step takes permission away or revokes. */
  ghost predicate OnlyRestricting(c: Codec, bs: seq<Bytes>)
    requires Lineage(c, bs)
  {
    forall i | 0 <= i < |bs| - 1 :: Succeeds(c, bs[i], bs[i + 1]) && StepRestricts(c.inspect(bs[i]).value, c.inspect(bs[i + 1]).value)
  }

  ghost predicate StepRestricts(g: Grant, h: Grant) {
    h.status.Revoked? || Restricts(g, h.scope, h.expiresAt)
  }

  /**
   * Without fresh consent permission only shrinks: over restricting steps the permitted categories
   * and times only ever get fewer, and the consent stays the one that was given.
   */
  lemma {:induction false} RestrictingShrinks(c: Codec, bs: seq<Bytes>, i: nat, j: nat)
    requires Lawful(c) && Lineage(c, bs) && OnlyRestricting(c, bs) && i < j < |bs|
    ensures c.inspect(bs[i]).Some? && c.inspect(bs[j]).Some?
    ensures var g, h := c.inspect(bs[i]).value, c.inspect(bs[j]).value;
            PermitsNoMore(h, g) && !PermitsNoMore(g, h) && h.context == g.context
    decreases j
  {
    assert Succeeds(c, bs[j - 1], bs[j - 1 + 1]);
    var f, h := c.inspect(bs[j - 1]).value, c.inspect(bs[j]).value;
    OneStepShrinks(c, bs[j - 1], f, h);
    if i < j - 1 {
      RestrictingShrinks(c, bs, i, j - 1);
      ShrinksTransitive(h, f, c.inspect(bs[i]).value);
    }
  }

  lemma OneStepShrinks(c: Codec, b: Bytes, g: Grant, h: Grant)
    requires NextRevision(c, b, g, h) && StepRestricts(g, h) && GrantRules(g) && GrantRules(h)
    ensures PermitsNoMore(h, g) && !PermitsNoMore(g, h) && h.context == g.context
  {
    if h.status.Revoked? {
      var time := if g.expiresAt.Some? then g.expiresAt.value - 1 else 0;
      assert Permits(g, g.scope[0], time);
      assert !Permits(h, g.scope[0], time);
    } else {
      RestrictsExactly(g, h);
    }
  }

  lemma ShrinksTransitive(h: Grant, f: Grant, g: Grant)
    requires PermitsNoMore(h, f) && PermitsNoMore(f, g) && !PermitsNoMore(g, f)
    ensures PermitsNoMore(h, g) && !PermitsNoMore(g, h)
  {
    var category, time :| Permits(g, category, time) && !Permits(f, category, time);
    assert !Permits(h, category, time);
  }
}
