/**
 * Which values the limits admit, and the bookkeeping on sizes and counts that ties the three
 * independent passes of the codec (preflight, scan, post-decode check) to one another.
 */
module Admission {
  import opened Octets
  import opened Options
  import opened Grammar
  import opened KeyOrder
  import opened Values

  /** The rules of the plain codec: no tags anywhere and text keys only. */
  function TextRules(l: Limits): Rules { Rules(l, false, true) }

  /**
   * The value obeys the rules when it stands at this depth, and no integer in it is below `least`.
   * A text string must be UTF-8; the integer ceiling is always 2^53-1.
   */
  predicate Fits(v: Value, rules: Rules, depth: nat, outer: bool, least: int)
    decreases v
  {
    var l := rules.limits;
    && depth <= l.maximumDepth
    && match v
       case Null => true
       case Bool(_) => true
       case Int(n) => least <= n <= MAX_SAFE
       case ByteString(s) => |s| <= l.maximumByteStringLength
       case TextString(s) => |s| <= l.maximumTextBytes && Utf8(s)
       case Array(xs) => |xs| <= l.maximumArrayLength && forall x | x in xs :: Fits(x, rules, depth + 1, false, least)
       case Map(m) =>
         && |m| <= l.maximumMapEntries
         && (rules.textKeys ==> forall k | k in m :: k.TextString?)
         && forall k | k in m :: Fits(k, rules, depth + 1, false, least) && Fits(m[k], rules, depth + 1, false, least)
       case Tagged(n, x) => rules.outerTag18 && outer && n == 18 && Fits(x, rules, depth + 1, false, least)
  }

  /** The smallest integer the codec admits, and the smallest the scanner alone lets through. */
  const LEAST_SAFE: int := -9007199254740991
  const LEAST_SCANNED: int := -9007199254740992

  lemma {:induction false} FitsIsPlain(v: Value, rules: Rules, depth: nat, outer: bool, least: int)
    requires rules.textKeys && LEAST_SCANNED <= least
    requires Fits(v, rules, depth, outer, least)
    ensures Plain(v)
    decreases v
  {
    match v
    case Array(xs) =>
      forall x | x in xs
        ensures Plain(x)
      {
        FitsIsPlain(x, rules, depth + 1, false, least);
      }
    case Map(m) =>
      forall k | k in m
        ensures Hashable(k) && Plain(k) && Plain(m[k])
      {
        FitsIsPlain(k, rules, depth + 1, false, least);
        FitsIsPlain(m[k], rules, depth + 1, false, least);
      }
    case Tagged(n, x) => FitsIsPlain(x, rules, depth + 1, false, least);
    case _ =>
  }

  /** Looser limits admit at least as much. */
  lemma {:induction false} FitsMonotone(v: Value, r: Rules, q: Rules, depth: nat, outer: bool, least: int)
    requires Fits(v, r, depth, outer, least)
    requires Looser(r.limits, q.limits) && r.outerTag18 == q.outerTag18 && (q.textKeys ==> r.textKeys)
    ensures Fits(v, q, depth, outer, least)
    decreases v
  {
    match v
    case Array(xs) =>
      forall x | x in xs
        ensures Fits(x, q, depth + 1, false, least)
      {
        FitsMonotone(x, r, q, depth + 1, false, least);
      }
    case Map(m) =>
      forall k | k in m
        ensures Fits(k, q, depth + 1, false, least) && Fits(m[k], q, depth + 1, false, least)
      {
        FitsMonotone(k, r, q, depth + 1, false, least);
        FitsMonotone(m[k], r, q, depth + 1, false, least);
      }
    case Tagged(n, x) => FitsMonotone(x, r, q, depth + 1, false, least);
    case _ =>
  }

  // ---------------------------------------------------------------- scan rules and value rules agree

  /** A value's canonical tree obeys the scanner's rules exactly when the value fits. */
  lemma {:induction false} WireWithin(v: Value, rules: Rules, depth: nat, outer: bool)
    ensures Within(Wire(v), rules, depth, outer) <==> Fits(v, rules, depth, outer, LEAST_SCANNED)
    decreases v
  {
    match v
    case Array(xs) =>
      forall x | x in xs
        ensures Within(Wire(x), rules, depth + 1, false) <==> Fits(x, rules, depth + 1, false, LEAST_SCANNED)
      {
        WireWithin(x, rules, depth + 1, false);
      }
      ArrayWithin(xs, rules, depth, outer);
    case Map(m) =>
      forall k | k in m
        ensures Within(Wire(k), rules, depth + 1, false) <==> Fits(k, rules, depth + 1, false, LEAST_SCANNED)
        ensures Within(Wire(m[k]), rules, depth + 1, false) <==> Fits(m[k], rules, depth + 1, false, LEAST_SCANNED)
      {
        WireWithin(k, rules, depth + 1, false);
        WireWithin(m[k], rules, depth + 1, false);
      }
      MapWithin(m, rules, depth, outer);
    case Tagged(n, x) =>
      WireWithin(x, rules, depth + 1, false);
      TaggedWithin(n, x, rules, depth, outer);
    case _ =>
  }

  lemma ArrayWithin(xs: seq<Value>, rules: Rules, depth: nat, outer: bool)
    requires forall x | x in xs :: Within(Wire(x), rules, depth + 1, false) <==> Fits(x, rules, depth + 1, false, LEAST_SCANNED)
    ensures Within(Wire(Array(xs)), rules, depth, outer) <==> Fits(Array(xs), rules, depth, outer, LEAST_SCANNED)
  {
    WireAllWithin(xs, rules, depth + 1);
    assert Wire(Array(xs)).kids == WireAll(xs);
    hide Wire;
  }

  lemma MapWithin(m: map<Value, Value>, rules: Rules, depth: nat, outer: bool)
    requires forall k | k in m :: Within(Wire(k), rules, depth + 1, false) <==> Fits(k, rules, depth + 1, false, LEAST_SCANNED)
    requires forall k | k in m :: Within(Wire(m[k]), rules, depth + 1, false) <==> Fits(m[k], rules, depth + 1, false, LEAST_SCANNED)
    ensures Within(Wire(Map(m)), rules, depth, outer) <==> Fits(Map(m), rules, depth, outer, LEAST_SCANNED)
  {
    hide Fits, Within, WithinHere, AllWithin, EntriesWithin, AllFit, KeysAreText;
    var ks := Order(m);
    var it := Wire(Map(m));
    assert it.kids == Pairs(m, ks) && it.major == 5 && it.arg == |m|;
    hide Wire, Pairs, Order;
    PairsWithin(m, ks, rules, depth + 1);
    EntriesFit(m, ks, rules, depth + 1);
    MapItemWithin(it, rules, depth, outer);
    MapFits(m, rules, depth, outer);
    assert (forall k | k in ks :: k.TextString?) <==> forall k | k in m :: k.TextString?;
  }

  lemma MapItemWithin(it: Item, rules: Rules, depth: nat, outer: bool)
    requires it.major == 5
    ensures Within(it, rules, depth, outer) <==>
            depth <= rules.limits.maximumDepth && it.arg <= rules.limits.maximumMapEntries
            && (rules.textKeys ==> KeysAreText(it.kids)) && AllWithin(it.kids, rules, depth + 1)
  {
  }

  ghost predicate AllFit(m: map<Value, Value>, rules: Rules, depth: nat) {
    forall k | k in m :: Fits(k, rules, depth, false, LEAST_SCANNED) && Fits(m[k], rules, depth, false, LEAST_SCANNED)
  }

  lemma MapFits(m: map<Value, Value>, rules: Rules, depth: nat, outer: bool)
    ensures Fits(Map(m), rules, depth, outer, LEAST_SCANNED) <==>
            depth <= rules.limits.maximumDepth && |m| <= rules.limits.maximumMapEntries
            && (rules.textKeys ==> forall k | k in m :: k.TextString?) && AllFit(m, rules, depth + 1)
  {
  }

  lemma EntriesFit(m: map<Value, Value>, ks: seq<Value>, rules: Rules, depth: nat)
    requires Lists(ks, m.Keys)
    requires forall k | k in m :: Within(Wire(k), rules, depth, false) <==> Fits(k, rules, depth, false, LEAST_SCANNED)
    requires forall k | k in m :: Within(Wire(m[k]), rules, depth, false) <==> Fits(m[k], rules, depth, false, LEAST_SCANNED)
    ensures EntriesWithin(m, ks, rules, depth) <==> AllFit(m, rules, depth)
  {
    hide Within, Wire, Fits;
  }

  lemma TaggedWithin(n: nat, x: Value, rules: Rules, depth: nat, outer: bool)
    requires Within(Wire(x), rules, depth + 1, false) <==> Fits(x, rules, depth + 1, false, LEAST_SCANNED)
    ensures Within(Wire(Tagged(n, x)), rules, depth, outer) <==> Fits(Tagged(n, x), rules, depth, outer, LEAST_SCANNED)
  {
    var it := Wire(Tagged(n, x));
    assert it.kids == [Wire(x)] && it.major == 6 && it.arg == n && it.content == [];
    hide Wire, Within, WithinHere, Fits;
    OneKidWithin(it, Wire(x), rules, depth, outer);
    TaggedFits(n, x, rules, depth, outer);
    TaggedHere(it, rules, depth, outer);
  }

  lemma OneKidWithin(it: Item, kid: Item, rules: Rules, depth: nat, outer: bool)
    requires it.kids == [kid]
    ensures Within(it, rules, depth, outer) <==> WithinHere(it, rules, depth, outer) && Within(kid, rules, depth + 1, false)
  {
    hide WithinHere;
    assert it.kids[0] == kid && kid in it.kids;
    assert forall k | k in it.kids :: k == kid;
  }

  lemma TaggedHere(it: Item, rules: Rules, depth: nat, outer: bool)
    requires it.major == 6
    ensures WithinHere(it, rules, depth, outer) <==> depth <= rules.limits.maximumDepth && rules.outerTag18 && outer && it.arg == 18
  {
  }

  lemma TaggedFits(n: nat, x: Value, rules: Rules, depth: nat, outer: bool)
    ensures Fits(Tagged(n, x), rules, depth, outer, LEAST_SCANNED) <==>
              && depth <= rules.limits.maximumDepth && rules.outerTag18 && outer && n == 18
              && Fits(x, rules, depth + 1, false, LEAST_SCANNED)
  {
  }

  lemma {:induction false} WireAllWithin(xs: seq<Value>, rules: Rules, depth: nat)
    ensures AllWithin(WireAll(xs), rules, depth) <==> forall x | x in xs :: Within(Wire(x), rules, depth, false)
    decreases |xs|
  {
    hide Within, Wire, WireAll;
    if xs == [] {
      assert |WireAll(xs)| == 0;
    } else {
      var rest := xs[1..];
      WireAllWithin(rest, rules, depth);
      assert xs == [xs[0]] + rest;
      WireAllCons(xs[0], rest);
      OneMoreKid(Wire(xs[0]), WireAll(rest), rules, depth);
      OneMoreValue(xs[0], rest, rules, depth);
    }
  }

  lemma OneMoreKid(kid: Item, rest: seq<Item>, rules: Rules, depth: nat)
    ensures AllWithin([kid] + rest, rules, depth) <==> Within(kid, rules, depth, false) && AllWithin(rest, rules, depth)
  {
    hide Within;
    assert ([kid] + rest)[0] == kid;
    assert forall k | k in rest :: k in [kid] + rest;
  }

  lemma OneMoreValue(x: Value, rest: seq<Value>, rules: Rules, depth: nat)
    ensures (forall y | y in [x] + rest :: Within(Wire(y), rules, depth, false)) <==>
              Within(Wire(x), rules, depth, false) && forall y | y in rest :: Within(Wire(y), rules, depth, false)
  {
    hide Within, Wire;
    assert ([x] + rest)[0] == x;
    assert forall y | y in rest :: y in [x] + rest;
  }

  ghost predicate AllWithin(kids: seq<Item>, rules: Rules, depth: nat) {
    forall kid | kid in kids :: Within(kid, rules, depth, false)
  }

  lemma AllWithinCons(key: Item, value: Item, rest: seq<Item>, rules: Rules, depth: nat)
    ensures AllWithin([key, value] + rest, rules, depth)
            <==> Within(key, rules, depth, false) && Within(value, rules, depth, false) && AllWithin(rest, rules, depth)
  {
    hide Within;
    var kids := [key, value] + rest;
    assert kids[0] == key && kids[1] == value;
    assert forall kid | kid in rest :: kid in kids;
  }

  ghost predicate EntriesWithin(m: map<Value, Value>, ks: seq<Value>, rules: Rules, depth: nat)
    requires forall k | k in ks :: k in m
  {
    forall k | k in ks :: Within(Wire(k), rules, depth, false) && Within(Wire(m[k]), rules, depth, false)
  }

  lemma {:induction false} PairsWithin(m: map<Value, Value>, ks: seq<Value>, rules: Rules, depth: nat)
    requires forall k | k in ks :: k in m
    ensures AllWithin(Pairs(m, ks), rules, depth) <==> EntriesWithin(m, ks, rules, depth)
    ensures KeysAreText(Pairs(m, ks)) <==> forall k | k in ks :: k.TextString?
    decreases |ks|
  {
    hide Within, Wire;
    if ks == [] {
      assert Pairs(m, ks) == [];
    } else {
      PairsWithin(m, ks[1..], rules, depth);
      assert ks == [ks[0]] + ks[1..];
      TextMajor(ks[0]);
      KeysAreTextCons(Wire(ks[0]), Wire(m[ks[0]]), Pairs(m, ks[1..]));
      AllWithinCons(Wire(ks[0]), Wire(m[ks[0]]), Pairs(m, ks[1..]), rules, depth);
    }
  }

  lemma TextMajor(v: Value)
    ensures Wire(v).major == 3 <==> v.TextString?
  {
  }

  lemma KeysAreTextCons(key: Item, value: Item, rest: seq<Item>)
    ensures KeysAreText([key, value] + rest) <==> key.major == 3 && KeysAreText(rest)
  {
    var kids := [key, value] + rest;
    if KeysAreText(kids) {
      assert kids[0] == key;
      forall i | 0 <= i < |rest| && i % 2 == 0
        ensures rest[i].major == 3
      {
        assert kids[i + 2] == rest[i] && (i + 2) % 2 == 0;
      }
    }
    if key.major == 3 && KeysAreText(rest) {
      forall i | 0 <= i < |kids| && i % 2 == 0
        ensures kids[i].major == 3
      {
        if i >= 2 {
          assert kids[i] == rest[i - 2] && (i - 2) % 2 == 0;
        }
      }
    }
  }

  /** What a conforming item reads as fits the same rules, whatever the form of its heads. */
  lemma {:induction false} ScannedFits(it: Item, rules: Rules, depth: nat, outer: bool)
    requires WellFormed(it) && Within(it, rules, depth, outer) && Unmarshal(it).Some?
    ensures Fits(Unmarshal(it).value, rules, depth, outer, LEAST_SCANNED)
    decreases it
  {
    hide Fits, Within, WellFormed, Unmarshal;
    if 4 <= it.major <= 6 {
      KidsConform(it, rules, depth, outer);
      var vs := UnmarshalAll(it.kids).value;
      forall i | 0 <= i < |vs|
        ensures Fits(vs[i], rules, depth + 1, false, LEAST_SCANNED)
        ensures it.kids[i].major == 3 ==> vs[i].TextString?
      {
        UnmarshalAt(it.kids, i);
        ScannedFits(it.kids[i], rules, depth + 1, false);
        TextReadsAsText(it.kids[i]);
      }
      if it.major == 5 {
        ScannedMapFits(it, rules, depth, outer, vs);
      } else {
        ScannedRunFits(it, rules, depth, outer, vs);
      }
    } else {
      ScannedLeafFits(it, rules, depth, outer);
    }
  }

  lemma KidsConform(it: Item, rules: Rules, depth: nat, outer: bool)
    requires WellFormed(it) && Within(it, rules, depth, outer) && Unmarshal(it).Some? && 4 <= it.major <= 6
    ensures forall i | 0 <= i < |it.kids| ::
              it.kids[i] < it && WellFormed(it.kids[i]) && Within(it.kids[i], rules, depth + 1, false)
    ensures UnmarshalAll(it.kids).Some?
  {
    hide Fits, UnmarshalAll;
    assert forall i | 0 <= i < |it.kids| :: it.kids[i] in it.kids;
  }

  lemma TextReadsAsText(it: Item)
    requires WellFormed(it) && Unmarshal(it).Some?
    ensures it.major == 3 ==> Unmarshal(it).value.TextString?
  {
  }

  lemma ScannedLeafFits(it: Item, rules: Rules, depth: nat, outer: bool)
    requires WellFormed(it) && Within(it, rules, depth, outer) && Unmarshal(it).Some? && !(4 <= it.major <= 6)
    ensures Fits(Unmarshal(it).value, rules, depth, outer, LEAST_SCANNED)
  {
    hide Utf8, Pow256, UnmarshalAll;
  }

  /** An array, or what stands under a tag. */
  lemma ScannedRunFits(it: Item, rules: Rules, depth: nat, outer: bool, vs: seq<Value>)
    requires WellFormed(it) && Within(it, rules, depth, outer) && Unmarshal(it).Some? && (it.major == 4 || it.major == 6)
    requires UnmarshalAll(it.kids) == Some(vs)
    requires forall i | 0 <= i < |vs| :: Fits(vs[i], rules, depth + 1, false, LEAST_SCANNED)
    ensures Fits(Unmarshal(it).value, rules, depth, outer, LEAST_SCANNED)
  {
    hide UnmarshalAll, Pow256, Utf8;
    assert it.major == 4 ==> forall x | x in vs :: Fits(x, rules, depth + 1, false, LEAST_SCANNED);
  }

  lemma ScannedMapFits(it: Item, rules: Rules, depth: nat, outer: bool, vs: seq<Value>)
    requires WellFormed(it) && Within(it, rules, depth, outer) && Unmarshal(it).Some? && it.major == 5
    requires UnmarshalAll(it.kids) == Some(vs)
    requires forall i | 0 <= i < |vs| ::
               Fits(vs[i], rules, depth + 1, false, LEAST_SCANNED) && (it.kids[i].major == 3 ==> vs[i].TextString?)
    ensures Fits(Unmarshal(it).value, rules, depth, outer, LEAST_SCANNED)
  {
    hide UnmarshalAll, Pow256, Utf8, Entries;
    EntriesSize(vs);
    EntriesKeys(vs);
  }

  /** Each key of the map that a run makes stands at an even place of the run. */
  lemma {:induction false} EntriesKeys(vs: seq<Value>)
    requires Entries(vs).Some?
    ensures forall k | k in Entries(vs).value :: exists i | 0 <= i < |vs| :: i % 2 == 0 && vs[i] == k
    decreases |vs|
  {
    if |vs| >= 2 {
      EntriesKeys(vs[2..]);
      forall k | k in Entries(vs).value
        ensures exists i | 0 <= i < |vs| :: i % 2 == 0 && vs[i] == k
      {
        if k != vs[0] {
          var i :| 0 <= i < |vs[2..]| && i % 2 == 0 && vs[2..][i] == k;
          assert vs[i + 2] == k && (i + 2) % 2 == 0;
        } else {
          assert 0 % 2 == 0 && vs[0] == k;
        }
      }
    }
  }

  // ---------------------------------------------------------------- counting

  /** The nodes of a tree that are not map keys: what the post-decode check counts. */
  function ValueNodes(it: Item): (n: nat)
    ensures n >= 1
    decreases it
  {
    1 + if it.major == 5 then ValueNodesOfEntries(it.kids) else ValueNodesAll(it.kids)
  }

  function ValueNodesAll(kids: seq<Item>): nat
    decreases kids
  {
    if kids == [] then 0 else ValueNodes(kids[0]) + ValueNodesAll(kids[1..])
  }

  function ValueNodesOfEntries(kids: seq<Item>): nat
    decreases kids
  {
    if |kids| < 2 then 0 else ValueNodes(kids[1]) + ValueNodesOfEntries(kids[2..])
  }

  lemma {:induction false} ValueNodesAtMost(it: Item)
    ensures ValueNodes(it) <= Nodes(it)
    decreases it, 1
  {
    if it.major == 5 {
      ValueNodesOfEntriesAtMost(it.kids);
    } else {
      ValueNodesAllAtMost(it.kids);
    }
  }

  lemma {:induction false} ValueNodesAllAtMost(kids: seq<Item>)
    ensures ValueNodesAll(kids) <= NodesAll(kids)
    decreases kids, 0
  {
    if kids != [] {
      ValueNodesAtMost(kids[0]);
      ValueNodesAllAtMost(kids[1..]);
    }
  }

  lemma {:induction false} ValueNodesOfEntriesAtMost(kids: seq<Item>)
    ensures ValueNodesOfEntries(kids) <= NodesAll(kids)
    decreases kids, 0
  {
    if |kids| >= 2 {
      ValueNodesAtMost(kids[1]);
      ValueNodesOfEntriesAtMost(kids[2..]);
      assert kids[1..][1..] == kids[2..];
    }
  }

  /** Octets, nodes and value nodes of the entries for these keys. */
  ghost function Tally(m: map<Value, Value>, ks: seq<Value>): (nat, nat, nat)
    requires forall k | k in ks :: k in m
  {
    (|BytesAll(Pairs(m, ks))|, NodesAll(Pairs(m, ks)), ValueNodesOfEntries(Pairs(m, ks)))
  }

  ghost function Sum(a: (nat, nat, nat), b: (nat, nat, nat)): (nat, nat, nat) {
    (a.0 + b.0, a.1 + b.1, a.2 + b.2)
  }

  ghost function EntryTally(m: map<Value, Value>, k: Value): (nat, nat, nat)
    requires k in m
  {
    (|Enc(k)| + |Enc(m[k])|, Nodes(Wire(k)) + Nodes(Wire(m[k])), ValueNodes(Wire(m[k])))
  }

  lemma TallyNone(m: map<Value, Value>)
    ensures Tally(m, []) == (0, 0, 0)
  {
  }

  lemma TallyCons(m: map<Value, Value>, k: Value, ks: seq<Value>)
    requires k in m && forall j | j in ks :: j in m
    ensures Tally(m, [k] + ks) == Sum(EntryTally(m, k), Tally(m, ks))
  {
    hide Bytes, Nodes, ValueNodes, Wire;
    assert ([k] + ks)[1..] == ks;
    var kids, rest := Pairs(m, [k] + ks), Pairs(m, ks);
    assert kids == [Wire(k), Wire(m[k])] + rest;
    assert kids[1..] == [Wire(m[k])] + rest;
    assert kids[1..][1..] == rest && kids[2..] == rest;
    assert BytesAll(kids) == Bytes(Wire(k)) + (Bytes(Wire(m[k])) + BytesAll(rest));
    assert NodesAll(kids) == Nodes(Wire(k)) + (Nodes(Wire(m[k])) + NodesAll(rest));
  }

  lemma {:induction false} TallyAppend(m: map<Value, Value>, a: seq<Value>, b: seq<Value>)
    requires forall k | k in a :: k in m
    requires forall k | k in b :: k in m
    ensures Tally(m, a + b) == Sum(Tally(m, a), Tally(m, b))
    decreases a
  {
    hide Tally, EntryTally;
    if a == [] {
      assert a + b == b;
      TallyNone(m);
    } else {
      TallyAppend(m, a[1..], b);
      TallyCons(m, a[0], a[1..]);
      TallyCons(m, a[0], a[1..] + b);
      assert a == [a[0]] + a[1..];
      assert a + b == [a[0]] + (a[1..] + b);
    }
  }

  ghost predicate AtMost(a: (nat, nat, nat), b: (nat, nat, nat)) { a.0 <= b.0 && a.1 <= b.1 && a.2 <= b.2 }

  /**
   * The tally does not depend on the order in which the keys are visited, and visiting only some
   * of the keys tallies no more than visiting all of them.
   */
  lemma {:induction false} TallyOrder(m: map<Value, Value>, a: seq<Value>, b: seq<Value>)
    requires forall k | k in b :: k in m
    requires Distinct(a) && Distinct(b) && forall k | k in a :: k in b
    ensures AtMost(Tally(m, a), Tally(m, b))
    ensures |a| <= |b| && (|a| == |b| ==> Tally(m, a) == Tally(m, b))
    decreases a
  {
    hide Tally, EntryTally, Distinct, Sum, AtMost;
    if a == [] {
      TallyNone(m);
      TallyNonNegative(m, b);
      if b == [] {
        TallyNone(m);
      }
    } else {
      assert a[0] in b;
      var i :| 0 <= i < |b| && b[i] == a[0];
      var front, back, rest := b[..i], b[i + 1..], a[1..];
      assert b == front + ([a[0]] + back) && a == [a[0]] + rest;
      RestIsDistinct(a);
      DropOne(b, i, rest);
      TallyOrder(m, rest, front + back);
      TallyAppend(m, front, [a[0]] + back);
      TallyAppend(m, front, back);
      TallyCons(m, a[0], back);
      TallyCons(m, a[0], rest);
      MovedUp(Tally(m, front), EntryTally(m, a[0]), Tally(m, back), Tally(m, rest));
    }
  }

  lemma RestIsDistinct(a: seq<Value>)
    requires a != [] && Distinct(a)
    ensures Distinct(a[1..]) && forall k | k in a[1..] :: k in a && k != a[0]
  {
  }

  /** An entry may be counted first or in its place. */
  lemma MovedUp(f: (nat, nat, nat), e: (nat, nat, nat), b: (nat, nat, nat), rest: (nat, nat, nat))
    ensures AtMost(rest, Sum(f, b)) ==> AtMost(Sum(e, rest), Sum(f, Sum(e, b)))
    ensures rest == Sum(f, b) ==> Sum(e, rest) == Sum(f, Sum(e, b))
  {
  }

  lemma TallyNonNegative(m: map<Value, Value>, ks: seq<Value>)
    requires forall k | k in ks :: k in m
    ensures AtMost((0, 0, 0), Tally(m, ks))
    ensures ks == [] ==> Tally(m, ks) == (0, 0, 0)
  {
  }

  lemma DropOne<T>(b: seq<T>, i: nat, a: seq<T>)
    requires i < |b| && Distinct(b) && forall k | k in a :: k in b && k != b[i]
    ensures Distinct(b[..i] + b[i + 1..])
    ensures forall k | k in a :: k in b[..i] + b[i + 1..]
    ensures forall k | k in b[..i] + b[i + 1..] :: k in b
  {
    var fewer := b[..i] + b[i + 1..];
    forall k | k in a
      ensures k in fewer
    {
      var j :| 0 <= j < |b| && b[j] == k;
      assert fewer[if j < i then j else j - 1] == k;
    }
  }

  /** Octets, nodes and value nodes of one value, and of a run of values. */
  ghost function ValueTally(v: Value): (nat, nat, nat) {
    (|Enc(v)|, Nodes(Wire(v)), ValueNodes(Wire(v)))
  }

  ghost function RunTally(xs: seq<Value>): (nat, nat, nat) {
    (|BytesAll(WireAll(xs))|, NodesAll(WireAll(xs)), ValueNodesAll(WireAll(xs)))
  }

  lemma RunTallyNone()
    ensures RunTally([]) == (0, 0, 0)
  {
  }

  lemma RunTallyCons(xs: seq<Value>)
    requires xs != []
    ensures RunTally(xs) == Sum(ValueTally(xs[0]), RunTally(xs[1..]))
  {
    hide Bytes, Nodes, ValueNodes, Wire;
    assert WireAll(xs)[1..] == WireAll(xs[1..]);
  }

  lemma {:induction false} RunTallyAppend(a: seq<Value>, b: seq<Value>)
    ensures RunTally(a + b) == Sum(RunTally(a), RunTally(b))
    decreases a
  {
    hide RunTally, ValueTally, Sum;
    if a == [] {
      assert a + b == b;
      RunTallyNone();
      SumAssociative((0, 0, 0), (0, 0, 0), RunTally(b));
    } else {
      var rest := a[1..];
      RunTallyAppend(rest, b);
      AppendRest(a, b);
      RunTallyCons(a);
      RunTallyCons(a + b);
      SumAssociative(ValueTally(a[0]), RunTally(rest), RunTally(b));
    }
  }

  lemma SumAssociative(a: (nat, nat, nat), b: (nat, nat, nat), c: (nat, nat, nat))
    ensures Sum(Sum(a, b), c) == Sum(a, Sum(b, c)) && Sum((0, 0, 0), c) == c
  {
  }

  /** One more value of a run. */
  lemma RunTallySnoc(xs: seq<Value>, i: nat)
    requires i < |xs|
    ensures RunTally(xs[..i + 1]) == Sum(RunTally(xs[..i]), ValueTally(xs[i]))
    ensures AtMost(RunTally(xs[..i + 1]), RunTally(xs))
  {
    hide ValueTally, RunTally;
    RunTallyNone();
    assert xs[..i + 1] == xs[..i] + [xs[i]];
    assert xs == xs[..i + 1] + xs[i + 1..];
    assert [xs[i]][1..] == [];
    RunTallyCons([xs[i]]);
    RunTallyAppend(xs[..i], [xs[i]]);
    RunTallyAppend(xs[..i + 1], xs[i + 1..]);
  }

  /** One more key of a map, whichever keys were visited before it. */
  lemma TallySnoc(m: map<Value, Value>, ks: seq<Value>, k: Value)
    requires forall j | j in ks + [k] :: j in m
    requires Distinct(ks + [k])
    ensures k in m && forall j | j in ks :: j in m
    ensures Tally(m, ks + [k]) == Sum(Tally(m, ks), EntryTally(m, k))
    ensures AtMost(Tally(m, ks + [k]), Tally(m, Order(m)))
  {
    hide Tally, EntryTally;
    assert (ks + [k])[|ks|] == k && forall i | 0 <= i < |ks| :: (ks + [k])[i] == ks[i];
    TallyNone(m);
    TallyCons(m, k, []);
    assert [k] + [] == [k];
    TallyAppend(m, ks, [k]);
    TallyOrder(m, ks + [k], Order(m));
  }

  /** The tally of a container is that of its head and what it holds. */
  lemma ArrayTally(xs: seq<Value>)
    ensures ValueTally(Array(xs)) == Sum((1 + ShortestWidth(|xs|), 1, 1), RunTally(xs))
  {
    NodeTally(Item(4, ShortestWidth(|xs|), |xs|, [], WireAll(xs)));
  }

  lemma MapTally(m: map<Value, Value>)
    ensures ValueTally(Map(m)) == Sum((1 + ShortestWidth(|m|), 1, 1), Tally(m, Order(m)))
  {
    hide Bytes, Nodes, ValueNodes, Order;
    NodeTally(Item(5, ShortestWidth(|m|), |m|, [], Pairs(m, Order(m))));
  }

  lemma NodeTally(it: Item)
    requires it.content == []
    ensures |Bytes(it)| == 1 + it.width + |BytesAll(it.kids)|
    ensures Nodes(it) == 1 + NodesAll(it.kids)
    ensures ValueNodes(it) == 1 + if it.major == 5 then ValueNodesOfEntries(it.kids) else ValueNodesAll(it.kids)
  {
  }

  /** Reading a tree and writing it canonically keeps the number of nodes. */
  lemma {:induction false} CanonicalNodes(it: Item)
    requires WellFormed(it) && Unmarshal(it).Some?
    ensures Nodes(Wire(Unmarshal(it).value)) == Nodes(it)
    decreases it
  {
    if 4 <= it.major <= 6 {
      var vs := UnmarshalAll(it.kids).value;
      CanonicalNodesAll(it.kids);
      if it.major == 5 {
        EntriesNodes(vs);
      } else if it.major == 6 {
        assert it.kids == [it.kids[0]] && vs == [vs[0]];
        assert WireAll(vs) == [Wire(vs[0])];
      }
    }
  }

  lemma {:induction false} CanonicalNodesAll(kids: seq<Item>)
    requires AllWellFormed(kids) && UnmarshalAll(kids).Some?
    ensures NodesAll(WireAll(UnmarshalAll(kids).value)) == NodesAll(kids)
    decreases kids
  {
    if kids != [] {
      var vs := UnmarshalAll(kids).value;
      CanonicalNodes(kids[0]);
      CanonicalNodesAll(kids[1..]);
      assert vs[1..] == UnmarshalAll(kids[1..]).value;
      assert WireAll(vs)[1..] == WireAll(vs[1..]);
    }
  }

  lemma EntriesNodes(vs: seq<Value>)
    requires |vs| % 2 == 0 && Entries(vs).Some?
    ensures NodesAll(Pairs(Entries(vs).value, Order(Entries(vs).value))) == NodesAll(WireAll(vs))
  {
    var m := Entries(vs).value;
    FlatOfEntries(vs);
    PairsOfFlat(m, KeysOf(vs));
    ListsLength(KeysOf(vs), m.Keys);
    TallyOrder(m, KeysOf(vs), Order(m));
  }

  lemma {:induction false} PairsOfFlat(m: map<Value, Value>, ks: seq<Value>)
    requires forall k | k in ks :: k in m
    ensures WireAll(Flat(m, ks)) == Pairs(m, ks)
    decreases ks
  {
    hide Wire;
    if ks != [] {
      var rest := Flat(m, ks[1..]);
      PairsOfFlat(m, ks[1..]);
      WireAllOfTwo(ks[0], m[ks[0]], rest);
    }
  }

  lemma WireAllOfTwo(x: Value, y: Value, rest: seq<Value>)
    ensures WireAll([x, y] + rest) == [Wire(x), Wire(y)] + WireAll(rest)
  {
    hide Wire, WireAll;
    Associative([x], [y], rest);
    WireAllCons(x, [y] + rest);
    WireAllCons(y, rest);
    Associative([Wire(x)], [Wire(y)], WireAll(rest));
  }

  lemma WireAllCons(x: Value, rest: seq<Value>)
    ensures WireAll([x] + rest) == [Wire(x)] + WireAll(rest)
  {
    hide Wire;
    assert ([x] + rest)[1..] == rest;
  }
}
