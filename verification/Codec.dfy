/**
 * The deterministic codec: size and limit preflight, post-decode check, and the two entry points
 * that put the scanner, the CBOR library and the comparison gate in a row.
 */
module Codec {
  import opened Octets
  import opened Options
  import opened Grammar
  import opened KeyOrder
  import opened Values
  import opened Admission

  /**
   * The third-party library: what it marshals, and what it unmarshals from octets it is given, in
   * its plain mode and in the one that admits tags.
   */
  datatype Library = Library(
    marshal: Value -> seq<Octet>, unmarshal: seq<Octet> -> Option<Value>, unmarshalTagged: seq<Octet> -> Option<Value>)
  {
    /**
     * It writes the deterministic encoding; and of octets that a scan has accepted, in plain mode
     * one that forbids tags, it reads the obvious tree, refusing duplicate keys.
     */
    ghost predicate Lawful() {
      && (forall v :: Plain(v) ==> marshal(v) == Enc(v))
      && (forall it, rules | WellFormed(it) && Within(it, rules, 0, true) ::
            && unmarshalTagged(Bytes(it)) == Unmarshal(it)
            && (!rules.outerTag18 ==> unmarshal(Bytes(it)) == Unmarshal(it)))
    }
  }

  ghost function ItemSpelled(data: seq<Octet>): Option<Item> {
    if exists it :: WellFormed(it) && Bytes(it) == data then
      var it :| WellFormed(it) && Bytes(it) == data; Some(it)
    else None
  }

  /** The law is consistent: because the grammar reads one way only, some library meets it. */
  lemma LawfulLibraryExists()
    ensures exists lib: Library :: lib.Lawful()
  {
    var marshal := (v: Value) => Enc(v);
    var unmarshal := (data: seq<Octet>) =>
      match ItemSpelled(data)
      case None => None
      case Some(it) => Unmarshal(it);
    var lib := Library(marshal, unmarshal, unmarshal);
    forall it | WellFormed(it)
      ensures lib.unmarshal(Bytes(it)) == Unmarshal(it)
    {
      var found := ItemSpelled(Bytes(it));
      assert found.Some?;
      UniquePrefix(it, found.value, Bytes(it));
    }
    assert lib.Lawful();
  }

  // ---------------------------------------------------------------- sizes in 64 bits

  const TWO_64: nat := 0x1_0000_0000_0000_0000

  /** The low 64 bits of a number. */
  function Low64(a: nat): nat { a % TWO_64 }

  lemma Low64Small(a: nat)
    ensures a < TWO_64 ==> Low64(a) == a
  {
  }

  /** Go's uint64 addition. */
  function Add64(a: nat, b: nat): nat { Low64(a + b) }

  lemma Add64Wraps(a: nat, b: nat)
    ensures Add64(Low64(a), Low64(b)) == Low64(a + b)
  {
    var p, q := a / TWO_64, b / TWO_64;
    assert a + b == (a % TWO_64 + b % TWO_64) + TWO_64 * (p + q);
    ModPlus(a % TWO_64 + b % TWO_64, p + q);
  }

  lemma {:induction false} ModPlus(a: nat, k: nat)
    ensures (a + TWO_64 * k) % TWO_64 == a % TWO_64
  {
    if k > 0 {
      ModPlus(a, k - 1);
      assert a + TWO_64 * k == (a + TWO_64 * (k - 1)) + TWO_64;
    }
  }

  /** The octets a head takes. */
  function ArgumentSize(value: nat): (size: nat)
    ensures 1 <= size <= 9
    ensures forall major :: |Head(major, ShortestWidth(value), value)| == size
  {
    if value < 24 then 1
    else if value <= 0xFF then 2
    else if value <= 0xFFFF then 3
    else if value <= 0xFFFF_FFFF then 5
    else 9
  }

  function IntegerSize(value: int): (size: Option<nat>)
    ensures size.Some? <==> LEAST_SAFE <= value <= MAX_SAFE
  {
    if value < -9007199254740991 || value > 9007199254740991 then None
    else if value >= 0 then Some(ArgumentSize(value))
    else Some(ArgumentSize(-1 - value))
  }

  // ---------------------------------------------------------------- preflight

  /** What the preflight finds out: whether everything fits, the encoded size and the new count. */
  ghost predicate Preflighted(v: Value, l: Limits, depth: nat, count: nat, ok: bool, size: nat, counted: nat) {
    && (ok <==> Fits(v, TextRules(l), depth, false, LEAST_SAFE) && count + Nodes(Wire(v)) <= l.maximumItems)
    && (ok ==> size == Low64(|Enc(v)|) && counted == count + Nodes(Wire(v)))
  }

  /** Sizes a value that Go would marshal, without marshalling it. */
  method PreflightValue(v: Value, l: Limits, depth: nat, count: nat) returns (ok: bool, size: nat, counted: nat)
    ensures Preflighted(v, l, depth, count, ok, size, counted)
    decreases v, 2
  {
    LeafTally(v);
    ShallowFits(v, l, depth);
    hide Fits, Wire, Nodes, Enc, Utf8, ArgumentSize, IntegerSize, Low64;
    counted := count + 1;
    size := 0;
    if counted > l.maximumItems {
      return false, size, counted;
    }
    if depth > l.maximumDepth {
      return false, size, counted;
    }
    match v
    case Null =>
      Low64Small(1);
      return true, 1, counted;
    case Bool(_) =>
      Low64Small(1);
      return true, 1, counted;
    case Int(n) =>
      var s := IntegerSize(n);
      if s.None? {
        return false, size, counted;
      }
      Low64Small(s.value);
      return true, s.value, counted;
    case TextString(s) =>
      if !Utf8(s) {
        return false, size, counted;
      }
      if |s| > l.maximumTextBytes {
        return false, size, counted;
      }
      Low64Small(ArgumentSize(|s|) + |s|);
      return true, ArgumentSize(|s|) + |s|, counted;
    case ByteString(s) =>
      if |s| > l.maximumByteStringLength {
        return false, size, counted;
      }
      Low64Small(ArgumentSize(|s|) + |s|);
      return true, ArgumentSize(|s|) + |s|, counted;
    case Array(xs) =>
      if |xs| > l.maximumArrayLength {
        return false, size, counted;
      }
      ok, size, counted := PreflightArray(xs, l, depth, counted);
    case Map(m) =>
      if |m| > l.maximumMapEntries {
        return false, size, counted;
      }
      ok, size, counted := PreflightMap(m, l, depth, counted);
    case Tagged(_, _) =>
      return false, size, counted;
  }

  /** What it takes to fit but for what is enclosed. */
  lemma ShallowFits(v: Value, l: Limits, depth: nat)
    ensures depth > l.maximumDepth || v.Tagged? ==> !Fits(v, TextRules(l), depth, false, LEAST_SAFE)
    ensures (v.Array? ==> |v.elements| > l.maximumArrayLength) && (v.Map? ==> |v.entries| > l.maximumMapEntries) && (v.Array? || v.Map?) ==>
              !Fits(v, TextRules(l), depth, false, LEAST_SAFE)
    ensures depth <= l.maximumDepth ==>
              && (v.Null? || v.Bool? ==> Fits(v, TextRules(l), depth, false, LEAST_SAFE))
              && (v.Int? ==> (Fits(v, TextRules(l), depth, false, LEAST_SAFE) <==> IntegerSize(v.n).Some?))
              && (v.TextString? ==>
                    (Fits(v, TextRules(l), depth, false, LEAST_SAFE) <==> |v.octets| <= l.maximumTextBytes && Utf8(v.octets)))
              && (v.ByteString? ==> (Fits(v, TextRules(l), depth, false, LEAST_SAFE) <==> |v.octets| <= l.maximumByteStringLength))
    ensures v.Int? && IntegerSize(v.n).Some? ==> IntegerSize(v.n).value <= 9
  {
    hide Utf8;
  }

  method PreflightArray(xs: seq<Value>, l: Limits, depth: nat, count: nat) returns (ok: bool, size: nat, counted: nat)
    requires |xs| <= l.maximumArrayLength && depth <= l.maximumDepth && 1 <= count <= l.maximumItems
    ensures Preflighted(Array(xs), l, depth, count - 1, ok, size, counted)
    decreases xs, 0
  {
    hide Wire, Nodes, Enc, Fits, ValueTally, RunTally;
    size := ArgumentSize(|xs|);
    counted := count;
    RunTallyNone();
    for i := 0 to |xs|
      invariant forall x | x in xs[..i] :: Fits(x, TextRules(l), depth + 1, false, LEAST_SAFE)
      invariant size == Low64(ArgumentSize(|xs|) + RunTally(xs[..i]).0)
      invariant counted == count + RunTally(xs[..i]).1 <= l.maximumItems
    {
      var s;
      ghost var before := RunTally(xs[..i]);
      RunTallySnoc(xs, i);
      ok, s, counted := PreflightValue(xs[i], l, depth + 1, counted);
      PreflightedTally(xs[i], l, depth + 1, count + before.1, ok, s, counted);
      if !ok {
        assert xs[i] in xs;
        ArrayPasses(xs, l, depth);
        return false, size, counted;
      }
      Add64Wraps(ArgumentSize(|xs|) + before.0, ValueTally(xs[i]).0);
      size := Add64(size, s);
      assert xs[..i + 1] == xs[..i] + [xs[i]];
    }
    assert xs[..|xs|] == xs;
    ArrayPasses(xs, l, depth);
    ok := true;
  }

  method PreflightMap(m: map<Value, Value>, l: Limits, depth: nat, count: nat) returns (ok: bool, size: nat, counted: nat)
    requires |m| <= l.maximumMapEntries && depth <= l.maximumDepth && 1 <= count <= l.maximumItems
    ensures Preflighted(Map(m), l, depth, count - 1, ok, size, counted)
    decreases Map(m), 1
  {
    hide Wire, Nodes, Enc, Fits, FitsEntry, ValueTally, Tally, EntryTally, Low64, Order, Lists, Distinct, ArgumentSize, Sum;
    size := ArgumentSize(|m|);
    counted := count;
    TallyNone(m);
    Low64Small(size);
    var rest := m.Keys;
    ghost var visited: seq<Value> := [];
    NoneVisited(rest);
    // The iteration order of a Go map is arbitrary: any key not yet visited may be next.
    while rest != {}
      invariant Lists(visited, m.Keys - rest) && rest <= m.Keys
      invariant forall k | k in visited :: k in m
      invariant forall k | k in visited :: k.TextString? && FitsEntry(m, k, l, depth + 1)
      invariant size == Low64(ArgumentSize(|m|) + Tally(m, visited).0)
      invariant counted == count + Tally(m, visited).1 <= l.maximumItems
      decreases |rest|
    {
      var k :| k in rest;
      if !k.TextString? {
        MapPasses(m, l, depth);
        return false, size, counted;
      }
      ghost var before := Tally(m, visited);
      OneMoreVisited(visited, m.Keys, rest, k);
      TallySnoc(m, visited, k);
      SumParts(before, EntryTally(m, k));
      var s;
      ok, s, counted := PreflightEntry(m, k, l, depth, counted);
      if !ok {
        MapPasses(m, l, depth);
        return false, size, counted;
      }
      Add64Wraps(ArgumentSize(|m|) + before.0, EntryTally(m, k).0);
      size := Add64(size, s);
      visited := visited + [k];
      rest := rest - {k};
    }
    assert m.Keys - rest == m.Keys;
    AllVisited(visited, Order(m), m.Keys);
    TallyOrder(m, visited, Order(m));
    MapPasses(m, l, depth);
    ok := true;
  }

  lemma NoneVisited(keys: set<Value>)
    ensures Lists([], keys - keys)
  {
  }

  lemma OneMoreVisited(visited: seq<Value>, keys: set<Value>, rest: set<Value>, k: Value)
    requires Lists(visited, keys - rest) && rest <= keys && k in rest
    ensures Lists(visited + [k], keys - (rest - {k})) && Distinct(visited + [k])
    ensures forall j | j in visited + [k] :: j in keys
  {
  }

  lemma AllVisited(visited: seq<Value>, order: seq<Value>, keys: set<Value>)
    requires Lists(visited, keys) && Lists(order, keys)
    ensures Distinct(visited) && Distinct(order) && |visited| == |order|
    ensures (forall k | k in visited :: k in order) && forall k | k in keys :: k in visited
    ensures forall k | k in order :: k in keys
  {
    ListsLength(visited, keys);
    ListsLength(order, keys);
  }

  lemma SumParts(a: (nat, nat, nat), b: (nat, nat, nat))
    ensures Sum(a, b) == (a.0 + b.0, a.1 + b.1, a.2 + b.2)
  {
  }

  /** A key, which has to be text, and its value. */
  method PreflightEntry(m: map<Value, Value>, k: Value, l: Limits, depth: nat, count: nat) returns (ok: bool, size: nat, counted: nat)
    requires k in m && k.TextString?
    ensures ok <==> FitsEntry(m, k, l, depth + 1) && count + EntryTally(m, k).1 <= l.maximumItems
    ensures ok ==> size == Low64(EntryTally(m, k).0) && counted == count + EntryTally(m, k).1
    decreases Map(m), 0
  {
    hide Wire, Nodes, Enc, Fits, ValueTally, EntryTally;
    var keySize, valueSize;
    EntryTallySplits(m, k);
    ok, keySize, counted := PreflightValue(k, l, depth + 1, count);
    PreflightedTally(k, l, depth + 1, count, ok, keySize, counted);
    if !ok {
      return false, 0, counted;
    }
    ok, valueSize, counted := PreflightValue(m[k], l, depth + 1, counted);
    PreflightedTally(m[k], l, depth + 1, count + ValueTally(k).1, ok, valueSize, counted);
    Add64Wraps(ValueTally(k).0, ValueTally(m[k]).0);
    size := if ok then Add64(keySize, valueSize) else 0;
  }

  ghost predicate FitsEntry(m: map<Value, Value>, k: Value, l: Limits, depth: nat)
    requires k in m
  {
    Fits(k, TextRules(l), depth, false, LEAST_SAFE) && Fits(m[k], TextRules(l), depth, false, LEAST_SAFE)
  }

  /** The sizes of the values that enclose nothing. */
  lemma LeafTally(v: Value)
    ensures Nodes(Wire(v)) >= 1
    ensures v.Null? || v.Bool? ==> |Enc(v)| == 1 && Nodes(Wire(v)) == 1
    ensures v.Int? ==> Nodes(Wire(v)) == 1 && (IntegerSize(v.n).Some? ==> |Enc(v)| == IntegerSize(v.n).value)
    ensures v.TextString? || v.ByteString? ==> |Enc(v)| == ArgumentSize(|v.octets|) + |v.octets| && Nodes(Wire(v)) == 1
  {
    match v
    case Null => LeafSpelling(7, 22, []);
    case Bool(b) => LeafSpelling(7, if b then 21 else 20, []);
    case Int(n) => LeafSpelling(if n >= 0 then 0 else 1, if n >= 0 then n else -1 - n, []);
    case ByteString(s) => LeafSpelling(2, |s|, s);
    case TextString(s) => LeafSpelling(3, |s|, s);
    case _ =>
  }

  lemma EntryTallySplits(m: map<Value, Value>, k: Value)
    requires k in m
    ensures EntryTally(m, k).0 == ValueTally(k).0 + ValueTally(m[k]).0
    ensures EntryTally(m, k).1 == ValueTally(k).1 + ValueTally(m[k]).1
    ensures EntryTally(m, k).2 == ValueTally(m[k]).2
  {
  }

  lemma PreflightedTally(v: Value, l: Limits, depth: nat, count: nat, ok: bool, size: nat, counted: nat)
    requires Preflighted(v, l, depth, count, ok, size, counted)
    ensures ok <==> Fits(v, TextRules(l), depth, false, LEAST_SAFE) && count + ValueTally(v).1 <= l.maximumItems
    ensures ok ==> size == Low64(ValueTally(v).0) && counted == count + ValueTally(v).1
  {
  }

  /** What it takes for an array to pass the preflight, told by its elements. */
  lemma ArrayPasses(xs: seq<Value>, l: Limits, depth: nat)
    requires |xs| <= l.maximumArrayLength && depth <= l.maximumDepth
    ensures Fits(Array(xs), TextRules(l), depth, false, LEAST_SAFE) <==>
            forall x | x in xs :: Fits(x, TextRules(l), depth + 1, false, LEAST_SAFE)
    ensures Nodes(Wire(Array(xs))) == 1 + RunTally(xs).1
    ensures |Enc(Array(xs))| == ArgumentSize(|xs|) + RunTally(xs).0
  {
    Admission.ArrayTally(xs);
    assert |Head(4, ShortestWidth(|xs|), |xs|)| == ArgumentSize(|xs|);
  }

  lemma MapPasses(m: map<Value, Value>, l: Limits, depth: nat)
    requires |m| <= l.maximumMapEntries && depth <= l.maximumDepth
    ensures Fits(Map(m), TextRules(l), depth, false, LEAST_SAFE) <==>
            forall k | k in m :: k.TextString? && FitsEntry(m, k, l, depth + 1)
    ensures Nodes(Wire(Map(m))) == 1 + Tally(m, Order(m)).1
    ensures |Enc(Map(m))| == ArgumentSize(|m|) + Tally(m, Order(m)).0
  {
    EntriesPass(m, l, depth);
    hide Fits, FitsEntry, Tally, Order, Wire;
    Admission.MapTally(m);
    assert |Head(5, ShortestWidth(|m|), |m|)| == ArgumentSize(|m|);
  }

  lemma EntriesPass(m: map<Value, Value>, l: Limits, depth: nat)
    requires |m| <= l.maximumMapEntries && depth <= l.maximumDepth
    ensures Fits(Map(m), TextRules(l), depth, false, LEAST_SAFE) <==>
            forall k | k in m :: k.TextString? && FitsEntry(m, k, l, depth + 1)
  {
  }

  // ---------------------------------------------------------------- the check after decoding

  /** What the check after decoding asks of a value at this depth, its item count aside. */
  predicate Checks(v: Value, l: Limits, depth: nat)
    decreases v
  {
    && depth <= l.maximumDepth
    && match v
       case Null => true
       case Bool(_) => true
       case Int(n) => LEAST_SAFE <= n <= MAX_SAFE
       case ByteString(_) => true
       case TextString(_) => true
       case Array(xs) => |xs| <= l.maximumArrayLength && forall x | x in xs :: Checks(x, l, depth + 1)
       case Map(m) =>
         && |m| <= l.maximumMapEntries
         && (forall k | k in m :: k.TextString?)
         && forall k | k in m :: Checks(m[k], l, depth + 1)
       case Tagged(_, _) => false
  }

  ghost predicate Validated(v: Value, l: Limits, depth: nat, count: nat, ok: bool, counted: nat) {
    && (ok <==> Checks(v, l, depth) && count + ValueTally(v).2 <= l.maximumItems)
    && (ok ==> counted == count + ValueTally(v).2)
  }

  /** Unlike the scanner and the preflight, this check neither descends into map keys nor counts them. */
  method ValidateValue(v: Value, l: Limits, depth: nat, count: nat) returns (ok: bool, counted: nat)
    ensures Validated(v, l, depth, count, ok, counted)
    decreases v, 1
  {
    LeafValueTally(v);
    counted := count + 1;
    if counted > l.maximumItems || depth > l.maximumDepth {
      return false, counted;
    }
    match v
    case Null => return true, counted;
    case Bool(_) => return true, counted;
    case TextString(_) => return true, counted;
    case ByteString(_) => return true, counted;
    case Int(n) =>
      if n >= 0 {
        return !(n > 0x7FFF_FFFF_FFFF_FFFF || n > 9007199254740991), counted;
      }
      return n >= -9007199254740991, counted;
    case Array(xs) =>
      if |xs| > l.maximumArrayLength {
        return false, counted;
      }
      ok, counted := ValidateElements(xs, l, depth, counted);
    case Map(m) =>
      if |m| > l.maximumMapEntries {
        return false, counted;
      }
      ok, counted := ValidateEntries(m, l, depth, counted);
    case Tagged(_, _) =>
      return false, counted;
  }

  method ValidateElements(xs: seq<Value>, l: Limits, depth: nat, count: nat) returns (ok: bool, counted: nat)
    requires |xs| <= l.maximumArrayLength && depth <= l.maximumDepth && 1 <= count <= l.maximumItems
    ensures Validated(Array(xs), l, depth, count - 1, ok, counted)
    decreases xs, 0
  {
    hide ValueTally, RunTally, Checks;
    counted := count;
    RunTallyNone();
    for i := 0 to |xs|
      invariant forall x | x in xs[..i] :: Checks(x, l, depth + 1)
      invariant counted == count + RunTally(xs[..i]).2 <= l.maximumItems
    {
      RunTallySnoc(xs, i);
      ok, counted := ValidateValue(xs[i], l, depth + 1, counted);
      if !ok {
        assert xs[i] in xs;
        ElementsPass(xs, l, depth);
        return false, counted;
      }
      assert xs[..i + 1] == xs[..i] + [xs[i]];
    }
    assert xs[..|xs|] == xs;
    ElementsPass(xs, l, depth);
    ok := true;
  }

  method ValidateEntries(m: map<Value, Value>, l: Limits, depth: nat, count: nat) returns (ok: bool, counted: nat)
    requires |m| <= l.maximumMapEntries && depth <= l.maximumDepth && 1 <= count <= l.maximumItems
    ensures Validated(Map(m), l, depth, count - 1, ok, counted)
    decreases Map(m), 0
  {
    hide ValueTally, Tally, EntryTally, Checks, Order;
    counted := count;
    TallyNone(m);
    var rest := m.Keys;
    ghost var visited: seq<Value> := [];
    while rest != {}
      invariant Lists(visited, m.Keys - rest) && rest <= m.Keys
      invariant forall k | k in visited :: k.TextString? && Checks(m[k], l, depth + 1)
      invariant counted == count + Tally(m, visited).2 <= l.maximumItems
      decreases |rest|
    {
      var k :| k in rest;
      if !k.TextString? {
        ValuesPass(m, l, depth);
        return false, counted;
      }
      TallySnoc(m, visited, k);
      EntryTallySplits(m, k);
      ok, counted := ValidateValue(m[k], l, depth + 1, counted);
      if !ok {
        ValuesPass(m, l, depth);
        return false, counted;
      }
      visited := visited + [k];
      rest := rest - {k};
    }
    assert m.Keys - rest == m.Keys;
    ListsLength(visited, m.Keys);
    TallyOrder(m, visited, Order(m));
    ValuesPass(m, l, depth);
    ok := true;
  }

  lemma LeafValueTally(v: Value)
    ensures ValueTally(v).2 >= 1
    ensures !v.Array? && !v.Map? && !v.Tagged? ==> ValueTally(v).2 == 1
  {
    assert ValueNodesAll([]) == 0;
  }

  lemma ElementsPass(xs: seq<Value>, l: Limits, depth: nat)
    requires |xs| <= l.maximumArrayLength && depth <= l.maximumDepth
    ensures Checks(Array(xs), l, depth) <==> forall x | x in xs :: Checks(x, l, depth + 1)
    ensures ValueTally(Array(xs)).2 == 1 + RunTally(xs).2
  {
    hide ValueTally, RunTally;
    Admission.ArrayTally(xs);
  }

  lemma ValuesPass(m: map<Value, Value>, l: Limits, depth: nat)
    requires |m| <= l.maximumMapEntries && depth <= l.maximumDepth
    ensures Checks(Map(m), l, depth) <==> forall k | k in m :: k.TextString? && Checks(m[k], l, depth + 1)
    ensures ValueTally(Map(m)).2 == 1 + Tally(m, Order(m)).2
  {
    hide ValueTally, Tally, Order;
    Admission.MapTally(m);
  }

  /** The check and the scan agree on everything but the one integer below the codec's range. */
  lemma {:induction false} ChecksOfScanned(v: Value, l: Limits, depth: nat)
    requires Fits(v, TextRules(l), depth, false, LEAST_SCANNED)
    ensures Checks(v, l, depth) <==> Fits(v, TextRules(l), depth, false, LEAST_SAFE)
    ensures Checks(v, l, depth) <==> !Holds(v, LEAST_SCANNED)
    decreases v
  {
    hide Fits, Checks, Holds;
    match v
    case Array(xs) =>
      ArrayParts(xs, l, depth);
      forall x | x in xs
        ensures Checks(x, l, depth + 1) <==> Fits(x, TextRules(l), depth + 1, false, LEAST_SAFE)
        ensures Checks(x, l, depth + 1) <==> !Holds(x, LEAST_SCANNED)
      {
        ChecksOfScanned(x, l, depth + 1);
      }
    case Map(m) =>
      MapFits(m, l, depth);
      MapChecks(m, l, depth);
      forall k | k in m
        ensures Fits(k, TextRules(l), depth + 1, false, LEAST_SAFE) && !Holds(k, LEAST_SCANNED)
        ensures Checks(m[k], l, depth + 1) <==> Fits(m[k], TextRules(l), depth + 1, false, LEAST_SAFE)
        ensures Checks(m[k], l, depth + 1) <==> !Holds(m[k], LEAST_SCANNED)
      {
        TextIsSafe(k, l, depth + 1);
        ChecksOfScanned(m[k], l, depth + 1);
      }
    case _ =>
      LeafChecks(v, l, depth);
  }

  lemma LeafChecks(v: Value, l: Limits, depth: nat)
    requires !v.Array? && !v.Map? && Fits(v, TextRules(l), depth, false, LEAST_SCANNED)
    ensures Checks(v, l, depth) <==> Fits(v, TextRules(l), depth, false, LEAST_SAFE)
    ensures Checks(v, l, depth) <==> !Holds(v, LEAST_SCANNED)
  {
  }

  lemma ArrayParts(xs: seq<Value>, l: Limits, depth: nat)
    requires Fits(Array(xs), TextRules(l), depth, false, LEAST_SCANNED)
    ensures forall x | x in xs :: Fits(x, TextRules(l), depth + 1, false, LEAST_SCANNED)
    ensures Checks(Array(xs), l, depth) <==> forall x | x in xs :: Checks(x, l, depth + 1)
    ensures Fits(Array(xs), TextRules(l), depth, false, LEAST_SAFE) <==>
              forall x | x in xs :: Fits(x, TextRules(l), depth + 1, false, LEAST_SAFE)
    ensures Holds(Array(xs), LEAST_SCANNED) <==> exists x | x in xs :: Holds(x, LEAST_SCANNED)
  {
  }

  lemma MapFits(m: map<Value, Value>, l: Limits, depth: nat)
    requires Fits(Map(m), TextRules(l), depth, false, LEAST_SCANNED)
    ensures |m| <= l.maximumMapEntries && depth <= l.maximumDepth && forall k | k in m :: k.TextString?
    ensures forall k | k in m :: Fits(k, TextRules(l), depth + 1, false, LEAST_SCANNED) && Fits(m[k], TextRules(l), depth + 1, false, LEAST_SCANNED)
    ensures Fits(Map(m), TextRules(l), depth, false, LEAST_SAFE) <==>
              forall k | k in m :: Fits(k, TextRules(l), depth + 1, false, LEAST_SAFE) && Fits(m[k], TextRules(l), depth + 1, false, LEAST_SAFE)
  {
  }

  lemma MapChecks(m: map<Value, Value>, l: Limits, depth: nat)
    requires |m| <= l.maximumMapEntries && depth <= l.maximumDepth && forall k | k in m :: k.TextString?
    ensures Checks(Map(m), l, depth) <==> forall k | k in m :: Checks(m[k], l, depth + 1)
    ensures Holds(Map(m), LEAST_SCANNED) <==> exists k | k in m :: Holds(k, LEAST_SCANNED) || Holds(m[k], LEAST_SCANNED)
  {
  }

  lemma TextIsSafe(k: Value, l: Limits, depth: nat)
    requires k.TextString? && Fits(k, TextRules(l), depth, false, LEAST_SCANNED)
    ensures Fits(k, TextRules(l), depth, false, LEAST_SAFE) && !Holds(k, LEAST_SCANNED)
  {
  }

  /** This integer occurs somewhere in the value. */
  predicate Holds(v: Value, n: int)
    decreases v
  {
    match v
    case Int(i) => i == n
    case Array(xs) => exists x | x in xs :: Holds(x, n)
    case Map(m) => exists k | k in m :: Holds(k, n) || Holds(m[k], n)
    case Tagged(_, x) => Holds(x, n)
    case _ => false
  }
}
