/**
 * Decoded values and their one deterministic encoding, sections 4.2.1 and 4.2.3 of RFC 8949:
 * every head is as short as it can be and the entries of a map are in length-first key order.
 * A map is a mathematical map, so two values are equal exactly when they hold the same data.
 */
module Values {
  import opened Octets
  import opened Options
  import opened Grammar
  import opened KeyOrder

  datatype Value =
    | Null
    | Bool(b: bool)
    | Int(n: int)
    | ByteString(octets: seq<Octet>)
    | TextString(octets: seq<Octet>)
    | Array(elements: seq<Value>)
    | Map(entries: map<Value, Value>)
    | Tagged(number: nat, inner: Value)

  // ---------------------------------------------------------------- the canonical tree

  function Leaf(major: nat, arg: nat, content: seq<Octet>): Item {
    Item(major, ShortestWidth(arg), arg, content, [])
  }

  lemma LeafSpelling(major: nat, arg: nat, content: seq<Octet>)
    ensures Bytes(Leaf(major, arg, content)) == Head(major, ShortestWidth(arg), arg) + content
    ensures Nodes(Leaf(major, arg, content)) == 1
  {
    assert BytesAll([]) == [];
  }

  /** The canonical tree of a value. */
  ghost function Wire(v: Value): Item
    decreases v, 1, 0
  {
    match v
    case Null => Leaf(7, 22, [])
    case Bool(b) => Leaf(7, if b then 21 else 20, [])
    case Int(n) => if n >= 0 then Leaf(0, n, []) else Leaf(1, -1 - n, [])
    case ByteString(s) => Leaf(2, |s|, s)
    case TextString(s) => Leaf(3, |s|, s)
    case Array(xs) => Item(4, ShortestWidth(|xs|), |xs|, [], WireAll(xs))
    case Map(m) => Item(5, ShortestWidth(|m|), |m|, [], Pairs(m, Order(m)))
    case Tagged(n, x) => Item(6, ShortestWidth(n), n, [], [Wire(x)])
  }

  ghost function WireAll(xs: seq<Value>): (kids: seq<Item>)
    ensures |kids| == |xs|
    ensures forall i | 0 <= i < |xs| :: kids[i] == Wire(xs[i])
    decreases xs, 0, 0
  {
    if xs == [] then [] else [Wire(xs[0])] + WireAll(xs[1..])
  }

  /** The keys of a map in length-first order of their encodings. */
  ghost function Order(m: map<Value, Value>): (ks: seq<Value>)
    ensures Lists(ks, m.Keys) && |ks| == |m|
    decreases Map(m), 0, 0
  {
    Sorted(map k | k in m :: Bytes(Wire(k)), m.Keys)
  }

  /** The entries of a map for these keys, each key in front of its value. */
  ghost function Pairs(m: map<Value, Value>, ks: seq<Value>): (kids: seq<Item>)
    requires forall k | k in ks :: k in m
    ensures |kids| == 2 * |ks|
    decreases Map(m), 0, |ks|
  {
    if ks == [] then [] else
      assert ks[0] in m && ks[0] < Map(m);
      [Wire(ks[0]), Wire(m[ks[0]])] + Pairs(m, ks[1..])
  }

  /** The deterministic encoding. */
  ghost function Enc(v: Value): seq<Octet> { Bytes(Wire(v)) }

  // ---------------------------------------------------------------- representable values

  /** What Go accepts as a key of map[any]any and the library accepts as a decoded key. */
  predicate Hashable(v: Value) { v.Null? || v.Bool? || v.Int? || v.TextString? }

  /** Every number and length has a 64-bit argument, and every key is hashable. */
  predicate Plain(v: Value)
    decreases v
  {
    match v
    case Null => true
    case Bool(_) => true
    case Int(n) => -0x1_0000_0000_0000_0000 <= n < 0x1_0000_0000_0000_0000
    case ByteString(s) => |s| < 0x1_0000_0000_0000_0000
    case TextString(s) => |s| < 0x1_0000_0000_0000_0000
    case Array(xs) => |xs| < 0x1_0000_0000_0000_0000 && forall x | x in xs :: Plain(x)
    case Map(m) => |m| < 0x1_0000_0000_0000_0000 && forall k | k in m :: Hashable(k) && Plain(k) && Plain(m[k])
    case Tagged(n, x) => n < 0x1_0000_0000_0000_0000 && Plain(x)
  }

  lemma {:induction false} WireIsWellFormed(v: Value)
    requires Plain(v)
    ensures WellFormed(Wire(v))
    decreases v
  {
    match v
    case Array(xs) =>
      forall kid | kid in WireAll(xs)
        ensures WellFormed(kid)
      {
        var i :| 0 <= i < |xs| && WireAll(xs)[i] == kid;
        WireIsWellFormed(xs[i]);
      }
    case Map(m) =>
      PairsAreWellFormed(m, Order(m));
    case Tagged(n, x) =>
      WireIsWellFormed(x);
    case _ =>
  }

  lemma {:induction false} PairsAreWellFormed(m: map<Value, Value>, ks: seq<Value>)
    requires Plain(Map(m))
    requires forall k | k in ks :: k in m
    ensures forall kid | kid in Pairs(m, ks) :: WellFormed(kid)
    decreases Map(m), 0, |ks|
  {
    if ks != [] {
      assert ks[0] in m && ks[0] < Map(m);
      WireIsWellFormed(ks[0]);
      WireIsWellFormed(m[ks[0]]);
      PairsAreWellFormed(m, ks[1..]);
    }
  }

  // ---------------------------------------------------------------- reading a tree

  /** The obvious value of an item; duplicate keys and unhashable keys are refused. */
  function Unmarshal(it: Item): Option<Value>
    decreases it
  {
    if it.major == 0 then Some(Int(it.arg))
    else if it.major == 1 then Some(Int(-1 - it.arg))
    else if it.major == 2 then Some(ByteString(it.content))
    else if it.major == 3 then Some(TextString(it.content))
    else if it.major == 7 then
      if it.arg == 20 then Some(Bool(false)) else if it.arg == 21 then Some(Bool(true)) else Some(Null)
    else
      match UnmarshalAll(it.kids)
      case None => None
      case Some(vs) =>
        if it.major == 4 then Some(Array(vs))
        else if it.major == 5 then
          match Entries(vs)
          case None => None
          case Some(m) => Some(Map(m))
        else if |vs| == 1 then Some(Tagged(it.arg, vs[0]))
        else None
  }

  function UnmarshalAll(kids: seq<Item>): (r: Option<seq<Value>>)
    ensures r.Some? ==> |r.value| == |kids|
    decreases kids
  {
    if kids == [] then Some([]) else
      match Unmarshal(kids[0])
      case None => None
      case Some(v) =>
        match UnmarshalAll(kids[1..])
        case None => None
        case Some(vs) => Some([v] + vs)
  }

  lemma {:induction false} UnmarshalAt(kids: seq<Item>, i: nat)
    requires UnmarshalAll(kids).Some? && i < |kids|
    ensures Unmarshal(kids[i]) == Some(UnmarshalAll(kids).value[i])
    decreases kids
  {
    if i > 0 {
      UnmarshalAt(kids[1..], i - 1);
    }
  }

  /** Keys and values in turn, as a map. */
  function Entries(vs: seq<Value>): Option<map<Value, Value>>
    decreases |vs|
  {
    if |vs| < 2 then Some(map[]) else
      match Entries(vs[2..])
      case None => None
      case Some(m) => if Hashable(vs[0]) && vs[0] !in m then Some(m[vs[0] := vs[1]]) else None
  }

  /** The keys and values in turn that the entries of a map spell for these keys. */
  function Flat(m: map<Value, Value>, ks: seq<Value>): seq<Value>
    requires forall k | k in ks :: k in m
    decreases ks
  {
    if ks == [] then [] else [ks[0], m[ks[0]]] + Flat(m, ks[1..])
  }

  /** The keys of a run of keys and values in turn. */
  function KeysOf(vs: seq<Value>): seq<Value>
    decreases |vs|
  {
    if |vs| < 2 then [] else [vs[0]] + KeysOf(vs[2..])
  }

  function Restrict(m: map<Value, Value>, ks: seq<Value>): map<Value, Value>
    requires forall k | k in ks :: k in m
  {
    map k | k in ks :: m[k]
  }

  lemma {:induction false} EntriesOfFlat(m: map<Value, Value>, ks: seq<Value>)
    requires forall k | k in ks :: k in m && Hashable(k)
    requires Distinct(ks)
    ensures Entries(Flat(m, ks)) == Some(Restrict(m, ks))
    decreases ks
  {
    if ks != [] {
      EntriesOfFlat(m, ks[1..]);
      assert Flat(m, ks)[2..] == Flat(m, ks[1..]);
      assert ks == [ks[0]] + ks[1..];
      assert Restrict(m, ks[1..])[ks[0] := m[ks[0]]] == Restrict(m, ks);
    }
  }

  /** A run that makes a map is the flattening of that map along the run's own keys. */
  lemma {:induction false} FlatOfEntries(vs: seq<Value>)
    requires |vs| % 2 == 0 && Entries(vs).Some?
    ensures var m := Entries(vs).value; Lists(KeysOf(vs), m.Keys) && Flat(m, KeysOf(vs)) == vs
    ensures forall k | k in KeysOf(vs) :: Hashable(k)
    decreases |vs|
  {
    if vs != [] {
      hide Entries, KeysOf, Lists, Flat, Hashable;
      var tail := vs[2..];
      FirstEntry(vs);
      FlatOfEntries(tail);
      OneEntryMore(vs[0], vs[1], Entries(tail).value, KeysOf(tail));
      assert vs == [vs[0], vs[1]] + tail;
    }
  }

  lemma FirstEntry(vs: seq<Value>)
    requires |vs| >= 2 && Entries(vs).Some?
    ensures Entries(vs[2..]).Some? && Hashable(vs[0]) && vs[0] !in Entries(vs[2..]).value
    ensures Entries(vs) == Some(Entries(vs[2..]).value[vs[0] := vs[1]])
    ensures KeysOf(vs) == [vs[0]] + KeysOf(vs[2..])
  {
    hide Hashable;
  }

  lemma OneEntryMore(k: Value, v: Value, m: map<Value, Value>, ks: seq<Value>)
    requires Lists(ks, m.Keys) && k !in m
    ensures Lists([k] + ks, m[k := v].Keys)
    ensures Flat(m[k := v], [k] + ks) == [k, v] + Flat(m, ks)
  {
    FlatFrame(m[k := v], m, ks);
    assert ([k] + ks)[1..] == ks;
  }

  lemma {:induction false} FlatFrame(m: map<Value, Value>, n: map<Value, Value>, ks: seq<Value>)
    requires forall k | k in ks :: k in m && k in n && m[k] == n[k]
    ensures Flat(m, ks) == Flat(n, ks)
    decreases ks
  {
    if ks != [] {
      FlatFrame(m, n, ks[1..]);
    }
  }

  /** Encoding a value and reading the tree gives the value back. */
  lemma {:induction false} UnmarshalOfWire(v: Value)
    requires Plain(v)
    ensures Unmarshal(Wire(v)) == Some(v)
    decreases v, 1, 0
  {
    hide Order, Flat, Entries, WireAll, Pairs, UnmarshalAll;
    match v
    case Array(xs) =>
      UnmarshalOfWireAll(xs);
    case Map(m) =>
      UnmarshalOfPairs(m, Order(m));
      OrderFlattens(m);
    case Tagged(n, x) =>
      UnmarshalOfWire(x);
      UnmarshalOfOne(Wire(x));
    case _ =>
  }

  lemma OrderFlattens(m: map<Value, Value>)
    requires forall k | k in m :: Hashable(k)
    ensures Entries(Flat(m, Order(m))) == Some(m)
  {
    ListingFlattens(m, Order(m));
  }

  lemma ListingFlattens(m: map<Value, Value>, ks: seq<Value>)
    requires Lists(ks, m.Keys) && forall k | k in m :: Hashable(k)
    ensures Entries(Flat(m, ks)) == Some(m)
  {
    EntriesOfFlat(m, ks);
    assert Restrict(m, ks).Keys == m.Keys;
    assert Restrict(m, ks) == m;
  }

  lemma UnmarshalOfOne(kid: Item)
    ensures UnmarshalAll([kid]) == match Unmarshal(kid) case None => None case Some(x) => Some([x])
  {
    assert [kid][1..] == [] && UnmarshalAll([]) == Some([]);
    match Unmarshal(kid)
    case None =>
    case Some(x) => assert [x] + [] == [x];
  }

  lemma {:induction false} UnmarshalOfWireAll(xs: seq<Value>)
    requires forall x | x in xs :: Plain(x)
    ensures UnmarshalAll(WireAll(xs)) == Some(xs)
    decreases xs, 0, 0
  {
    if xs != [] {
      hide Unmarshal, Wire;
      UnmarshalOfWire(xs[0]);
      UnmarshalOfWireAll(xs[1..]);
      assert WireAll(xs)[1..] == WireAll(xs[1..]);
      assert [xs[0]] + xs[1..] == xs;
    }
  }

  lemma {:induction false} UnmarshalOfPairs(m: map<Value, Value>, ks: seq<Value>)
    requires Plain(Map(m)) && forall k | k in ks :: k in m
    ensures UnmarshalAll(Pairs(m, ks)) == Some(Flat(m, ks))
    decreases Map(m), 0, |ks|
  {
    if ks != [] {
      hide Unmarshal, UnmarshalAll, Wire;
      assert ks[0] in m && ks[0] < Map(m);
      UnmarshalOfWire(ks[0]);
      UnmarshalOfWire(m[ks[0]]);
      UnmarshalOfPairs(m, ks[1..]);
      UnmarshalOneMore(Wire(m[ks[0]]), Pairs(m, ks[1..]));
      UnmarshalOneMore(Wire(ks[0]), [Wire(m[ks[0]])] + Pairs(m, ks[1..]));
      Associative([Wire(ks[0])], [Wire(m[ks[0]])], Pairs(m, ks[1..]));
      Associative([ks[0]], [m[ks[0]]], Flat(m, ks[1..]));
      assert [Wire(ks[0])] + [Wire(m[ks[0]])] == [Wire(ks[0]), Wire(m[ks[0]])] && [ks[0]] + [m[ks[0]]] == [ks[0], m[ks[0]]];
    }
  }

  lemma UnmarshalOneMore(kid: Item, kids: seq<Item>)
    requires Unmarshal(kid).Some? && UnmarshalAll(kids).Some?
    ensures UnmarshalAll([kid] + kids) == Some([Unmarshal(kid).value] + UnmarshalAll(kids).value)
  {
    hide Unmarshal;
    assert ([kid] + kids)[1..] == kids;
  }

  /** No two values share an encoding, and no encoding is a proper prefix of another. */
  lemma EncInjective(v: Value, w: Value, s: seq<Octet>, t: seq<Octet>)
    requires Plain(v) && Plain(w)
    requires Enc(v) + s == Enc(w) + t
    ensures v == w && s == t
  {
    WireIsWellFormed(v);
    WireIsWellFormed(w);
    UniqueReading(Wire(v), Wire(w), s, t);
    UnmarshalOfWire(v);
    UnmarshalOfWire(w);
  }

  /** Whatever a well-formed tree reads as is representable. */
  lemma {:induction false} UnmarshalIsPlain(it: Item)
    requires WellFormed(it) && Unmarshal(it).Some?
    ensures Plain(Unmarshal(it).value)
    decreases it
  {
    Pow256Widths();
    if 4 <= it.major <= 6 {
      var vs := UnmarshalAll(it.kids).value;
      forall x | x in vs
        ensures Plain(x)
      {
        var i :| 0 <= i < |vs| && vs[i] == x;
        UnmarshalAt(it.kids, i);
        UnmarshalIsPlain(it.kids[i]);
      }
      if it.major == 5 {
        EntriesSize(vs);
      }
    }
  }

  lemma {:induction false} EntriesSize(vs: seq<Value>)
    requires Entries(vs).Some?
    ensures |Entries(vs).value| == |vs| / 2
    ensures forall k | k in Entries(vs).value :: k in vs && Entries(vs).value[k] in vs && Hashable(k)
    decreases |vs|
  {
    if |vs| >= 2 {
      EntriesSize(vs[2..]);
    }
  }
}
