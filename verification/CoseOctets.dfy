/** The signed objects octet by octet, as other implementations of RFC 9052 read and write them. */
module CoseOctets {
  import opened Octets
  import opened Grammar
  import opened KeyOrder
  import opened Values
  import opened Cose

  /** A byte string as it is spelled: its length in the shortest head, and its octets. */
  function SpelledOctets(s: seq<Octet>): seq<Octet> { Head(2, ShortestWidth(|s|), |s|) + s }

  function SpelledText(s: seq<Octet>): seq<Octet> { Head(3, ShortestWidth(|s|), |s|) + s }

  /** The protected header: algorithm -19 under 1, the content type under 3, the key id under 4. */
  function HeaderSpelling(contentType: seq<Octet>, kid: seq<Octet>): seq<Octet> {
    [0xa3] + ([1] + [0x32]) + ([3] + SpelledText(contentType)) + ([4] + SpelledOctets(kid))
  }

  /** What is signed: four elements, the context "Signature1", the header, no external data, the payload. */
  function StructureSpelling(protected: seq<Octet>, payload: seq<Octet>): seq<Octet> {
    [0x84] + ([0x6a] + Ascii("Signature1")) + SpelledOctets(protected) + [0x40] + SpelledOctets(payload)
  }

  /** A signed object: tag 18, four elements, the header, an empty unprotected header, the payload, the signature. */
  function ObjectSpelling(protected: seq<Octet>, payload: seq<Octet>, signature: seq<Octet>): seq<Octet> {
    [0xd2] + ([0x84] + SpelledOctets(protected) + [0xa0] + SpelledOctets(payload) + ([0x58, 0x40] + signature))
  }

  // ---------------------------------------------------------------- sequences

  lemma FourParts<T>(h: T, a: seq<T>, b: seq<T>, c: seq<T>, d: seq<T>)
    ensures [h] + [] + (a + (b + (c + (d + [])))) == [h] + a + b + c + d
  {
  }

  lemma SixParts<T>(h: T, a: seq<T>, b: seq<T>, c: seq<T>, d: seq<T>, e: seq<T>, f: seq<T>)
    ensures [h] + [] + (a + b + (c + d + (e + f + []))) == [h] + (a + b) + (c + d) + (e + f)
  {
  }

  // ---------------------------------------------------------------- leaves

  lemma StringEnc(s: seq<Octet>)
    ensures Enc(ByteString(s)) == SpelledOctets(s) && Enc(TextString(s)) == SpelledText(s)
  {
    LeafSpelling(2, |s|, s);
    LeafSpelling(3, |s|, s);
    hide Bytes, Head, ShortestWidth;
  }

  lemma SmallEnc(n: int)
    requires -24 <= n < 24
    ensures Enc(Int(n)) == [if n >= 0 then n else 0x20 + (-1 - n)]
  {
    var major, arg := if n >= 0 then 0 else 1, if n >= 0 then n else -1 - n;
    assert Wire(Int(n)) == Leaf(major, arg, []);
    hide Wire, Bytes;
    LeafSpelling(major, arg, []);
    assert Head(major, 0, arg) == [InitialOctet(major, arg)];
    assert [InitialOctet(major, arg)] + [] == [InitialOctet(major, arg)];
  }

  // ---------------------------------------------------------------- arrays of four

  lemma FourOctets(a: Item, b: Item, c: Item, d: Item)
    ensures BytesAll([a, b, c, d]) == Bytes(a) + (Bytes(b) + (Bytes(c) + (Bytes(d) + [])))
  {
    hide Bytes, BytesAll, NodesAll, Nodes;
    AllNone();
    AllCons([d]);
    AllCons([c, d]);
    AllCons([b, c, d]);
    AllCons([a, b, c, d]);
    assert [d][1..] == [] && [c, d][1..] == [d] && [b, c, d][1..] == [c, d] && [a, b, c, d][1..] == [b, c, d];
  }

  lemma FourItems(a: Value, b: Value, c: Value, d: Value)
    ensures Wire(Array([a, b, c, d])) == Item(4, 0, 4, [], [Wire(a), Wire(b), Wire(c), Wire(d)])
  {
    var kids := WireAll([a, b, c, d]);
    assert kids == [kids[0], kids[1], kids[2], kids[3]];
    assert [a, b, c, d][0] == a && [a, b, c, d][1] == b && [a, b, c, d][2] == c && [a, b, c, d][3] == d;
    assert Wire(Array([a, b, c, d])) == Item(4, ShortestWidth(4), 4, [], kids);
    hide Wire;
  }

  lemma ArrayEnc(a: Value, b: Value, c: Value, d: Value)
    ensures Enc(Array([a, b, c, d])) == [0x84] + Enc(a) + Enc(b) + Enc(c) + Enc(d)
  {
    var kids := [Wire(a), Wire(b), Wire(c), Wire(d)];
    FourItems(a, b, c, d);
    assert Bytes(Item(4, 0, 4, [], kids)) == Head(4, 0, 4) + [] + BytesAll(kids);
    assert Head(4, 0, 4) == [0x84];
    hide Wire, Bytes, BytesAll;
    FourOctets(kids[0], kids[1], kids[2], kids[3]);
    FourParts(0x84 as Octet, Bytes(kids[0]), Bytes(kids[1]), Bytes(kids[2]), Bytes(kids[3]));
  }

  // ---------------------------------------------------------------- what is signed

  lemma ToBeSignedOctets(protected: seq<Octet>, payload: seq<Octet>)
    ensures Enc(ToBeSigned(protected, payload)) == StructureSpelling(protected, payload)
  {
    var text := Ascii("Signature1");
    StringEnc(text);
    StringEnc(protected);
    StringEnc([]);
    StringEnc(payload);
    assert SpelledText(text) == [0x6a] + text && SpelledOctets([]) == [0x40];
    hide Enc, SpelledOctets, SpelledText;
    ArrayEnc(TextString(text), ByteString(protected), ByteString([]), ByteString(payload));
  }

  // ---------------------------------------------------------------- the signed object

  lemma Sign1Octets(protected: seq<Octet>, payload: seq<Octet>, signature: seq<Octet>)
    requires |signature| == 64
    ensures Enc(Sign1(protected, payload, signature)) == ObjectSpelling(protected, payload, signature)
  {
    Sign1Wire(protected, payload, signature);
    StringEnc(protected);
    StringEnc(payload);
    StringEnc(signature);
    SixtyFour();
    EmptyMapEnc();
    hide Wire, Bytes, Nodes, Sign1, Head, ShortestWidth;
    ArrayEnc(ByteString(protected), Map(map[]), ByteString(payload), ByteString(signature));
  }

  lemma SixtyFour()
    ensures Head(2, ShortestWidth(64), 64) == [0x58, 0x40]
  {
    assert BigEndian(64, 1) == [64];
  }

  lemma EmptyMapEnc()
    ensures Enc(Map(map[])) == [0xa0]
  {
    var empty: map<Value, Value> := map[];
    assert Order(empty) == [];
    assert Wire(Map(empty)) == Item(5, 0, 0, [], Pairs(empty, []));
    assert Pairs(empty, []) == [];
    hide Wire, Order, Pairs;
    AllNone();
    assert Head(5, 0, 0) == [0xa0];
  }

  // ---------------------------------------------------------------- the protected header

  lemma PairOctets(m: map<Value, Value>, ks: seq<Value>)
    requires ks != [] && forall k | k in ks :: k in m
    ensures BytesAll(Pairs(m, ks)) == Enc(ks[0]) + Enc(m[ks[0]]) + BytesAll(Pairs(m, ks[1..]))
  {
    var rest := Pairs(m, ks[1..]);
    var items := [Wire(ks[0]), Wire(m[ks[0]])];
    assert Pairs(m, ks) == items + rest;
    hide Wire, Pairs, Bytes, BytesAll, NodesAll, Nodes;
    AllAppend(items, rest);
    TwoOctets(items[0], items[1]);
  }

  lemma TwoOctets(a: Item, b: Item)
    ensures BytesAll([a, b]) == Bytes(a) + Bytes(b)
  {
    hide Bytes, BytesAll, NodesAll, Nodes;
    AllNone();
    AllCons([b]);
    AllCons([a, b]);
    assert [b][1..] == [] && [a, b][1..] == [b] && Bytes(b) + [] == Bytes(b);
  }

  lemma NoPairs(m: map<Value, Value>)
    ensures BytesAll(Pairs(m, [])) == []
  {
    assert Pairs(m, []) == [];
    AllNone();
  }

  lemma SixOctets(m: map<Value, Value>, a: Value, b: Value, c: Value)
    requires a in m && b in m && c in m
    ensures BytesAll(Pairs(m, [a, b, c])) ==
            Enc(a) + Enc(m[a]) + (Enc(b) + Enc(m[b]) + (Enc(c) + Enc(m[c]) + []))
  {
    hide Wire, Bytes, BytesAll, Pairs, Enc;
    assert [a, b, c][1..] == [b, c] && [b, c][1..] == [c] && [c][1..] == [];
    PairOctets(m, [a, b, c]);
    PairOctets(m, [b, c]);
    PairOctets(m, [c]);
    NoPairs(m);
  }

  /** Three keys whose encodings ascend are listed in that order. */
  lemma ThreeInOrder(m: map<Value, Value>, a: Value, b: Value, c: Value)
    requires m.Keys == {a, b, c} && |m| == 3
    requires LengthFirst(Enc(a), Enc(b)) && LengthFirst(Enc(b), Enc(c)) && LengthFirst(Enc(a), Enc(c))
    ensures Order(m) == [a, b, c]
  {
    var rank := map k | k in m :: Bytes(Wire(k));
    assert Order(m) == Sorted(rank, m.Keys);
    assert rank[a] == Enc(a) && rank[b] == Enc(b) && rank[c] == Enc(c);
    hide Wire, Bytes, Order, Enc, LengthFirst, Sorted;
    ThreeSorted(rank, Order(m), a, b, c);
  }

  lemma ThreeSorted<K>(rank: map<K, seq<Octet>>, ks: seq<K>, a: K, b: K, c: K)
    requires |ks| == 3 && Lists(ks, {a, b, c}) && a in rank && b in rank && c in rank
    requires Ascending(rank, ks)
    requires LengthFirst(rank[a], rank[b]) && LengthFirst(rank[b], rank[c]) && LengthFirst(rank[a], rank[c])
    ensures ks == [a, b, c]
  {
    hide LengthFirst;
    var x, y, z := ks[0], ks[1], ks[2];
    assert x in ks && y in ks && z in ks;
    NotBehind(rank, ks, 0, 1);
    NotBehind(rank, ks, 0, 2);
    NotBehind(rank, ks, 1, 2);
    assert x != y && x != z && y != z by { assert ks[0] != ks[1] && ks[0] != ks[2] && ks[1] != ks[2]; }
    hide Lists, Ascending;
    assert x == a && y == b && z == c;
  }

  lemma NotBehind<K>(rank: map<K, seq<Octet>>, ks: seq<K>, i: nat, j: nat)
    requires i < j < |ks| && (forall k | k in ks :: k in rank) && Ascending(rank, ks)
    ensures !LengthFirst(rank[ks[j]], rank[ks[i]])
  {
  }

  lemma ThreeEntries(m: map<Value, Value>, a: Value, b: Value, c: Value)
    requires Order(m) == [a, b, c] && |m| == 3
    ensures a in m && b in m && c in m
    ensures Wire(Map(m)) == Item(5, 0, 3, [], Pairs(m, [a, b, c]))
  {
    var ks := Order(m);
    assert ks[0] in ks && ks[1] in ks && ks[2] in ks;
    assert Wire(Map(m)) == Item(5, ShortestWidth(3), 3, [], Pairs(m, ks));
    hide Wire, Order, Pairs;
  }

  lemma MapOfThreeEnc(m: map<Value, Value>, a: Value, b: Value, c: Value)
    requires Order(m) == [a, b, c] && |m| == 3
    ensures a in m && b in m && c in m
    ensures Enc(Map(m)) == [0xa3] + (Enc(a) + Enc(m[a])) + (Enc(b) + Enc(m[b])) + (Enc(c) + Enc(m[c]))
  {
    ThreeEntries(m, a, b, c);
    var kids := Pairs(m, [a, b, c]);
    assert Bytes(Item(5, 0, 3, [], kids)) == Head(5, 0, 3) + [] + BytesAll(kids);
    assert Head(5, 0, 3) == [0xa3];
    SixOctets(m, a, b, c);
    assert Enc(Map(m)) == [0xa3] + [] + BytesAll(kids) by { hide Wire, Pairs, Order, BytesAll; }
    hide Wire, Bytes, BytesAll, Pairs, Order, Enc;
    SixParts(0xa3 as Octet, Enc(a), Enc(m[a]), Enc(b), Enc(m[b]), Enc(c), Enc(m[c]));
  }

  lemma HeaderOctets(contentType: seq<Octet>, kid: seq<Octet>)
    ensures Enc(Map(Header(contentType, kid))) == HeaderSpelling(contentType, kid)
  {
    var h := Header(contentType, kid);
    HeaderEntries(contentType, kid);
    assert h[Int(1)] == Int(-19) && h[Int(3)] == TextString(contentType) && h[Int(4)] == ByteString(kid);
    hide Header, Enc, SpelledText, SpelledOctets, Order;
    SmallEnc(1);
    SmallEnc(3);
    SmallEnc(4);
    SmallEnc(-19);
    StringEnc(contentType);
    StringEnc(kid);
    LabelsAscend();
    ThreeInOrder(h, Int(1), Int(3), Int(4));
    MapOfThreeEnc(h, Int(1), Int(3), Int(4));
  }

  lemma LabelsAscend()
    ensures LengthFirst([1], [3]) && LengthFirst([3], [4]) && LengthFirst([1], [4])
  {
  }
}
