/**
 * The two entry points of the deterministic codec and what they are for: encoding and decoding
 * are inverse to each other, and exactly the admissible values have an encoding.
 */
module Deterministic {
  import opened Octets
  import opened Options
  import opened Grammar
  import opened KeyOrder
  import opened Values
  import opened Admission
  import opened Scanning
  import opened Codec

  /** The value has an encoding under these limits. */
  ghost predicate Admissible(v: Value, l: Limits) {
    && ValidLimits(l)
    && Fits(v, TextRules(l), 0, false, LEAST_SAFE)
    && Nodes(Wire(v)) <= l.maximumItems
    && |Enc(v)| <= l.maximumBytes
  }

  method EncodeDeterministicWithLimits(v: Value, l: Limits, lib: Library) returns (r: Option<seq<Octet>>)
    requires lib.Lawful()
    ensures r.Some? <==> Admissible(v, l)
    ensures r.Some? ==> r.value == Enc(v)
  {
    if !ValidLimits(l) {
      return None;
    }
    var ok, size, count := PreflightValue(v, l, 0, 0);
    if !ok {
      return None;
    }
    FitsIsPlain(v, TextRules(l), 0, false, LEAST_SAFE);
    Low64Small(|Enc(v)|);
    if size > l.maximumBytes {
      return None;
    }
    var b := lib.marshal(v);
    if |b| > l.maximumBytes {
      return None;
    }
    return Some(b);
  }

  method DecodeDeterministicWithLimits(data: seq<Octet>, l: Limits, lib: Library) returns (r: Option<Value>)
    requires lib.Lawful()
    ensures r.Some? ==> Admissible(r.value, l) && data == Enc(r.value)
    ensures forall v | Admissible(v, l) && data == Enc(v) :: r == Some(v)
  {
    hide Admissible, Fits, Checks, Enc, Wire, Scans;
    if !ValidLimits(l) || |data| > l.maximumBytes {
      NothingAdmissible(data, l);
      return None;
    }
    forall v | Admissible(v, l) && data == Enc(v)
      ensures PassesAllGates(data, l, v)
    {
      AdmissiblePasses(data, l, v);
    }
    ghost var it;
    var ok;
    ok, it := ScanCbor(data, TextRules(l));
    if !ok {
      return None;
    }
    LibraryReads(lib, data, TextRules(l), it);
    var decoded := lib.unmarshal(data);
    if decoded.None? {
      forall v | Admissible(v, l) && data == Enc(v)
        ensures false
      {
        SameItem(data, l, it, v);
      }
      return None;
    }
    forall v | Admissible(v, l) && data == Enc(v)
      ensures v == decoded.value
    {
      SameItem(data, l, it, v);
    }
    UnmarshalIsPlain(it);
    var valid, count := ValidateValue(decoded.value, l, 0, 0);
    if !valid {
      return None;
    }
    var reencoded := lib.marshal(decoded.value);
    if data != reencoded {
      return None;
    }
    GatesAdmit(data, l, it, decoded.value);
    return decoded;
  }

  lemma NothingAdmissible(data: seq<Octet>, l: Limits)
    requires !ValidLimits(l) || |data| > l.maximumBytes
    ensures forall v | data == Enc(v) :: !Admissible(v, l)
  {
  }

  /** What the library makes of scanned octets. */
  lemma LibraryReads(lib: Library, data: seq<Octet>, rules: Rules, it: Item)
    requires lib.Lawful() && Scans(data, rules, it)
    ensures WellFormed(it) && Bytes(it) == data
    ensures lib.unmarshalTagged(data) == Unmarshal(it)
    ensures !rules.outerTag18 ==> lib.unmarshal(data) == Unmarshal(it)
  {
    hide Enc, Plain, Unmarshal, Bytes;
  }

  /** What the gates in front of an accepted encoding ask. */
  ghost predicate PassesAllGates(data: seq<Octet>, l: Limits, v: Value) {
    && Scans(data, TextRules(l), Wire(v))
    && Unmarshal(Wire(v)) == Some(v)
    && Plain(v)
    && Checks(v, l, 0) && ValueTally(v).2 <= l.maximumItems
  }

  lemma AdmissiblePasses(data: seq<Octet>, l: Limits, v: Value)
    requires Admissible(v, l) && data == Enc(v)
    ensures PassesAllGates(data, l, v)
  {
    hide Wire, Fits, Checks;
    FitsIsPlain(v, TextRules(l), 0, false, LEAST_SAFE);
    WireIsWellFormed(v);
    UnmarshalOfWire(v);
    FitsWeaken(v, TextRules(l), 0, false);
    FitsAsOuter(v, TextRules(l), 0);
    WireWithin(v, TextRules(l), 0, true);
    ChecksOfScanned(v, l, 0);
    ValueNodesAtMost(Wire(v));
  }

  lemma {:induction false} FitsWeaken(v: Value, rules: Rules, depth: nat, outer: bool)
    requires Fits(v, rules, depth, outer, LEAST_SAFE)
    ensures Fits(v, rules, depth, outer, LEAST_SCANNED)
    decreases v
  {
    match v
    case Array(xs) =>
      forall x | x in xs
        ensures Fits(x, rules, depth + 1, false, LEAST_SCANNED)
      {
        FitsWeaken(x, rules, depth + 1, false);
      }
    case Map(m) =>
      forall k | k in m
        ensures Fits(k, rules, depth + 1, false, LEAST_SCANNED) && Fits(m[k], rules, depth + 1, false, LEAST_SCANNED)
      {
        FitsWeaken(k, rules, depth + 1, false);
        FitsWeaken(m[k], rules, depth + 1, false);
      }
    case Tagged(n, x) => FitsWeaken(x, rules, depth + 1, false);
    case _ =>
  }

  /** Without tags it does not matter whether a value stands outermost. */
  lemma FitsAsOuter(v: Value, rules: Rules, depth: nat)
    requires !rules.outerTag18
    ensures forall least :: Fits(v, rules, depth, true, least) <==> Fits(v, rules, depth, false, least)
  {
  }

  lemma SameItem(data: seq<Octet>, l: Limits, it: Item, v: Value)
    requires WellFormed(it) && Bytes(it) == data
    requires PassesAllGates(data, l, v)
    ensures it == Wire(v) && Unmarshal(it) == Some(v)
  {
    UniquePrefix(it, Wire(v), data);
  }

  lemma GatesAdmit(data: seq<Octet>, l: Limits, it: Item, v: Value)
    requires ValidLimits(l) && |data| <= l.maximumBytes
    requires Scans(data, TextRules(l), it) && Unmarshal(it) == Some(v)
    requires Checks(v, l, 0) && Plain(v) && data == Enc(v)
    ensures Admissible(v, l)
  {
    hide Wire, Fits, Checks;
    WireIsWellFormed(v);
    UniquePrefix(it, Wire(v), data);
    ScannedFits(it, TextRules(l), 0, true);
    FitsAsOuter(v, TextRules(l), 0);
    ChecksOfScanned(v, l, 0);
  }

  // ---------------------------------------------------------------- what the entry points are for

  /** No two admissible values share an encoding, whatever the limits each was admitted under. */
  lemma OneValuePerEncoding(v: Value, l: Limits, w: Value, k: Limits)
    requires Admissible(v, l) && Admissible(w, k) && Enc(v) == Enc(w)
    ensures v == w
  {
    FitsIsPlain(v, TextRules(l), 0, false, LEAST_SAFE);
    FitsIsPlain(w, TextRules(k), 0, false, LEAST_SAFE);
    EncInjective(v, w, [], []);
  }

  /** Raising any limit keeps every admissible value admissible, and its encoding with it. */
  lemma AdmissibleMonotone(v: Value, l: Limits, k: Limits)
    requires Admissible(v, l) && Looser(l, k)
    ensures Admissible(v, k)
  {
    FitsMonotone(v, TextRules(l), TextRules(k), 0, false, LEAST_SAFE);
  }

  /**
   * Once the scan with text keys has passed, the check after decoding rejects exactly the values
   * that hold -2^53: its item, depth, array and map limits can no longer fail.
   */
  lemma CheckAfterScan(data: seq<Octet>, l: Limits, it: Item)
    requires Scans(data, TextRules(l), it) && Unmarshal(it).Some?
    ensures var v := Unmarshal(it).value;
            (Checks(v, l, 0) && ValueTally(v).2 <= l.maximumItems) <==> !Holds(v, LEAST_SCANNED)
  {
    hide Wire, Fits, Checks, Holds;
    var v := Unmarshal(it).value;
    ScannedFits(it, TextRules(l), 0, true);
    FitsAsOuter(v, TextRules(l), 0);
    ChecksOfScanned(v, l, 0);
    ValueNodesAtMost(Wire(v));
    CanonicalNodes(it);
  }

  /** The scanner alone does let -2^53 through, so that rejection is the check's own work. */
  lemma ScannerAdmitsOneTooMany()
    ensures Scans([59, 0, 31, 255, 255, 255, 255, 255, 255], TextRules(DEFAULT_LIMITS), Item(1, 8, MAX_SAFE, [], []))
    ensures Unmarshal(Item(1, 8, MAX_SAFE, [], [])) == Some(Int(LEAST_SCANNED))
  {
    SpelledOut();
    AllNone();
    hide Bytes, Head, Utf8;
  }

  lemma SpelledOut()
    ensures ValidHead(1, 8, MAX_SAFE)
    ensures Bytes(Item(1, 8, MAX_SAFE, [], [])) == [59, 0, 31, 255, 255, 255, 255, 255, 255]
  {
    var s := [0, 31, 255, 255, 255, 255, 255, 255];
    NumberOfEight(0, 31, 255, 255, 255, 255, 255, 255);
    BigEndianOfNumber(s);
    AllNone();
    Pow256Widths();
    hide BigEndian, Number, BytesAll, Pow256;
    assert Head(1, 8, MAX_SAFE) == [59] + s;
    assert [59] + s + [] + [] == [59, 0, 31, 255, 255, 255, 255, 255, 255];
  }

  lemma NumberOfEight(a: Octet, b: Octet, c: Octet, d: Octet, e: Octet, f: Octet, g: Octet, h: Octet)
    ensures Number([a, b, c, d, e, f, g, h]) ==
            0x100_0000_0000_0000 * a + 0x1_0000_0000_0000 * b + 0x100_0000_0000 * c + 0x1_0000_0000 * d
            + 0x100_0000 * e + 0x1_0000 * f + 0x100 * g + h
  {
    assert [a] == [] + [a];
    NumberSnoc([], a);
    NumberSnoc([a], b);
    NumberSnoc([a, b], c);
    NumberSnoc([a, b, c], d);
    NumberSnoc([a, b, c, d], e);
    NumberSnoc([a, b, c, d, e], f);
    NumberSnoc([a, b, c, d, e, f], g);
    NumberSnoc([a, b, c, d, e, f, g], h);
    assert [a] + [b] == [a, b];
    assert [a, b] + [c] == [a, b, c];
    assert [a, b, c] + [d] == [a, b, c, d];
    assert [a, b, c, d] + [e] == [a, b, c, d, e];
    assert [a, b, c, d, e] + [f] == [a, b, c, d, e, f];
    assert [a, b, c, d, e, f] + [g] == [a, b, c, d, e, f, g];
    assert [a, b, c, d, e, f, g] + [h] == [a, b, c, d, e, f, g, h];
  }

  /** Nothing accepted is a proper prefix of something accepted, under any rules. */
  lemma NoProperExtension(data: seq<Octet>, more: seq<Octet>, r: Rules, q: Rules, it: Item, other: Item)
    requires Scans(data, r, it) && Scans(data + more, q, other)
    ensures more == [] && it == other
  {
    assert Bytes(other) + [] == data + more;
    UniqueReading(it, other, more, []);
  }

  /** The scanner counts no more items than there are octets. */
  lemma ItemsAtMostOctets(data: seq<Octet>, rules: Rules, it: Item)
    requires Scans(data, rules, it)
    ensures Nodes(it) <= |data|
  {
    NodesAtMostBytes(it);
  }

  // ---------------------------------------------------------------- no wrap-around

  /** An item costs at most nine octets of head and the longest string the limits allow. */
  lemma {:induction false} SizeBound(it: Item, rules: Rules, depth: nat, outer: bool, longest: nat)
    requires WellFormed(it) && Within(it, rules, depth, outer)
    requires rules.limits.maximumTextBytes <= longest && rules.limits.maximumByteStringLength <= longest
    ensures |Bytes(it)| <= Nodes(it) * (9 + longest)
    decreases it
  {
    SizeBoundAll(it.kids, rules, depth + 1, longest);
    assert (1 + NodesAll(it.kids)) * (9 + longest) == (9 + longest) + NodesAll(it.kids) * (9 + longest);
  }

  lemma {:induction false} SizeBoundAll(kids: seq<Item>, rules: Rules, depth: nat, longest: nat)
    requires forall k | k in kids :: WellFormed(k) && Within(k, rules, depth, false)
    requires rules.limits.maximumTextBytes <= longest && rules.limits.maximumByteStringLength <= longest
    ensures |BytesAll(kids)| <= NodesAll(kids) * (9 + longest)
    decreases kids
  {
    if kids != [] {
      SizeBound(kids[0], rules, depth, false, longest);
      SizeBoundAll(kids[1..], rules, depth, longest);
      assert (Nodes(kids[0]) + NodesAll(kids[1..])) * (9 + longest)
             == Nodes(kids[0]) * (9 + longest) + NodesAll(kids[1..]) * (9 + longest);
    }
  }

  /**
   * Under the default limits the preflight's 64-bit sum never wraps: what it reports is the exact
   * length of the encoding, so the comparison after marshalling can never be the one that fails.
   */
  lemma DefaultSizesAreExact(v: Value, ok: bool, size: nat, counted: nat)
    requires Preflighted(v, DEFAULT_LIMITS, 0, 0, ok, size, counted) && ok
    ensures size == |Enc(v)| && counted == Nodes(Wire(v))
  {
    hide Wire, Fits;
    var rules := TextRules(DEFAULT_LIMITS);
    FitsIsPlain(v, rules, 0, false, LEAST_SAFE);
    WireIsWellFormed(v);
    FitsWeaken(v, rules, 0, false);
    WireWithin(v, rules, 0, false);
    SizeBound(Wire(v), rules, 0, false, 1048576);
    Low64Small(|Enc(v)|);
  }

  // ---------------------------------------------------------------- one order under both rules

  /** On text keys with shortest heads, length-first order and bytewise order are the same order. */
  lemma TextOrdersAgree(a: seq<Octet>, b: seq<Octet>)
    requires |a| < TWO_64 && |b| < TWO_64
    ensures LengthFirst(Enc(TextString(a)), Enc(TextString(b))) <==> LexLess(Enc(TextString(a)), Enc(TextString(b)))
  {
    LeafSpelling(3, |a|, a);
    LeafSpelling(3, |b|, b);
    if |a| < |b| {
      ShorterTextFirst(a, b);
    } else if |b| < |a| {
      ShorterTextFirst(b, a);
      LexTotal(Enc(TextString(a)), Enc(TextString(b)));
    }
  }

  lemma ShorterTextFirst(a: seq<Octet>, b: seq<Octet>)
    requires |a| < |b| < TWO_64
    ensures |Enc(TextString(a))| < |Enc(TextString(b))|
    ensures LexLess(Enc(TextString(a)), Enc(TextString(b)))
  {
    var w, x := ShortestWidth(|a|), ShortestWidth(|b|);
    LeafSpelling(3, |a|, a);
    LeafSpelling(3, |b|, b);
    assert ValidHead(3, x, |b|);
    hide Enc, LexLess, Head, ShortestWidth, Pow256, BigEndian;
    if w == x && w > 0 {
      SameWidthFirst(a, b, w);
    } else {
      NarrowerFirst(a, b);
    }
  }

  /** In heads of one width the smaller length comes first. */
  lemma SameWidthFirst(a: seq<Octet>, b: seq<Octet>, w: nat)
    requires |a| < |b| < Pow256(w) && w > 0
    ensures LexLess(Head(3, w, |a|) + a, Head(3, w, |b|) + b)
  {
    var x, y, first := BigEndian(|a|, w), BigEndian(|b|, w), [InitialOctet(3, AdditionalInformation(w))];
    BigEndianOrder(|a|, |b|, w);
    LexDecidedEarly(x, y, a, b);
    LexAfterFront(first, x + a, y + b);
    hide BigEndian, LexLess, Pow256;
    Associative(first, x, a);
    Associative(first, y, b);
  }

  /** A narrower head has the smaller initial octet. */
  lemma NarrowerFirst(a: seq<Octet>, b: seq<Octet>)
    requires |a| < |b| < TWO_64 && (ShortestWidth(|a|) < ShortestWidth(|b|) || ShortestWidth(|b|) == 0)
    ensures LexLess(Head(3, ShortestWidth(|a|), |a|) + a, Head(3, ShortestWidth(|b|), |b|) + b)
  {
    var h, k := Head(3, ShortestWidth(|a|), |a|), Head(3, ShortestWidth(|b|), |b|);
    InitialOctetsAscend(|a|, |b|);
    hide Head, ShortestWidth;
    LexFirst(h + a, k + b);
  }

  lemma InitialOctetsAscend(m: nat, n: nat)
    requires m < n < TWO_64 && (ShortestWidth(m) < ShortestWidth(n) || ShortestWidth(n) == 0)
    ensures Head(3, ShortestWidth(m), m)[0] < Head(3, ShortestWidth(n), n)[0]
  {
    hide BigEndian, Pow256, ValidHead;
  }

  lemma LexFirst(a: seq<Octet>, b: seq<Octet>)
    requires a != [] && b != [] && a[0] < b[0]
    ensures LexLess(a, b)
  {
  }

  /** A listing of the keys that ascends strictly in bytewise order is the codec's own listing. */
  lemma BytewiseOrderIsOrder(m: map<Value, Value>, ks: seq<Value>)
    requires Plain(Map(m)) && forall k | k in m :: k.TextString?
    requires Lists(ks, m.Keys)
    ensures ks == Order(m) <==> forall i, j | 0 <= i < j < |ks| :: LexLess(Enc(ks[i]), Enc(ks[j]))
  {
    OrderAscends(m);
    if forall i, j | 0 <= i < j < |ks| :: LexLess(Enc(ks[i]), Enc(ks[j])) {
      var less := (x: Value, y: Value) => LexLess(Enc(x), Enc(y));
      forall x, y | less(x, y)
        ensures !less(y, x)
      {
        LexTotal(Enc(x), Enc(y));
      }
      OneStrictListing(m.Keys, less, ks, Order(m));
    }
  }

  lemma OrderAscends(m: map<Value, Value>)
    requires Plain(Map(m)) && forall k | k in m :: k.TextString?
    ensures forall i, j | 0 <= i < j < |m| :: LexLess(Enc(Order(m)[i]), Enc(Order(m)[j]))
  {
    var ks := Order(m);
    var rank := map k | k in m :: Bytes(Wire(k));
    forall i, j | 0 <= i < j < |ks|
      ensures LexLess(Enc(ks[i]), Enc(ks[j]))
    {
      assert ks[i] in ks && ks[j] in ks && ks[i] != ks[j];
      assert !LengthFirst(rank[ks[j]], rank[ks[i]]);
      TextOrdersAgree(ks[j].octets, ks[i].octets);
      LexTotal(Enc(ks[i]), Enc(ks[j]));
      if Enc(ks[i]) == Enc(ks[j]) {
        EncInjective(ks[i], ks[j], [], []);
      }
    }
  }
}
