/**
 * Encoded data items in the sense of section 3 of RFC 8949: a head, then the literal content of a
 * string, then the enclosed items. The tree keeps the width of every head, so one tree spells
 * exactly one octet string even where the head is not in its shortest form.
 */
module Grammar {
  import opened Octets

  const MAX_SAFE: nat := 9007199254740991

  /** Go's int: the type of every field of the limits record. */
  type GoInt = x: int | -0x8000_0000_0000_0000 <= x < 0x8000_0000_0000_0000

  datatype Limits = Limits(
    maximumBytes: GoInt,
    maximumDepth: GoInt,
    maximumItems: GoInt,
    maximumArrayLength: GoInt,
    maximumMapEntries: GoInt,
    maximumTextBytes: GoInt,
    maximumByteStringLength: GoInt)

  const DEFAULT_LIMITS := Limits(1048576, 32, 16384, 4096, 256, 1048576, 1048576)

  predicate ValidLimits(l: Limits) {
    && l.maximumBytes >= 1 && l.maximumDepth >= 0 && l.maximumItems >= 1
    && l.maximumArrayLength >= 0 && l.maximumMapEntries >= 0
    && l.maximumTextBytes >= 0 && l.maximumByteStringLength >= 0
  }

  /** Limit by limit, k allows at least what l allows. */
  predicate Looser(l: Limits, k: Limits) {
    && l.maximumBytes <= k.maximumBytes && l.maximumDepth <= k.maximumDepth
    && l.maximumItems <= k.maximumItems && l.maximumArrayLength <= k.maximumArrayLength
    && l.maximumMapEntries <= k.maximumMapEntries && l.maximumTextBytes <= k.maximumTextBytes
    && l.maximumByteStringLength <= k.maximumByteStringLength
  }

  // ---------------------------------------------------------------- heads

  /** The low five bits of an initial octet followed by an argument of this width. */
  function AdditionalInformation(width: nat): (ai: nat)
  {
    if width == 1 then 24 else if width == 2 then 25 else if width == 4 then 26 else 27
  }

  predicate ValidHead(major: nat, width: nat, arg: nat) {
    && major < 8
    && if width == 0 then arg < 24
       else (width == 1 || width == 2 || width == 4 || width == 8) && arg < Pow256(width)
  }

  /** Three bits of major type and five of additional information. */
  function InitialOctet(major: nat, ai: nat): Octet {
    if major < 8 && ai < 32 then 32 * major + ai else 0
  }

  function Head(major: nat, width: nat, arg: nat): (s: seq<Octet>)
    ensures |s| == 1 + width
  {
    if width == 0 then [InitialOctet(major, arg)]
    else [InitialOctet(major, AdditionalInformation(width))] + BigEndian(arg, width)
  }

  /** The width of the shortest head, section 4.2.1 of RFC 8949. */
  function ShortestWidth(arg: nat): (width: nat)
    ensures arg < 0x1_0000_0000_0000_0000 ==> forall major | 0 <= major < 8 :: ValidHead(major, width, arg)
    ensures forall major, other | ValidHead(major, other, arg) :: width <= other
  {
    Pow256Widths();
    if arg < 24 then 0 else if arg < 0x100 then 1 else if arg < 0x1_0000 then 2 else if arg < 0x1_0000_0000 then 4 else 8
  }

  /** What the octets at the front of s must be for that head to stand there. */
  lemma HeadAtFront(major: nat, width: nat, arg: nat, s: seq<Octet>)
    requires ValidHead(major, width, arg)
    requires Head(major, width, arg) <= s
    ensures s[0] / 32 == major
    ensures width == 0 ==> s[0] % 32 == arg
    ensures width > 0 ==> s[0] % 32 == AdditionalInformation(width) && s[1..1 + width] == BigEndian(arg, width)
    ensures width > 0 ==> Number(s[1..1 + width]) == arg
  {
    hide BigEndian, Number, Pow256;
    var h := Head(major, width, arg);
    assert s[..|h|] == h;
    assert s[0] == h[0];
    if width > 0 {
      assert s[1..1 + width] == h[1..];
      NumberOfBigEndian(arg, width);
    }
  }

  /** A head can be read back from the octets it starts. */
  lemma HeadUnique(m: nat, w: nat, a: nat, m': nat, w': nat, a': nat, s: seq<Octet>)
    requires ValidHead(m, w, a) && ValidHead(m', w', a')
    requires Head(m, w, a) <= s && Head(m', w', a') <= s
    ensures m == m' && w == w' && a == a'
  {
    HeadAtFront(m, w, a, s);
    HeadAtFront(m', w', a', s);
  }

  // ---------------------------------------------------------------- items

  datatype Item = Item(major: nat, width: nat, arg: nat, content: seq<Octet>, kids: seq<Item>)

  /** How many octets of literal content, and how many enclosed items, follow a head. */
  function ContentLength(major: nat, arg: nat): nat {
    if major == 2 || major == 3 then arg else 0
  }

  function KidCount(major: nat, arg: nat): nat {
    if major == 4 then arg else if major == 5 then 2 * arg else if major == 6 then 1 else 0
  }

  predicate WellFormed(it: Item) {
    && ValidHead(it.major, it.width, it.arg)
    && (it.major == 7 ==> it.width == 0 && 20 <= it.arg <= 22)
    && |it.content| == ContentLength(it.major, it.arg)
    && |it.kids| == KidCount(it.major, it.arg)
    && forall k | k in it.kids :: WellFormed(k)
  }

  predicate AllWellFormed(kids: seq<Item>) { forall k | k in kids :: WellFormed(k) }

  function Bytes(it: Item): (s: seq<Octet>)
    ensures |s| >= 1
    decreases it
  {
    Head(it.major, it.width, it.arg) + it.content + BytesAll(it.kids)
  }

  function BytesAll(kids: seq<Item>): (s: seq<Octet>)
    decreases kids
  {
    if kids == [] then [] else Bytes(kids[0]) + BytesAll(kids[1..])
  }

  /** The number of data items in the tree, map keys included. */
  function Nodes(it: Item): (n: nat)
    ensures n >= 1
    decreases it
  {
    1 + NodesAll(it.kids)
  }

  function NodesAll(kids: seq<Item>): (n: nat)
    decreases kids
  {
    if kids == [] then 0 else Nodes(kids[0]) + NodesAll(kids[1..])
  }

  lemma {:induction false} AllAppend(a: seq<Item>, b: seq<Item>)
    ensures BytesAll(a + b) == BytesAll(a) + BytesAll(b)
    ensures NodesAll(a + b) == NodesAll(a) + NodesAll(b)
  {
    hide Bytes, BytesAll, Nodes, NodesAll;
    AllNone();
    if a == [] {
      assert a + b == b && [] + BytesAll(b) == BytesAll(b);
    } else {
      AllAppend(a[1..], b);
      AppendRest(a, b);
      AllCons(a);
      AllCons(a + b);
      Associative(Bytes(a[0]), BytesAll(a[1..]), BytesAll(b));
    }
  }

  lemma AllNone()
    ensures BytesAll([]) == [] && NodesAll([]) == 0
  {
  }

  lemma AllCons(kids: seq<Item>)
    requires kids != []
    ensures BytesAll(kids) == Bytes(kids[0]) + BytesAll(kids[1..])
    ensures NodesAll(kids) == Nodes(kids[0]) + NodesAll(kids[1..])
  {
    hide Bytes, Nodes;
  }

  lemma AllSnoc(a: seq<Item>, k: Item)
    ensures BytesAll(a + [k]) == BytesAll(a) + Bytes(k)
    ensures NodesAll(a + [k]) == NodesAll(a) + Nodes(k)
  {
    hide Bytes, BytesAll, Nodes, NodesAll;
    AllNone();
    AllCons([k]);
    assert [k][1..] == [] && Bytes(k) + [] == Bytes(k);
    AllAppend(a, [k]);
  }

  // ---------------------------------------------------------------- unique reading

  lemma BytesThen(it: Item, s: seq<Octet>)
    ensures Bytes(it) + s == Head(it.major, it.width, it.arg) + (it.content + (BytesAll(it.kids) + s))
  {
    var h := Head(it.major, it.width, it.arg);
    Associative(h + it.content, BytesAll(it.kids), s);
    Associative(h, it.content, BytesAll(it.kids) + s);
  }

  /** No item spells a proper prefix of what another item spells: the grammar reads one way only. */
  lemma {:induction false} UniqueReading(a: Item, b: Item, s: seq<Octet>, t: seq<Octet>)
    requires WellFormed(a) && WellFormed(b)
    requires Bytes(a) + s == Bytes(b) + t
    ensures a == b && s == t
    decreases a
  {
    var ha, hb := Head(a.major, a.width, a.arg), Head(b.major, b.width, b.arg);
    var ra, rb := a.content + (BytesAll(a.kids) + s), b.content + (BytesAll(b.kids) + t);
    BytesThen(a, s);
    BytesThen(b, t);
    HeadUnique(a.major, a.width, a.arg, b.major, b.width, b.arg, ha + ra);
    SplitAt(ha, ra, hb, rb);
    SplitAt(a.content, BytesAll(a.kids) + s, b.content, BytesAll(b.kids) + t);
    UniqueReadingAll(a.kids, b.kids, s, t);
  }

  lemma {:induction false} UniqueReadingAll(a: seq<Item>, b: seq<Item>, s: seq<Octet>, t: seq<Octet>)
    requires AllWellFormed(a) && AllWellFormed(b) && |a| == |b|
    requires BytesAll(a) + s == BytesAll(b) + t
    ensures a == b && s == t
    decreases a
  {
    if a != [] {
      var ra, rb := BytesAll(a[1..]) + s, BytesAll(b[1..]) + t;
      Associative(Bytes(a[0]), BytesAll(a[1..]), s);
      Associative(Bytes(b[0]), BytesAll(b[1..]), t);
      UniqueReading(a[0], b[0], ra, rb);
      UniqueReadingAll(a[1..], b[1..], s, t);
    } else {
      assert BytesAll(a) + s == s && BytesAll(b) + t == t;
    }
  }

  lemma UniquePrefix(a: Item, b: Item, s: seq<Octet>)
    requires WellFormed(a) && WellFormed(b)
    requires Bytes(a) <= s && Bytes(b) <= s
    ensures a == b
  {
    PrefixRest(Bytes(a), s);
    PrefixRest(Bytes(b), s);
    UniqueReading(a, b, s[|Bytes(a)|..], s[|Bytes(b)|..]);
  }

  /** Every item takes at least one octet, so a count of items never passes the input length. */
  lemma {:induction false} NodesAtMostBytes(it: Item)
    ensures Nodes(it) <= |Bytes(it)|
    decreases it
  {
    NodesAllAtMostBytes(it.kids);
  }

  lemma {:induction false} NodesAllAtMostBytes(kids: seq<Item>)
    ensures NodesAll(kids) <= |BytesAll(kids)|
    decreases kids
  {
    if kids != [] {
      NodesAtMostBytes(kids[0]);
      NodesAllAtMostBytes(kids[1..]);
    }
  }

  // ---------------------------------------------------------------- the restricted grammar

  /** What a caller of the scanner chooses besides the octets. */
  datatype Rules = Rules(limits: Limits, outerTag18: bool, textKeys: bool)

  predicate KeysAreText(kids: seq<Item>) {
    forall i | 0 <= i < |kids| && i % 2 == 0 :: kids[i].major == 3
  }

  /** The item and everything it encloses obey the rules, the item itself at this depth. */
  predicate Within(it: Item, rules: Rules, depth: nat, outer: bool)
    decreases it
  {
    && WithinHere(it, rules, depth, outer)
    && forall k | k in it.kids :: Within(k, rules, depth + 1, false)
  }

  /** The item itself obeys the rules, whatever its kids do. */
  predicate WithinHere(it: Item, rules: Rules, depth: nat, outer: bool) {
    var l := rules.limits;
    && depth <= l.maximumDepth
    && (it.major <= 1 ==> it.arg <= MAX_SAFE)
    && (it.major == 2 ==> it.arg <= l.maximumByteStringLength)
    && (it.major == 3 ==> it.arg <= l.maximumTextBytes && Utf8(it.content))
    && (it.major == 4 ==> it.arg <= l.maximumArrayLength)
    && (it.major == 5 ==> it.arg <= l.maximumMapEntries)
    && (it.major == 5 && rules.textKeys ==> KeysAreText(it.kids))
    && (it.major == 6 ==> rules.outerTag18 && outer && it.arg == 18)
  }

  /** Looser limits accept every item that tighter limits accept. */
  lemma {:induction false} WithinMonotone(it: Item, r: Rules, q: Rules, depth: nat, outer: bool)
    requires Within(it, r, depth, outer)
    requires Looser(r.limits, q.limits) && r.outerTag18 == q.outerTag18 && (q.textKeys ==> r.textKeys)
    ensures Within(it, q, depth, outer)
    decreases it
  {
    forall k | k in it.kids
      ensures Within(k, q, depth + 1, false)
    {
      WithinMonotone(k, r, q, depth + 1, false);
    }
  }

  /**
   * A conforming item stands at offset `off` of data, and its nodes still fit the item budget
   * when `used` items have been counted before it.
   */
  ghost predicate StandsAt(data: seq<Octet>, rules: Rules, off: nat, used: nat, it: Item, depth: nat, outer: bool)
    requires off <= |data|
  {
    && WellFormed(it)
    && Within(it, rules, depth, outer)
    && Bytes(it) <= data[off..]
    && used + Nodes(it) <= rules.limits.maximumItems
  }

  /** No conforming item stands there. */
  ghost predicate NothingStandsAt(data: seq<Octet>, rules: Rules, off: nat, used: nat, depth: nat, outer: bool)
    requires off <= |data|
  {
    forall it: Item :: !StandsAt(data, rules, off, used, it, depth, outer)
  }

  /** At most one item stands at a place. */
  lemma StandsAtUnique(data: seq<Octet>, rules: Rules, off: nat, used: nat, a: Item, b: Item, depth: nat, outer: bool)
    requires off <= |data|
    requires StandsAt(data, rules, off, used, a, depth, outer)
    requires StandsAt(data, rules, off, used, b, depth, outer)
    ensures a == b
  {
    UniquePrefix(a, b, data[off..]);
  }

  /** Octets after an item do not change that it stands there, and whatever ends before them stood there already. */
  lemma StandsAtExtends(data: seq<Octet>, more: seq<Octet>, rules: Rules, off: nat, used: nat, it: Item, depth: nat, outer: bool)
    requires off <= |data|
    ensures StandsAt(data, rules, off, used, it, depth, outer) <==>
              StandsAt(data + more, rules, off, used, it, depth, outer) && off + |Bytes(it)| <= |data|
  {
    hide Bytes, WellFormed, Within, Nodes;
    var s := Bytes(it);
    assert (data + more)[off..] == data[off..] + more;
    if s <= data[off..] + more && |s| <= |data[off..]| {
      assert s == (data[off..] + more)[..|s|] == data[off..][..|s|];
    }
  }

  /**
   * A scan is unchanged by octets appended after the item: the item that stands in the data is the
   * only one that stands there in the longer data, so offset and count come out the same.
   */
  lemma AppendingChangesNothing(data: seq<Octet>, more: seq<Octet>, rules: Rules, off: nat, used: nat, it: Item, depth: nat, outer: bool)
    requires off <= |data|
    requires StandsAt(data, rules, off, used, it, depth, outer)
    ensures forall other :: StandsAt(data + more, rules, off, used, other, depth, outer) <==> other == it
  {
    hide StandsAt;
    StandsAtExtends(data, more, rules, off, used, it, depth, outer);
    forall other | StandsAt(data + more, rules, off, used, other, depth, outer)
      ensures other == it
    {
      StandsAtUnique(data + more, rules, off, used, other, it, depth, outer);
    }
  }

  /** A run of conforming items stands at offset `off`, as the kids of an item at this depth. */
  ghost predicate KidsStandAt(data: seq<Octet>, rules: Rules, off: nat, used: nat, kids: seq<Item>, depth: nat)
    requires off <= |data|
  {
    && AllWellFormed(kids)
    && (forall k | k in kids :: Within(k, rules, depth + 1, false))
    && BytesAll(kids) <= data[off..]
    && used + NodesAll(kids) <= rules.limits.maximumItems
  }

  /** An item stands at a place exactly when its head and content are there and its kids stand behind them. */
  lemma KidsOfStanding(data: seq<Octet>, rules: Rules, off: nat, used: nat, it: Item, depth: nat, outer: bool)
    requires off <= |data|
    requires WellFormed(it)
    ensures StandsAt(data, rules, off, used, it, depth, outer) <==>
            && Within(it, rules, depth, outer)
            && off + 1 + it.width + |it.content| <= |data|
            && Head(it.major, it.width, it.arg) + it.content == data[off..off + 1 + it.width + |it.content|]
            && KidsStandAt(data, rules, off + 1 + it.width + |it.content|, used + 1, it.kids, depth)
  {
    var front := Head(it.major, it.width, it.arg) + it.content;
    PrefixSplit(front, BytesAll(it.kids), data, off);
  }

  /** A concatenation is in front exactly when its halves follow one another. */
  lemma PrefixSplit(front: seq<Octet>, s: seq<Octet>, data: seq<Octet>, off: nat)
    requires off <= |data|
    ensures front + s <= data[off..] <==>
            off + |front| <= |data| && front == data[off..off + |front|] && s <= data[off + |front|..]
  {
    var d := data[off..];
    if front + s <= d {
      assert d[..|front|] == front;
      assert d[|front|..][..|s|] == s;
    }
    if off + |front| <= |data| && front == data[off..off + |front|] && s <= data[off + |front|..] {
      assert d == front + data[off + |front|..];
    }
  }

  /** In a run of items, the one after the first few stands right behind them. */
  lemma NextKidStands(data: seq<Octet>, rules: Rules, off: nat, used: nat, kids: seq<Item>, depth: nat, done: seq<Item>)
    requires off <= |data|
    requires KidsStandAt(data, rules, off, used, kids, depth)
    requires done <= kids && |done| < |kids|
    ensures AllWellFormed(done)
    ensures off + |BytesAll(done)| <= |data|
    ensures StandsAt(data, rules, off + |BytesAll(done)|, used + NodesAll(done), kids[|done|], depth + 1, false)
  {
    hide Within, WellFormed, Bytes, Nodes;
    var kid, rest := kids[|done|], kids[|done| + 1..];
    assert kids == done + ([kid] + rest);
    assert AllWellFormed(done) && AllWellFormed(rest) && AllWellFormed([kid] + rest);
    AllAppend(done, [kid] + rest);
    assert ([kid] + rest)[1..] == rest;
    PrefixSplit(BytesAll(done), Bytes(kid) + BytesAll(rest), data, off);
    assert kid in kids;
  }

  /** A run of items grows by the item that stands right behind it. */
  lemma KidsGrow(data: seq<Octet>, rules: Rules, off: nat, used: nat, done: seq<Item>, kid: Item, depth: nat)
    requires off <= |data|
    requires KidsStandAt(data, rules, off, used, done, depth)
    requires off + |BytesAll(done)| <= |data|
    requires StandsAt(data, rules, off + |BytesAll(done)|, used + NodesAll(done), kid, depth + 1, false)
    ensures KidsStandAt(data, rules, off, used, done + [kid], depth)
    ensures BytesAll(done + [kid]) == BytesAll(done) + Bytes(kid)
    ensures NodesAll(done + [kid]) == NodesAll(done) + Nodes(kid)
  {
    hide Bytes, BytesAll, Nodes, NodesAll, WellFormed, Within;
    AllSnoc(done, kid);
    PrefixSplit(BytesAll(done), Bytes(kid), data, off);
    assert BytesAll(done) == data[off..off + |BytesAll(done)|];
  }

  // ---------------------------------------------------------------- reading a head

  /** How many octets of argument follow an initial octet with this additional information. */
  function ArgumentWidth(ai: nat): nat {
    if ai < 24 then 0 else if ai == 24 then 1 else if ai == 25 then 2 else if ai == 26 then 4 else 8
  }

  /** A whole head stands at this offset. */
  predicate HeadReadable(data: seq<Octet>, off: nat) {
    off < |data| && data[off] % 32 <= 27 && off + 1 + ArgumentWidth(data[off] % 32) <= |data|
  }

  function ArgumentAt(data: seq<Octet>, off: nat): nat
    requires HeadReadable(data, off)
  {
    var ai := data[off] % 32;
    if ai < 24 then ai else Number(data[off + 1..off + 1 + ArgumentWidth(ai)])
  }

  lemma ReadableHeadIsHead(data: seq<Octet>, off: nat)
    requires HeadReadable(data, off)
    ensures var width := ArgumentWidth(data[off] % 32);
            ValidHead(data[off] / 32, width, ArgumentAt(data, off)) &&
            Head(data[off] / 32, width, ArgumentAt(data, off)) == data[off..off + 1 + width]
  {
    hide BigEndian, Number, Pow256;
    var width := ArgumentWidth(data[off] % 32);
    if width > 0 {
      BigEndianOfNumber(data[off + 1..off + 1 + width]);
      assert data[off..off + 1 + width] == [data[off]] + data[off + 1..off + 1 + width];
    }
  }

  /** The head of a standing item is the one the octets spell. */
  lemma HeadOfStanding(data: seq<Octet>, rules: Rules, off: nat, used: nat, it: Item, depth: nat, outer: bool)
    requires off <= |data|
    requires StandsAt(data, rules, off, used, it, depth, outer)
    ensures HeadReadable(data, off)
    ensures it.major == data[off] / 32 && it.width == ArgumentWidth(data[off] % 32) && it.arg == ArgumentAt(data, off)
  {
    HeadIsFront(it);
    HeadFromPrefix(data, off, it.major, it.width, it.arg);
  }

  lemma HeadIsFront(it: Item)
    ensures Head(it.major, it.width, it.arg) <= Bytes(it)
  {
    Associative(Head(it.major, it.width, it.arg), it.content, BytesAll(it.kids));
  }

  lemma HeadFromPrefix(data: seq<Octet>, off: nat, major: nat, width: nat, arg: nat)
    requires off <= |data|
    requires ValidHead(major, width, arg) && (major == 7 ==> width == 0)
    requires Head(major, width, arg) <= data[off..]
    ensures HeadReadable(data, off)
    ensures major == data[off] / 32 && width == ArgumentWidth(data[off] % 32) && arg == ArgumentAt(data, off)
  {
    hide BigEndian, Number, Pow256, Head;
    HeadAtFront(major, width, arg, data[off..]);
    assert data[off..][1..1 + width] == data[off + 1..off + 1 + width];
  }
}
