/**
 * The byte scanner that runs before any octet reaches the CBOR library: one recursive walk with a
 * mutable offset and a mutable item counter.
 */
module Scanning {
  import opened Octets
  import opened Grammar

  class Scanner {
    const data: seq<Octet>
    const rules: Rules
    var offset: nat
    var items: nat

    constructor (data: seq<Octet>, rules: Rules)
      ensures this.data == data && this.rules == rules && offset == 0 && items == 0
    {
      this.data := data;
      this.rules := rules;
      offset := 0;
      items := 0;
    }

    /** The argument behind an initial octet, read one octet at a time. */
    method ReadArgument(ai: nat) returns (ok: bool, v: nat)
      requires offset <= |data| && ai < 32
      modifies this`offset
      ensures ok <==> ai <= 27 && old(offset) + ArgumentWidth(ai) <= |data|
      ensures ok ==> offset == old(offset) + ArgumentWidth(ai)
      ensures ok ==> v == if ai < 24 then ai else Number(data[old(offset)..offset])
      ensures offset <= |data|
    {
      hide Number;
      if ai < 24 {
        return true, ai;
      }
      var n := 0;
      match ai {
        case 24 => n := 1;
        case 25 => n := 2;
        case 26 => n := 4;
        case 27 => n := 8;
        case _ => return false, 0;
      }
      assert ai <= 27 ==> n == ArgumentWidth(ai);
      hide ArgumentWidth;
      if offset + n > |data| {
        return false, 0;
      }
      v := ReadNumber(n);
      ok := true;
    }

    /** The loop over the octets of an argument. */
    method ReadNumber(n: nat) returns (v: nat)
      requires offset + n <= |data|
      modifies this`offset
      ensures offset == old(offset) + n && v == Number(data[old(offset)..offset])
    {
      hide Number;
      v := 0;
      ghost var start := offset;
      NumberNone(data, start);
      for i := 0 to n
        invariant offset == start + i
        invariant v == Number(data[start..offset])
      {
        NumberGrows(data, start, offset);
        v := 256 * v + data[offset];
        offset := offset + 1;
      }
    }

    lemma NumberNone(s: seq<Octet>, at: nat)
      requires at <= |s|
      ensures Number(s[at..at]) == 0
    {
    }

    lemma NumberGrows(s: seq<Octet>, from: nat, to: nat)
      requires from <= to < |s|
      ensures Number(s[from..to + 1]) == 256 * Number(s[from..to]) + s[to]
    {
      hide Number;
      NumberSnoc(s[from..to], s[to]);
      assert s[from..to] + [s[to]] == s[from..to + 1];
    }

    /**
     * Scans one item. It succeeds exactly when a conforming item stands at the offset, and then
     * the offset has moved past that item and the counter past its nodes.
     */
    method Scan(depth: nat, outer: bool) returns (ok: bool, ghost it: Item)
      requires offset <= |data|
      modifies this`offset, this`items
      ensures offset <= |data|
      ensures ok ==> StandsAt(data, rules, old(offset), old(items), it, depth, outer)
      ensures ok ==> offset == old(offset) + |Bytes(it)| && items == old(items) + Nodes(it)
      ensures !ok ==> NothingStandsAt(data, rules, old(offset), old(items), depth, outer)
      decreases |data| - offset, 1
    {
      hide StandsAt, NothingStandsAt, Body, NoBody, WellFormed, Within, Bytes, Nodes, BytesAll, NodesAll;
      it := Item(7, 0, 22, [], []);
      ghost var off, used := offset, items;
      RoomForNothing(off, used, depth, outer);
      items := items + 1;
      if items > rules.limits.maximumItems {
        return false, it;
      }
      if depth > rules.limits.maximumDepth {
        return false, it;
      }
      if offset >= |data| {
        return false, it;
      }
      var initial := data[offset];
      offset := offset + 1;
      var major, ai := initial / 32, initial % 32;
      if major == 7 {
        ok := ai == 20 || ai == 21 || ai == 22;
        it := Item(7, 0, ai, [], []);
        SimpleDecides(off, used, depth, outer, ok, it);
        return ok, it;
      }
      var read, arg := ReadArgument(ai);
      if !read {
        return false, it;
      }
      ghost var content, kids;
      ok, content, kids := ScanBody(depth, outer, major, arg);
      it := Item(major, ArgumentWidth(ai), arg, content, kids);
      assert HeadReadable(data, off) && arg == ArgumentAt(data, off) && major == data[off] / 32;
      BodyDecides(off, used, depth, outer, ok, it);
    }

    /** Without room for one more item, at too great a depth, or without a whole head nothing stands there. */
    lemma RoomForNothing(off: nat, used: nat, depth: nat, outer: bool)
      requires off <= |data|
      ensures used + 1 > rules.limits.maximumItems || depth > rules.limits.maximumDepth || !HeadReadable(data, off) ==>
                NothingStandsAt(data, rules, off, used, depth, outer)
    {
      hide StandsAt, HeadReadable;
      forall it: Item | StandsAt(data, rules, off, used, it, depth, outer)
        ensures used + 1 <= rules.limits.maximumItems && depth <= rules.limits.maximumDepth && HeadReadable(data, off)
      {
        HeadOfStanding(data, rules, off, used, it, depth, outer);
        StandingFits(off, used, it, depth, outer);
      }
    }

    lemma StandingFits(off: nat, used: nat, it: Item, depth: nat, outer: bool)
      requires off <= |data| && StandsAt(data, rules, off, used, it, depth, outer)
      ensures used + 1 <= rules.limits.maximumItems && depth <= rules.limits.maximumDepth
    {
    }

    /** A simple value is its head alone. */
    lemma SimpleDecides(off: nat, used: nat, depth: nat, outer: bool, ok: bool, it: Item)
      requires off < |data| && data[off] / 32 == 7 && it == Item(7, 0, data[off] % 32, [], [])
      requires used + 1 <= rules.limits.maximumItems && depth <= rules.limits.maximumDepth
      requires ok <==> 20 <= data[off] % 32 <= 22
      ensures |Bytes(it)| == 1 && Nodes(it) == 1
      ensures ok ==> StandsAt(data, rules, off, used, it, depth, outer)
      ensures !ok ==> NothingStandsAt(data, rules, off, used, depth, outer)
    {
      SimpleHere(off, used, depth, outer);
      AllNone();
      assert it.kids == [];
      if ok {
        KidsOfStanding(data, rules, off, used, it, depth, outer);
      }
    }

    /** Whether an item stands at a readable head is decided by the body behind it. */
    lemma BodyDecides(off: nat, used: nat, depth: nat, outer: bool, ok: bool, it: Item)
      requires IsHeadAt(off, it) && it.major < 7 && depth <= rules.limits.maximumDepth
      requires ok ==> Body(off + 1 + it.width, used + 1, it.major, it.arg, it.content, it.kids, depth, outer)
      requires !ok ==> NoBody(off + 1 + it.width, used + 1, it.major, it.arg, depth, outer)
      ensures ok ==> StandsAt(data, rules, off, used, it, depth, outer)
      ensures ok ==> |Bytes(it)| == 1 + it.width + |it.content| + |BytesAll(it.kids)| && Nodes(it) == 1 + NodesAll(it.kids)
      ensures !ok ==> NothingStandsAt(data, rules, off, used, depth, outer)
    {
      hide StandsAt, Body;
      if ok {
        Assembled(off, used, it, depth, outer);
        Dissected(off, used, it, depth, outer);
      } else {
        forall other: Item
          ensures !StandsAt(data, rules, off, used, other, depth, outer)
        {
          if StandsAt(data, rules, off, used, other, depth, outer) {
            Dissected(off, used, other, depth, outer);
          }
        }
      }
    }

    lemma SimpleHere(off: nat, used: nat, depth: nat, outer: bool)
      requires off < |data| && data[off] / 32 == 7
      ensures forall other | StandsAt(data, rules, off, used, other, depth, outer) :: 20 <= data[off] % 32 <= 22
      ensures 20 <= data[off] % 32 <= 22 ==> Head(7, 0, data[off] % 32) + [] == data[off..off + 1]
    {
      forall other | StandsAt(data, rules, off, used, other, depth, outer)
        ensures 20 <= data[off] % 32 <= 22
      {
        HeadOfStanding(data, rules, off, used, other, depth, outer);
      }
    }

    /** The octets behind a head at `off` are the content and the kids that head announces. */
    ghost predicate Body(off: nat, used: nat, major: nat, arg: nat, content: seq<Octet>, kids: seq<Item>, depth: nat, outer: bool) {
      && |content| == ContentLength(major, arg) && |kids| == KidCount(major, arg)
      && off + |content| <= |data|
      && content == data[off..off + |content|]
      && KidsStandAt(data, rules, off + |content|, used, kids, depth)
      && WithinHere(Item(major, 0, arg, content, kids), rules, depth, outer)
    }

    ghost predicate NoBody(off: nat, used: nat, major: nat, arg: nat, depth: nat, outer: bool) {
      forall content: seq<Octet>, kids: seq<Item> :: !Body(off, used, major, arg, content, kids, depth, outer)
    }

    ghost predicate IsHeadAt(off: nat, it: Item) {
      && HeadReadable(data, off)
      && it.major == data[off] / 32 && it.width == ArgumentWidth(data[off] % 32) && it.arg == ArgumentAt(data, off)
    }

    /** The switch on the major type of a head already read. */
    method ScanBody(depth: nat, outer: bool, major: nat, arg: nat)
      returns (ok: bool, ghost content: seq<Octet>, ghost kids: seq<Item>)
      requires offset <= |data| && major < 7
      requires items <= rules.limits.maximumItems && depth <= rules.limits.maximumDepth
      modifies this`offset, this`items
      ensures offset <= |data|
      ensures ok ==> Body(old(offset), old(items), major, arg, content, kids, depth, outer)
      ensures ok ==> offset == old(offset) + |content| + |BytesAll(kids)| && items == old(items) + NodesAll(kids)
      ensures !ok ==> NoBody(old(offset), old(items), major, arg, depth, outer)
      decreases |data| - offset, 4
    {
      hide StandsAt, KidsStandAt, WellFormed, Within, Utf8, BytesAll, NodesAll;
      content, kids := [], [];
      NoKidsStand(offset, items, depth);
      ok := true;
      if major <= 1 {
        ok := arg <= MAX_SAFE;
      } else if major <= 3 {
        ok, content := ScanString(major, arg);
      } else if major == 4 {
        if arg > rules.limits.maximumArrayLength {
          ok := false;
        } else {
          ok, kids := ScanElements(arg, depth);
        }
      } else if major == 5 {
        if arg > rules.limits.maximumMapEntries {
          ok := false;
        } else {
          ok, kids := ScanEntries(arg, depth);
        }
      } else {
        if !rules.outerTag18 || !outer || arg != 18 {
          ok := false;
        } else {
          ok, kids := ScanElements(1, depth);
        }
      }
    }

    /** The content of a byte or text string. */
    method ScanString(major: nat, arg: nat) returns (ok: bool, ghost content: seq<Octet>)
      requires offset <= |data| && 2 <= major <= 3
      modifies this`offset
      ensures offset <= |data|
      ensures ok <==>
              && arg <= (if major == 3 then rules.limits.maximumTextBytes else rules.limits.maximumByteStringLength)
              && old(offset) + arg <= |data|
              && (major == 3 ==> Utf8(data[old(offset)..old(offset) + arg]))
      ensures ok ==> offset == old(offset) + arg && content == data[old(offset)..offset]
    {
      content := [];
      var most := if major == 3 then rules.limits.maximumTextBytes else rules.limits.maximumByteStringLength;
      if arg > most || arg > |data| - offset {
        return false, content;
      }
      if major == 3 && !Utf8(data[offset..offset + arg]) {
        return false, content;
      }
      content := data[offset..offset + arg];
      offset := offset + arg;
      ok := true;
    }

    lemma NoKidsStand(off: nat, used: nat, depth: nat)
      requires off <= |data| && used <= rules.limits.maximumItems
      ensures forall at | off <= at <= |data| :: KidsStandAt(data, rules, at, used, [], depth)
      ensures BytesAll([]) == [] && NodesAll([]) == 0
    {
    }

    lemma Assembled(off: nat, used: nat, it: Item, depth: nat, outer: bool)
      requires IsHeadAt(off, it) && it.major < 7 && depth <= rules.limits.maximumDepth
      requires Body(off + 1 + it.width, used + 1, it.major, it.arg, it.content, it.kids, depth, outer)
      ensures StandsAt(data, rules, off, used, it, depth, outer)
    {
      var at := off + 1 + it.width;
      ReadableHeadIsHead(data, off);
      AssembledConforms(off, used, it, depth, outer);
      hide WellFormed, Within, KidsStandAt, StandsAt, HeadReadable, ArgumentAt, ArgumentWidth, Head, WithinHere;
      SlicesJoin(data, off, at, at + |it.content|);
      KidsOfStanding(data, rules, off, used, it, depth, outer);
    }

    lemma AssembledConforms(off: nat, used: nat, it: Item, depth: nat, outer: bool)
      requires ValidHead(it.major, it.width, it.arg) && it.major < 7
      requires Body(off + 1 + it.width, used + 1, it.major, it.arg, it.content, it.kids, depth, outer)
      ensures WellFormed(it) && Within(it, rules, depth, outer)
    {
      hide Utf8, BytesAll, NodesAll, Pow256, KeysAreText, ValidHead;
    }

    lemma Dissected(off: nat, used: nat, it: Item, depth: nat, outer: bool)
      requires off <= |data|
      requires StandsAt(data, rules, off, used, it, depth, outer)
      ensures IsHeadAt(off, it)
      ensures Body(off + 1 + it.width, used + 1, it.major, it.arg, it.content, it.kids, depth, outer)
      ensures |Bytes(it)| == 1 + it.width + |it.content| + |BytesAll(it.kids)|
    {
      DissectedShape(off, used, it, depth, outer);
      hide Bytes, BytesAll, WellFormed, Within, StandsAt, KidsStandAt, WithinHere, Head, HeadReadable, ArgumentAt, ArgumentWidth;
      HeadOfStanding(data, rules, off, used, it, depth, outer);
      KidsOfStanding(data, rules, off, used, it, depth, outer);
      DissectedContent(off, it);
    }

    lemma DissectedShape(off: nat, used: nat, it: Item, depth: nat, outer: bool)
      requires off <= |data|
      requires StandsAt(data, rules, off, used, it, depth, outer)
      ensures WellFormed(it) && WithinHere(Item(it.major, 0, it.arg, it.content, it.kids), rules, depth, outer)
      ensures |it.content| == ContentLength(it.major, it.arg) && |it.kids| == KidCount(it.major, it.arg)
      ensures |Bytes(it)| == 1 + it.width + |it.content| + |BytesAll(it.kids)|
    {
      hide Utf8, NodesAll, BytesAll, KeysAreText;
    }

    lemma DissectedContent(off: nat, it: Item)
      requires off + 1 + it.width + |it.content| <= |data|
      requires Head(it.major, it.width, it.arg) + it.content == data[off..off + 1 + it.width + |it.content|]
      ensures it.content == data[off + 1 + it.width..off + 1 + it.width + |it.content|]
    {
      hide Head;
      var at := off + 1 + it.width;
      SlicesJoin(data, off, at, at + |it.content|);
      SplitAt(Head(it.major, it.width, it.arg), it.content, data[off..at], data[at..at + |it.content|]);
    }

    /**
     * The kids stand in a row at `off`, and every row of n kids that could stand there starts
     * with them.
     */
    ghost predicate Row(off: nat, used: nat, n: nat, depth: nat, kids: seq<Item>) {
      && off <= |data|
      && KidsStandAt(data, rules, off, used, kids, depth)
      && off + |BytesAll(kids)| <= |data|
      && forall others | |others| == n && KidsStandAt(data, rules, off, used, others, depth) :: kids <= others
    }

    /** No row of n kids stands at `off`; in a map, none whose keys are as the rules ask. */
    ghost predicate NoRow(off: nat, used: nat, n: nat, depth: nat, keys: bool)
      requires off <= |data|
    {
      forall others | |others| == n && KidsStandAt(data, rules, off, used, others, depth) :: keys && !KeysAreText(others)
    }

    /** The loop over the elements of an array, and the single item under a tag. */
    method ScanElements(n: nat, depth: nat) returns (ok: bool, ghost kids: seq<Item>)
      requires offset <= |data| && items <= rules.limits.maximumItems
      modifies this`offset, this`items
      ensures offset <= |data|
      ensures ok ==> |kids| == n && Row(old(offset), old(items), n, depth, kids)
      ensures ok ==> offset == old(offset) + |BytesAll(kids)| && items == old(items) + NodesAll(kids)
      ensures !ok ==> NoRow(old(offset), old(items), n, depth, false)
      decreases |data| - offset, 2
    {
      hide Row, StandsAt, KidsStandAt, NothingStandsAt, WellFormed, Within;
      ghost var off, used := offset, items;
      kids := [];
      RowStarts(off, used, n, depth);
      for i := 0 to n
        invariant offset <= |data| && off <= offset
        invariant |kids| == i && Row(off, used, n, depth, kids)
        invariant offset == off + |BytesAll(kids)| && items == used + NodesAll(kids)
      {
        ghost var kid;
        ok, kid := Scan(depth + 1, false);
        if !ok {
          RowEnds(off, used, n, depth, kids);
          return false, kids;
        }
        RowGrows(off, used, n, depth, kids, kid);
        kids := kids + [kid];
      }
      ok := true;
    }

    /** The loop over the entries of a map: a key, which may have to be text, and then a value. */
    method ScanEntries(n: nat, depth: nat) returns (ok: bool, ghost kids: seq<Item>)
      requires offset <= |data| && items <= rules.limits.maximumItems
      modifies this`offset, this`items
      ensures offset <= |data|
      ensures ok ==> |kids| == 2 * n && Row(old(offset), old(items), 2 * n, depth, kids)
      ensures ok && rules.textKeys ==> KeysAreText(kids)
      ensures ok ==> offset == old(offset) + |BytesAll(kids)| && items == old(items) + NodesAll(kids)
      ensures !ok ==> NoRow(old(offset), old(items), 2 * n, depth, rules.textKeys)
      decreases |data| - offset, 3
    {
      hide Row, StandsAt, KidsStandAt, NothingStandsAt, WellFormed, Within, KeysAreText;
      ghost var off, used := offset, items;
      kids := [];
      RowStarts(off, used, 2 * n, depth);
      for i := 0 to n
        invariant offset <= |data| && off <= offset
        invariant |kids| == 2 * i && Row(off, used, 2 * n, depth, kids)
        invariant rules.textKeys ==> KeysAreText(kids)
        invariant offset == off + |BytesAll(kids)| && items == used + NodesAll(kids)
      {
        ok, kids := ScanEntry(off, used, 2 * n, depth, kids);
        if !ok {
          return false, kids;
        }
      }
      ok := true;
    }

    /** One entry behind the kids already in the row. */
    method ScanEntry(ghost off: nat, ghost used: nat, ghost n: nat, depth: nat, ghost kids: seq<Item>)
      returns (ok: bool, ghost grown: seq<Item>)
      requires off <= offset <= |data| && Row(off, used, n, depth, kids)
      requires |kids| % 2 == 0 && |kids| + 2 <= n
      requires rules.textKeys ==> KeysAreText(kids)
      requires offset == off + |BytesAll(kids)| && items == used + NodesAll(kids)
      modifies this`offset, this`items
      ensures offset <= |data|
      ensures ok ==> |grown| == |kids| + 2 && Row(off, used, n, depth, grown)
      ensures ok && rules.textKeys ==> KeysAreText(grown)
      ensures ok ==> offset == off + |BytesAll(grown)| && items == used + NodesAll(grown)
      ensures !ok ==> NoRow(off, used, n, depth, rules.textKeys)
      decreases |data| - offset, 2
    {
      hide StandsAt, KidsStandAt, NothingStandsAt, WellFormed, Within, KeysAreText, Row, NoRow, Bytes, Nodes, BytesAll, NodesAll;
      grown := kids;
      if rules.textKeys && (offset >= |data| || data[offset] / 32 != 3) {
        KeyNotText(off, used, n, depth, kids);
        return false, kids;
      }
      ghost var key, value;
      ghost var at, counted := offset, items;
      ok, key := Scan(depth + 1, false);
      if !ok {
        RowEnds(off, used, n, depth, kids);
        return false, kids;
      }
      RowGrows(off, used, n, depth, kids, key);
      ok, value := Scan(depth + 1, false);
      if !ok {
        RowEnds(off, used, n, depth, kids + [key]);
        return false, kids;
      }
      RowGrows(off, used, n, depth, kids + [key], value);
      if rules.textKeys {
        HeadOfStanding(data, rules, at, counted, key, depth + 1, false);
        EntryGrows(kids, key, value);
      }
      grown := kids + [key] + [value];
    }

    lemma RowStarts(off: nat, used: nat, n: nat, depth: nat)
      requires off <= |data| && used <= rules.limits.maximumItems
      ensures Row(off, used, n, depth, []) && KeysAreText([])
    {
    }

    lemma EntryGrows(kids: seq<Item>, key: Item, value: Item)
      requires KeysAreText(kids) && |kids| % 2 == 0
      requires key.major == 3
      ensures KeysAreText(kids + [key] + [value])
    {
    }

    lemma RowGrows(off: nat, used: nat, n: nat, depth: nat, kids: seq<Item>, kid: Item)
      requires Row(off, used, n, depth, kids) && |kids| < n
      requires StandsAt(data, rules, off + |BytesAll(kids)|, used + NodesAll(kids), kid, depth + 1, false)
      ensures Row(off, used, n, depth, kids + [kid])
      ensures BytesAll(kids + [kid]) == BytesAll(kids) + Bytes(kid)
      ensures NodesAll(kids + [kid]) == NodesAll(kids) + Nodes(kid)
    {
      hide StandsAt, WellFormed, Within;
      KidsGrow(data, rules, off, used, kids, kid, depth);
      forall others | |others| == n && KidsStandAt(data, rules, off, used, others, depth)
        ensures kids + [kid] <= others
      {
        SameNextKid(off, used, depth, kids, kid, others);
      }
    }

    lemma SameNextKid(off: nat, used: nat, depth: nat, kids: seq<Item>, kid: Item, others: seq<Item>)
      requires off <= |data|
      requires kids <= others && |kids| < |others|
      requires KidsStandAt(data, rules, off, used, others, depth)
      requires AllWellFormed(kids) && off + |BytesAll(kids)| <= |data|
      requires StandsAt(data, rules, off + |BytesAll(kids)|, used + NodesAll(kids), kid, depth + 1, false)
      ensures kids + [kid] <= others
    {
      hide StandsAt, KidsStandAt, WellFormed, Within;
      NextKidStands(data, rules, off, used, others, depth, kids);
      StandsAtUnique(data, rules, off + |BytesAll(kids)|, used + NodesAll(kids), kid, others[|kids|], depth + 1, false);
      PrefixSnoc(kids, kid, others);
    }

    lemma RowEnds(off: nat, used: nat, n: nat, depth: nat, kids: seq<Item>)
      requires Row(off, used, n, depth, kids) && |kids| < n
      requires NothingStandsAt(data, rules, off + |BytesAll(kids)|, used + NodesAll(kids), depth + 1, false)
      ensures NoRow(off, used, n, depth, false) && NoRow(off, used, n, depth, rules.textKeys)
    {
      hide StandsAt, KidsStandAt, AllWellFormed, BytesAll, NodesAll, KeysAreText;
      forall others | |others| == n && KidsStandAt(data, rules, off, used, others, depth)
        ensures false
      {
        NextKidStands(data, rules, off, used, others, depth, kids);
      }
    }

    lemma KeyNotText(off: nat, used: nat, n: nat, depth: nat, kids: seq<Item>)
      requires Row(off, used, n, depth, kids) && |kids| < n && |kids| % 2 == 0
      requires off + |BytesAll(kids)| >= |data| || data[off + |BytesAll(kids)|] / 32 != 3
      ensures NoRow(off, used, n, depth, true)
    {
      hide StandsAt, KidsStandAt, AllWellFormed, BytesAll, NodesAll, HeadReadable, ArgumentAt, ArgumentWidth;
      forall others | |others| == n && KidsStandAt(data, rules, off, used, others, depth)
        ensures !KeysAreText(others)
      {
        NextKidStands(data, rules, off, used, others, depth, kids);
        MajorOfStanding(off + |BytesAll(kids)|, used + NodesAll(kids), others[|kids|], depth + 1);
      }
    }

    lemma MajorOfStanding(off: nat, used: nat, it: Item, depth: nat)
      requires off <= |data| && StandsAt(data, rules, off, used, it, depth, false)
      ensures off < |data| && it.major == data[off] / 32
    {
      hide StandsAt;
      HeadOfStanding(data, rules, off, used, it, depth, false);
    }
  }

  /** The octets are one whole conforming item. */
  ghost predicate Scans(data: seq<Octet>, rules: Rules, it: Item) {
    && |data| <= rules.limits.maximumBytes
    && WellFormed(it) && Within(it, rules, 0, true) && Bytes(it) == data && Nodes(it) <= rules.limits.maximumItems
  }

  /** The whole scan: one item from the first octet to the last, and nothing after it. */
  method ScanCbor(data: seq<Octet>, rules: Rules) returns (ok: bool, ghost it: Item)
    ensures ok ==> Scans(data, rules, it)
    ensures !ok ==> forall other :: !Scans(data, rules, other)
  {
    it := Item(7, 0, 22, [], []);
    if |data| > rules.limits.maximumBytes {
      return false, it;
    }
    var scanner := new Scanner(data, rules);
    ok, it := scanner.Scan(0, true);
    assert data[0..] == data;
    forall other | Scans(data, rules, other)
      ensures ok && other == it
    {
      assert StandsAt(data, rules, 0, 0, other, 0, true);
      if ok {
        StandsAtUnique(data, rules, 0, 0, it, other, 0, true);
      }
    }
    if scanner.offset != |data| {
      ok := false;
    }
  }
}
