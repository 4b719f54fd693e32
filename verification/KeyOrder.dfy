/**
 * The two map orders of RFC 8949 on encoded keys: bytewise (section 4.2.1) and length-first
 * (section 4.2.3), and the listing of a finite set of keys in length-first order.
 */
module KeyOrder {
  import opened Octets

  /** Bytewise lexicographic order. */
  predicate LexLess(a: seq<Octet>, b: seq<Octet>)
    decreases a
  {
    b != [] && (a == [] || a[0] < b[0] || (a[0] == b[0] && LexLess(a[1..], b[1..])))
  }

  /** Shorter first, and bytewise among equals in length. */
  predicate LengthFirst(a: seq<Octet>, b: seq<Octet>) {
    |a| < |b| || (|a| == |b| && LexLess(a, b))
  }

  lemma {:induction false} LexTotal(a: seq<Octet>, b: seq<Octet>)
    ensures a == b || LexLess(a, b) || LexLess(b, a)
    ensures !(LexLess(a, b) && LexLess(b, a))
    ensures a == b ==> !LexLess(a, b)
    decreases a
  {
    if a != [] && b != [] {
      LexTotal(a[1..], b[1..]);
      assert a == [a[0]] + a[1..] && b == [b[0]] + b[1..];
    }
  }

  lemma {:induction false} LexTransitive(a: seq<Octet>, b: seq<Octet>, c: seq<Octet>)
    requires LexLess(a, b) && LexLess(b, c)
    ensures LexLess(a, c)
    decreases a
  {
    if a != [] && a[0] == b[0] && b[0] == c[0] {
      LexTransitive(a[1..], b[1..], c[1..]);
    }
  }

  /** A common front does not matter to the bytewise order. */
  lemma {:induction false} LexAfterFront(front: seq<Octet>, a: seq<Octet>, b: seq<Octet>)
    ensures LexLess(front + a, front + b) == LexLess(a, b)
    decreases front
  {
    if front == [] {
      assert front + a == a && front + b == b;
    } else {
      assert (front + a)[1..] == front[1..] + a && (front + b)[1..] == front[1..] + b;
      LexAfterFront(front[1..], a, b);
    }
  }

  lemma LengthFirstTransitive(a: seq<Octet>, b: seq<Octet>, c: seq<Octet>)
    requires LengthFirst(a, b) && LengthFirst(b, c)
    ensures LengthFirst(a, c)
  {
    if |a| == |c| {
      LexTransitive(a, b, c);
    }
  }

  /** Big-endian numerals of one width are ordered as the numbers are. */
  lemma {:induction false} BigEndianOrder(m: nat, n: nat, width: nat)
    requires m < n < Pow256(width)
    ensures LexLess(BigEndian(m, width), BigEndian(n, width))
    decreases width
  {
    var a, b := BigEndian(m / 256, width - 1), BigEndian(n / 256, width - 1);
    if m / 256 < n / 256 {
      BigEndianOrder(m / 256, n / 256, width - 1);
      LexDecidedEarly(a, b, [m % 256], [n % 256]);
    } else {
      LexAfterFront(a, [m % 256], [n % 256]);
    }
  }

  /** Once two strings of equal length differ, what follows does not matter. */
  lemma {:induction false} LexDecidedEarly(a: seq<Octet>, b: seq<Octet>, x: seq<Octet>, y: seq<Octet>)
    requires |a| == |b| && LexLess(a, b)
    ensures LexLess(a + x, b + y)
    decreases a
  {
    if a[0] == b[0] {
      assert (a + x)[1..] == a[1..] + x && (b + y)[1..] == b[1..] + y;
      LexDecidedEarly(a[1..], b[1..], x, y);
    }
  }

  // ---------------------------------------------------------------- listings

  predicate Distinct<K(==)>(ks: seq<K>) {
    forall i, j | 0 <= i < j < |ks| :: ks[i] != ks[j]
  }

  /** ks lists each element of the set once. */
  predicate Lists<K(==)>(ks: seq<K>, s: set<K>) {
    Distinct(ks) && (forall k | k in ks :: k in s) && forall k | k in s :: k in ks
  }

  lemma {:induction false} ListsLength<K>(ks: seq<K>, s: set<K>)
    requires Lists(ks, s)
    ensures |ks| == |s|
    decreases ks
  {
    if ks == [] {
      assert s == {};
    } else {
      assert ks == [ks[0]] + ks[1..];
      ListsLength(ks[1..], s - {ks[0]});
    }
  }

  /** No element is listed in front of one that comes before it. */
  ghost predicate Ascending<K>(rank: map<K, seq<Octet>>, ks: seq<K>)
    requires forall k | k in ks :: k in rank
  {
    forall i, j | 0 <= i < j < |ks| :: !LengthFirst(rank[ks[j]], rank[ks[i]])
  }

  ghost predicate IsLeast<K>(rank: map<K, seq<Octet>>, s: set<K>, k: K)
    requires s <= rank.Keys
  {
    k in s && forall j | j in s :: !LengthFirst(rank[j], rank[k])
  }

  lemma {:induction false} LeastExists<K>(rank: map<K, seq<Octet>>, s: set<K>)
    requires s != {} && s <= rank.Keys
    ensures exists k :: IsLeast(rank, s, k)
    decreases s
  {
    var k :| k in s;
    LexTotal(rank[k], rank[k]);
    if s == {k} {
      assert IsLeast(rank, s, k);
    } else {
      LeastExists(rank, s - {k});
      var other :| IsLeast(rank, s - {k}, other);
      LexTotal(rank[other], rank[k]);
      if LengthFirst(rank[other], rank[k]) {
        assert IsLeast(rank, s, other);
      } else {
        forall j | j in s - {k}
          ensures !LengthFirst(rank[j], rank[k])
        {
          NoneBelow(rank[j], rank[other], rank[k]);
        }
        assert IsLeast(rank, s, k);
      }
    }
  }

  /** If j is not below k, and k is not below m, then j is not below m. */
  lemma NoneBelow(j: seq<Octet>, k: seq<Octet>, m: seq<Octet>)
    requires !LengthFirst(j, k) && !LengthFirst(k, m)
    ensures !LengthFirst(j, m)
  {
    LexTotal(j, k);
    LexTotal(k, m);
    if LengthFirst(j, m) {
      LexTotal(j, m);
      if LengthFirst(k, j) && LengthFirst(j, m) {
        LengthFirstTransitive(k, j, m);
      }
    }
  }

  /** The keys of the map, least rank first. */
  ghost function Sorted<K>(rank: map<K, seq<Octet>>, s: set<K>): (ks: seq<K>)
    requires s <= rank.Keys
    ensures Lists(ks, s) && |ks| == |s|
    ensures Ascending(rank, ks)
    decreases s
  {
    if s == {} then [] else
      LeastExists(rank, s);
      var least :| IsLeast(rank, s, least);
      [least] + Sorted(rank, s - {least})
  }

  /** A set of keys has only one listing that ascends strictly. */
  lemma {:induction false} OneStrictListing<K>(s: set<K>, less: (K, K) -> bool, a: seq<K>, b: seq<K>)
    requires Lists(a, s) && Lists(b, s)
    requires forall x, y | less(x, y) :: !less(y, x)
    requires forall i, j | 0 <= i < j < |a| :: less(a[i], a[j])
    requires forall i, j | 0 <= i < j < |b| :: less(b[i], b[j])
    ensures a == b
    decreases a
  {
    ListsLength(a, s);
    ListsLength(b, s);
    if a != [] {
      assert a[0] in b && b[0] in a;
      var i :| 0 <= i < |b| && b[i] == a[0];
      var j :| 0 <= j < |a| && a[j] == b[0];
      assert i == 0 || j == 0;
      assert a == [a[0]] + a[1..] && b == [b[0]] + b[1..];
      OneStrictListing(s - {a[0]}, less, a[1..], b[1..]);
    }
  }
}
