/**
 * Bounded cursor pagination: one listing follows the provider's cursors for a number of pages,
 * merges the rows, refuses cursors it has seen, and returns the cursor to resume from.
 */
module Paging {
  import opened Options

  type Cursor = string

  /** A row of a page, by its text members. */
  datatype Row = Row(members: map<string, string>)

  /** What stands in the `next` member of a page. */
  datatype Next = Missing | NotText | End | More(cursor: Cursor)

  /** A page: its serialized size, its rows if they are an array, and its continuation. */
  datatype Page = Page(size: nat, rows: Option<seq<Row>>, next: Next)

  /** A provider that answers the same request alike, and what the kind of listing accepts. */
  datatype Service = Service(
    get: Option<Cursor> -> Option<Page>,
    validCursor: Cursor -> bool,
    validRow: Row -> bool)

  /** The merged listing: the rows, the cursor to resume from, and the page whose metadata it keeps. */
  datatype Listing = Listing(items: seq<Row>, next: Option<Cursor>, first: Page)

  const MAXIMUM_SIZE: nat := 8388608

  // ---------------------------------------------------------------- what a listing is

  predicate ValidPage(s: Service, p: Page) {
    && p.rows.Some? && |p.rows.value| <= 50
    && (forall row | row in p.rows.value :: s.validRow(row))
    && (p.next.End? || (p.next.More? && p.rows.value != [] && s.validCursor(p.next.cursor)))
  }

  function Continuation(p: Page): Option<Cursor> {
    if p.next.More? then Some(p.next.cursor) else None
  }

  /** The cursor with which page i of a walk was requested. */
  function Requested(after: Option<Cursor>, ps: seq<Page>, i: nat): Option<Cursor>
    requires i <= |ps|
  {
    if i == 0 then after else Continuation(ps[i - 1])
  }

  /** ps are the pages visited when at most `pages` are asked for: it stops early only at the end. */
  ghost predicate IsWalk(s: Service, after: Option<Cursor>, pages: nat, ps: seq<Page>) {
    && 1 <= |ps| <= pages
    && (forall i | 0 <= i < |ps| :: s.get(Requested(after, ps, i)) == Some(ps[i]))
    && (forall i | 1 <= i < |ps| :: Requested(after, ps, i).Some?)
    && (|ps| < pages ==> Requested(after, ps, |ps|).None?)
  }

  function TotalSize(ps: seq<Page>): nat
    decreases |ps|
  {
    if ps == [] then 0 else TotalSize(ps[..|ps| - 1]) + ps[|ps| - 1].size
  }

  function Items(ps: seq<Page>): seq<Row>
    requires forall p | p in ps :: p.rows.Some?
    decreases |ps|
  {
    if ps == [] then [] else Items(ps[..|ps| - 1]) + ps[|ps| - 1].rows.value
  }

  /** No cursor is met twice: not the one given, not one requested, not the one returned. */
  ghost predicate NoRepeat(after: Option<Cursor>, ps: seq<Page>) {
    forall i, j | 0 <= i < j <= |ps| && Requested(after, ps, i).Some? :: Requested(after, ps, i) != Requested(after, ps, j)
  }

  ghost predicate Acceptable(s: Service, after: Option<Cursor>, ps: seq<Page>) {
    && (forall p | p in ps :: ValidPage(s, p))
    && TotalSize(ps) <= MAXIMUM_SIZE
    && NoRepeat(after, ps)
  }

  predicate ValidRequest(s: Service, after: Option<Cursor>, pages: int) {
    1 <= pages <= 100 && (after.Some? ==> s.validCursor(after.value))
  }

  /** These are the pages of a successful listing. */
  ghost predicate Lists(s: Service, after: Option<Cursor>, pages: int, ps: seq<Page>) {
    ValidRequest(s, after, pages) && IsWalk(s, after, pages, ps) && Acceptable(s, after, ps)
  }

  ghost function Merged(after: Option<Cursor>, ps: seq<Page>): Listing
    requires ps != [] && forall p | p in ps :: p.rows.Some?
  {
    Listing(Items(ps), Requested(after, ps, |ps|), ps[0])
  }

  // ---------------------------------------------------------------- the loop

  /** The pages fetched so far, each of which names the next one. */
  ghost predicate Underway(s: Service, after: Option<Cursor>, done: seq<Page>) {
    && (forall i | 0 <= i < |done| :: s.get(Requested(after, done, i)) == Some(done[i]))
    && (forall i | 1 <= i <= |done| :: Requested(after, done, i).Some?)
    && Acceptable(s, after, done)
  }

  ghost predicate Seen(after: Option<Cursor>, done: seq<Page>, seen: set<Cursor>) {
    && (forall i | 0 <= i <= |done| && Requested(after, done, i).Some? :: Requested(after, done, i).value in seen)
    && (forall c | c in seen :: exists i :: 0 <= i <= |done| && Requested(after, done, i) == Some(c))
  }

  /** A successful listing starts with what was fetched and goes on with the next page. */
  lemma {:induction false} Continues(s: Service, after: Option<Cursor>, pages: int, done: seq<Page>, ps: seq<Page>)
    requires Underway(s, after, done) && Lists(s, after, pages, ps)
    requires |done| <= pages
    ensures done <= ps
    ensures |done| < pages ==> |done| < |ps| && s.get(Requested(after, done, |done|)) == Some(ps[|done|])
    decreases |done|
  {
    RequestsStart(after, done);
    RequestsStart(after, ps);
    hide Acceptable, Requested;
    if |done| > 0 {
      var front := done[..|done| - 1];
      UnderwayFront(s, after, done, |done| - 1);
      Continues(s, after, pages, front, ps);
      RequestsAgree(after, front, done);
      assert done == front + [ps[|done| - 1]];
      RequestsAgree(after, done, ps);
    }
  }

  lemma RequestsStart(after: Option<Cursor>, ps: seq<Page>)
    ensures Requested(after, ps, 0) == after
  {
  }

  lemma RequestsAgree(after: Option<Cursor>, a: seq<Page>, b: seq<Page>)
    requires a <= b
    ensures forall i | 0 <= i <= |a| :: Requested(after, b, i) == Requested(after, a, i)
  {
  }

  lemma UnderwayFront(s: Service, after: Option<Cursor>, done: seq<Page>, n: nat)
    requires Underway(s, after, done) && n <= |done|
    ensures Underway(s, after, done[..n])
  {
    var front := done[..n];
    forall i | 0 <= i <= n
      ensures Requested(after, front, i) == Requested(after, done, i)
    {
    }
    AcceptableFront(s, after, done, n);
  }

  lemma AcceptableFront(s: Service, after: Option<Cursor>, ps: seq<Page>, n: nat)
    requires Acceptable(s, after, ps) && n <= |ps|
    ensures Acceptable(s, after, ps[..n])
  {
    var front := ps[..n];
    assert ps == front + ps[n..];
    TotalSizeAppend(front, ps[n..]);
    forall i | 0 <= i <= n
      ensures Requested(after, front, i) == Requested(after, ps, i)
    {
    }
  }

  lemma {:induction false} TotalSizeAppend(a: seq<Page>, b: seq<Page>)
    ensures TotalSize(a + b) == TotalSize(a) + TotalSize(b)
    decreases |b|
  {
    if b == [] {
      assert a + b == a;
    } else {
      assert (a + b)[..|a + b| - 1] == a + b[..|b| - 1];
      TotalSizeAppend(a, b[..|b| - 1]);
    }
  }

  lemma {:induction false} ItemsAppend(a: seq<Page>, b: seq<Page>)
    requires (forall p | p in a :: p.rows.Some?) && forall p | p in b :: p.rows.Some?
    ensures Items(a + b) == Items(a) + Items(b)
    decreases |b|
  {
    if b == [] {
      assert a + b == a;
    } else {
      var front := b[..|b| - 1];
      assert (a + b)[..|a + b| - 1] == a + front;
      ItemsAppend(a, front);
      assert Items(a) + (Items(front) + b[|b| - 1].rows.value) == Items(a) + Items(front) + b[|b| - 1].rows.value;
    }
  }

  /** What the next page has to be for any listing to succeed. */
  lemma NextIsAcceptable(s: Service, after: Option<Cursor>, pages: int, done: seq<Page>)
    requires Underway(s, after, done) && |done| < pages
    ensures forall ps | Lists(s, after, pages, ps) ::
              && done <= ps && |done| < |ps|
              && s.get(Requested(after, done, |done|)) == Some(ps[|done|])
              && Acceptable(s, after, done + [ps[|done|]])
  {
    forall ps | Lists(s, after, pages, ps)
      ensures done <= ps && |done| < |ps|
      ensures s.get(Requested(after, done, |done|)) == Some(ps[|done|])
      ensures Acceptable(s, after, done + [ps[|done|]])
    {
      Continues(s, after, pages, done, ps);
      AcceptableFront(s, after, ps, |done| + 1);
      assert ps[..|done| + 1] == done + [ps[|done|]];
    }
  }

  /** Whether one more page keeps the pages acceptable, told by the loop's variables. */
  lemma AcceptsOneMore(s: Service, after: Option<Cursor>, done: seq<Page>, p: Page, seen: set<Cursor>)
    requires Underway(s, after, done) && Seen(after, done, seen)
    ensures Acceptable(s, after, done + [p]) <==>
            && ValidPage(s, p) && TotalSize(done) + p.size <= MAXIMUM_SIZE
            && (Continuation(p).Some? ==> Continuation(p).value !in seen)
    ensures TotalSize(done + [p]) == TotalSize(done) + p.size
  {
    var more := done + [p];
    assert more[..|done|] == done && more[|done|] == p;
    assert forall q :: q in more <==> q in done || q == p;
    NoRepeatOneMore(after, done, p, seen);
    hide NoRepeat, ValidPage, Seen;
  }

  lemma NoRepeatOneMore(after: Option<Cursor>, done: seq<Page>, p: Page, seen: set<Cursor>)
    requires NoRepeat(after, done) && Seen(after, done, seen)
    requires forall i | 1 <= i <= |done| :: Requested(after, done, i).Some?
    ensures NoRepeat(after, done + [p]) <==> (Continuation(p).Some? ==> Continuation(p).value !in seen)
  {
    var more := done + [p];
    RequestedOneMore(after, done, p);
    if Continuation(p).Some? && Continuation(p).value in seen {
      var i :| 0 <= i <= |done| && Requested(after, done, i) == Continuation(p);
      assert Requested(after, more, i) == Requested(after, more, |more|);
    }
  }

  lemma SeenOneMore(after: Option<Cursor>, done: seq<Page>, p: Page, seen: set<Cursor>)
    requires Seen(after, done, seen) && Continuation(p).Some?
    ensures Seen(after, done + [p], seen + {Continuation(p).value})
  {
    var more := done + [p];
    RequestedOneMore(after, done, p);
    forall c | c in seen + {Continuation(p).value}
      ensures exists i :: 0 <= i <= |more| && Requested(after, more, i) == Some(c)
    {
      if c in seen {
        var i :| 0 <= i <= |done| && Requested(after, done, i) == Some(c);
        assert Requested(after, more, i) == Some(c);
      }
    }
  }

  lemma UnderwayOneMore(s: Service, after: Option<Cursor>, done: seq<Page>, p: Page)
    requires Underway(s, after, done) && s.get(Requested(after, done, |done|)) == Some(p)
    requires Acceptable(s, after, done + [p])
    ensures Continuation(p).Some? ==> Underway(s, after, done + [p])
    ensures forall i | 0 <= i <= |done| :: s.get(Requested(after, done + [p], i)) == Some((done + [p])[i])
    ensures forall i | 1 <= i <= |done| :: Requested(after, done + [p], i).Some?
  {
    hide Acceptable, Requested;
    RequestedOneMore(after, done, p);
  }

  /** One more page does not change how the pages before it were requested. */
  lemma RequestedOneMore(after: Option<Cursor>, done: seq<Page>, p: Page)
    ensures forall i | 0 <= i <= |done| :: Requested(after, done + [p], i) == Requested(after, done, i)
    ensures Requested(after, done + [p], |done| + 1) == Continuation(p)
  {
  }

  /** These pages, and no others, make the successful listing. */
  ghost predicate OnlyListing(s: Service, after: Option<Cursor>, pages: int, ps: seq<Page>) {
    Lists(s, after, pages, ps) && forall other | Lists(s, after, pages, other) :: other == ps
  }

  /** A walk that the provider ends is the only one. */
  lemma Ended(s: Service, after: Option<Cursor>, pages: int, done: seq<Page>, p: Page)
    requires ValidRequest(s, after, pages) && |done| < pages
    requires Underway(s, after, done) && s.get(Requested(after, done, |done|)) == Some(p)
    requires Acceptable(s, after, done + [p]) && Continuation(p).None?
    ensures OnlyListing(s, after, pages, done + [p])
  {
    var more := done + [p];
    UnderwayOneMore(s, after, done, p);
    assert IsWalk(s, after, pages, more);
    forall ps | Lists(s, after, pages, ps)
      ensures ps == more
    {
      NextIsAcceptable(s, after, pages, done);
      assert ps[..|more|] == more;
      assert Requested(after, ps, |more|) == Continuation(p);
      assert |ps| == |more|;
    }
  }

  /** So is one with as many pages as were asked for. */
  lemma Full(s: Service, after: Option<Cursor>, pages: int, done: seq<Page>)
    requires ValidRequest(s, after, pages) && |done| == pages
    requires Underway(s, after, done)
    ensures OnlyListing(s, after, pages, done)
  {
    forall ps | Lists(s, after, pages, ps)
      ensures ps == done
    {
      Continues(s, after, pages, done, ps);
    }
  }

  lemma Begin(s: Service, after: Option<Cursor>, seen: set<Cursor>)
    requires after.Some? ==> seen == {after.value}
    requires after.None? ==> seen == {}
    ensures Underway(s, after, []) && Seen(after, [], seen)
    ensures Items([]) == [] && TotalSize([]) == 0
  {
    var none: seq<Page> := [];
    assert Requested(after, none, 0) == after;
  }

  lemma ItemsOneMore(done: seq<Page>, p: Page)
    requires p.rows.Some? && forall q | q in done :: q.rows.Some?
    ensures Items(done + [p]) == Items(done) + p.rows.value
  {
    assert (done + [p])[..|done|] == done;
  }

  /**
   * The listing succeeds exactly when the walk of the provider's pages is acceptable, and it then
   * returns those pages' rows in order.
   */
  method ListPages(s: Service, after: Option<Cursor>, pages: int) returns (r: Option<Listing>)
    ensures r.Some? <==> exists ps :: Lists(s, after, pages, ps)
    ensures forall ps | Lists(s, after, pages, ps) :: r == Some(Merged(after, ps))
  {
    hide Underway, Seen, Acceptable, IsWalk, TotalSize, Items;
    if !(1 <= pages <= 100) || (after.Some? && !s.validCursor(after.value)) {
      return None;
    }
    var items: seq<Row> := [];
    var seen: set<Cursor> := {};
    var continuation := after;
    if after.Some? {
      seen := seen + {after.value};
    }
    var first: Option<Page> := None;
    var size := 0;
    ghost var done: seq<Page> := [];
    Begin(s, after, seen);
    var page := 0;
    while page < pages
      invariant 0 <= page <= pages && |done| == page
      invariant continuation == Requested(after, done, page)
      invariant Underway(s, after, done) && Seen(after, done, seen)
      invariant forall p | p in done :: p.rows.Some?
      invariant items == Items(done) && size == TotalSize(done)
      invariant page > 0 ==> first == Some(done[0])
      decreases pages - page
    {
      var result := s.get(continuation);
      NextIsAcceptable(s, after, pages, done);
      if result.None? {
        return None;
      }
      var p := result.value;
      AcceptsOneMore(s, after, done, p, seen);
      size := size + p.size;
      if p.rows.None? || size > MAXIMUM_SIZE || |p.rows.value| > 50 || exists row | row in p.rows.value :: !s.validRow(row) {
        return None;
      }
      if p.next.Missing? || (!p.next.End? && (p.rows.value == [] || !p.next.More? || !s.validCursor(p.next.cursor))) {
        return None;
      }
      ItemsOneMore(done, p);
      items := items + p.rows.value;
      continuation := if p.next.More? then Some(p.next.cursor) else None;
      if page == 0 {
        first := Some(p);
      }
      if continuation.None? {
        Ended(s, after, pages, done, p);
        done := done + [p];
        break;
      }
      if continuation.value in seen {
        return None;
      }
      UnderwayOneMore(s, after, done, p);
      SeenOneMore(after, done, p, seen);
      seen := seen + {continuation.value};
      done := done + [p];
      page := page + 1;
    }
    if page == pages {
      Full(s, after, pages, done);
    }
    return Some(Listing(items, continuation, first.value));
  }

  // ---------------------------------------------------------------- resuming

  /** In a successful listing every request is made once, and the cursor returned was never requested. */
  lemma CursorsAreFresh(s: Service, after: Option<Cursor>, pages: int, ps: seq<Page>)
    requires Lists(s, after, pages, ps)
    ensures forall i, j | 0 <= i < j < |ps| :: Requested(after, ps, i) != Requested(after, ps, j)
    ensures Requested(after, ps, |ps|).Some? ==> forall i | 0 <= i < |ps| :: Requested(after, ps, i) != Requested(after, ps, |ps|)
  {
    forall i, j | 0 <= i < j < |ps|
      ensures Requested(after, ps, i) != Requested(after, ps, j)
    {
      assert Requested(after, ps, j).Some?;
    }
  }

  /** The cursors a walk meets: the one it starts with and those its pages name. */
  ghost predicate Meets(after: Option<Cursor>, ps: seq<Page>, c: Cursor) {
    exists i :: 0 <= i <= |ps| && Requested(after, ps, i) == Some(c)
  }

  /** No page of the second walk names a cursor that the first walk met. */
  ghost predicate Apart(after: Option<Cursor>, ps: seq<Page>, qs: seq<Page>) {
    forall i, c | 0 <= i < |qs| && Continuation(qs[i]) == Some(c) :: !Meets(after, ps, c)
  }

  /**
   * A listing of p + q pages is a listing of p pages, followed, unless the provider ended it
   * there, by a listing of q pages from the cursor that the first one returned.
   */
  lemma ListingSplits(s: Service, after: Option<Cursor>, p: int, q: int, all: seq<Page>)
    requires p >= 1 && q >= 1 && Lists(s, after, p + q, all)
    ensures |all| <= p ==> Lists(s, after, p, all)
    ensures |all| > p ==>
              && Lists(s, after, p, all[..p])
              && Requested(after, all[..p], p).Some?
              && Lists(s, Requested(after, all[..p], p), q, all[p..])
              && Merged(after, all).items == Merged(after, all[..p]).items + Merged(Requested(after, all[..p], p), all[p..]).items
              && Merged(after, all).next == Merged(Requested(after, all[..p], p), all[p..]).next
              && Merged(after, all).first == Merged(after, all[..p]).first
  {
    if |all| <= p {
      ShortListing(s, after, p, q, all);
    } else {
      hide Lists, Requested, Merged;
      var ps, qs := all[..p], all[p..];
      assert all == ps + qs;
      FrontIsWalk(s, after, p, q, all);
      BackIsWalk(s, after, p, q, ps, qs);
      RowsListed(s, after, p + q, all);
      MergedSplits(after, ps, qs);
    }
  }

  /** A listing that the provider has ended early is the one of fewer pages too. */
  lemma ShortListing(s: Service, after: Option<Cursor>, p: int, q: int, all: seq<Page>)
    requires p >= 1 && q >= 1 && Lists(s, after, p + q, all) && |all| <= p
    ensures Lists(s, after, p, all)
  {
    hide Acceptable, Requested;
  }

  lemma MergedSplits(after: Option<Cursor>, ps: seq<Page>, qs: seq<Page>)
    requires ps != [] && qs != []
    requires forall p | p in ps + qs :: p.rows.Some?
    ensures (forall p | p in ps :: p.rows.Some?) && forall p | p in qs :: p.rows.Some?
    ensures var all, c := ps + qs, Requested(after, ps, |ps|);
            && Merged(after, all).items == Merged(after, ps).items + Merged(c, qs).items
            && Merged(after, all).next == Merged(c, qs).next
            && Merged(after, all).first == Merged(after, ps).first
  {
    PartsIn(ps, qs);
    RequestsSplit(after, ps, qs);
    hide Requested;
    ItemsAppend(ps, qs);
    hide Items;
    assert Requested(after, ps + qs, |ps| + |qs|) == Requested(Requested(after, ps, |ps|), qs, |qs|);
  }

  lemma PartsIn(ps: seq<Page>, qs: seq<Page>)
    ensures (forall x | x in ps :: x in ps + qs) && forall x | x in qs :: x in ps + qs
  {
  }

  lemma RowsListed(s: Service, after: Option<Cursor>, pages: int, ps: seq<Page>)
    requires Lists(s, after, pages, ps)
    ensures forall p | p in ps :: p.rows.Some?
  {
    RowsPresent(s, after, ps);
  }

  lemma RowsPresent(s: Service, after: Option<Cursor>, ps: seq<Page>)
    requires Acceptable(s, after, ps)
    ensures forall p | p in ps :: p.rows.Some?
  {
  }

  lemma FrontIsWalk(s: Service, after: Option<Cursor>, p: int, q: int, all: seq<Page>)
    requires p >= 1 && q >= 1 && |all| > p && Lists(s, after, p + q, all)
    ensures Lists(s, after, p, all[..p])
  {
    hide Acceptable;
    var ps := all[..p];
    AcceptableFront(s, after, all, p);
    forall i | 0 <= i <= p
      ensures Requested(after, ps, i) == Requested(after, all, i)
    {
    }
  }

  lemma RequestsSplit(after: Option<Cursor>, ps: seq<Page>, qs: seq<Page>)
    requires ps != []
    ensures forall i | 0 <= i <= |ps| :: Requested(after, ps + qs, i) == Requested(after, ps, i)
    ensures forall i | 0 <= i <= |qs| :: Requested(after, ps + qs, |ps| + i) == Requested(Requested(after, ps, |ps|), qs, i)
  {
    forall i | 0 <= i <= |qs|
      ensures Requested(after, ps + qs, |ps| + i) == Requested(Requested(after, ps, |ps|), qs, i)
    {
      if i > 0 {
        assert (ps + qs)[|ps| + i - 1] == qs[i - 1];
      }
    }
  }

  lemma BackIsWalk(s: Service, after: Option<Cursor>, p: int, q: int, ps: seq<Page>, qs: seq<Page>)
    requires p >= 1 && q >= 1 && |ps| == p && qs != [] && Lists(s, after, p + q, ps + qs)
    ensures Requested(after, ps, p).Some? && Lists(s, Requested(after, ps, p), q, qs)
  {
    LastContinues(after, ps);
    hide TotalSize, ValidPage, Requested, IsWalk, NoRepeat;
    var all := ps + qs;
    TotalSizeAppend(ps, qs);
    assert all[p - 1] == ps[p - 1] && all[p - 1] in all;
    forall x | x in qs
      ensures x in all
    {
    }
    BackRequests(s, after, p, q, ps, qs);
    BackNoRepeat(after, p, ps, qs);
    LastIsValid(s, ps[p - 1]);
  }

  lemma LastContinues(after: Option<Cursor>, ps: seq<Page>)
    requires ps != []
    ensures Requested(after, ps, |ps|) == Continuation(ps[|ps| - 1])
  {
  }

  lemma LastIsValid(s: Service, p: Page)
    requires ValidPage(s, p) && Continuation(p).Some?
    ensures s.validCursor(Continuation(p).value)
  {
  }

  lemma BackRequests(s: Service, after: Option<Cursor>, p: int, q: int, ps: seq<Page>, qs: seq<Page>)
    requires p >= 1 && q >= 1 && |ps| == p && qs != [] && IsWalk(s, after, p + q, ps + qs)
    ensures Requested(after, ps, p).Some? && IsWalk(s, Requested(after, ps, p), q, qs)
  {
    hide Requested;
    var all, c := ps + qs, Requested(after, ps, p);
    RequestsSplit(after, ps, qs);
    assert Requested(after, all, p) == c && c.Some?;
    forall i | 0 <= i < |qs|
      ensures s.get(Requested(c, qs, i)) == Some(qs[i])
      ensures i >= 1 ==> Requested(c, qs, i).Some?
    {
      assert all[p + i] == qs[i] && Requested(after, all, p + i) == Requested(c, qs, i);
    }
    assert Requested(after, all, p + |qs|) == Requested(c, qs, |qs|);
  }

  lemma BackNoRepeat(after: Option<Cursor>, p: int, ps: seq<Page>, qs: seq<Page>)
    requires p >= 1 && |ps| == p && NoRepeat(after, ps + qs)
    ensures NoRepeat(Requested(after, ps, p), qs)
  {
    var all, c := ps + qs, Requested(after, ps, p);
    RequestsSplit(after, ps, qs);
    forall i, j | 0 <= i < j <= |qs| && Requested(c, qs, i).Some?
      ensures Requested(c, qs, i) != Requested(c, qs, j)
    {
      assert Requested(after, all, p + i) == Requested(c, qs, i) && Requested(after, all, p + j) == Requested(c, qs, j);
    }
  }

  /**
   * Resuming loses nothing but the cycle check and the size budget: two listings in a row make one
   * exactly when the second meets none of the first one's cursors again and both fit the budget.
   */
  lemma ListingsJoin(s: Service, after: Option<Cursor>, p: int, q: int, ps: seq<Page>, qs: seq<Page>)
    requires p + q <= 100
    requires Lists(s, after, p, ps) && Requested(after, ps, |ps|).Some?
    requires Lists(s, Requested(after, ps, |ps|), q, qs)
    ensures Lists(s, after, p + q, ps + qs) <==> Apart(after, ps, qs) && TotalSize(ps) + TotalSize(qs) <= MAXIMUM_SIZE
  {
    hide TotalSize;
    var all, c := ps + qs, Requested(after, ps, |ps|);
    RequestsSplit(after, ps, qs);
    TotalSizeAppend(ps, qs);
    assert |ps| == p;
    JoinIsWalk(s, after, p, q, ps, qs);
    assert forall x :: x in all <==> x in ps || x in qs;
    if NoRepeat(after, all) {
      ApartIfNoRepeat(after, ps, qs);
    }
    if Apart(after, ps, qs) {
      NoRepeatIfApart(after, ps, qs);
    }
  }

  /** A provider whose two pages name each other as the next. */
  function Circular(): Service {
    var row := Row(map[]);
    Service(
      (c: Option<Cursor>) =>
        if c == Some("x") then Some(Page(1, Some([row]), More("y")))
        else if c == Some("y") then Some(Page(1, Some([row]), More("x")))
        else None,
      (c: Cursor) => true, (r: Row) => true)
  }

  /** That both listings succeed is not enough: here each does, and together they go round in a circle. */
  lemma NotAllListingsJoin()
    ensures var s := Circular();
            exists ps, qs ::
              && Lists(s, Some("x"), 1, ps) && Requested(Some("x"), ps, 1) == Some("y")
              && Lists(s, Some("y"), 1, qs) && !Lists(s, Some("x"), 2, ps + qs)
  {
    var s := Circular();
    var p, q := s.get(Some("x")).value, s.get(Some("y")).value;
    assert "x" != "y" by { assert "x"[0] != "y"[0]; }
    assert Requested(Some("x"), [p], 1) == Some("y") && Requested(Some("y"), [q], 1) == Some("x");
    assert TotalSize([p]) == 1 && TotalSize([q]) == 1 by { assert [p][..0] == [] && [q][..0] == []; }
    assert Lists(s, Some("x"), 1, [p]);
    assert Lists(s, Some("y"), 1, [q]);
    assert Requested(Some("x"), [p] + [q], 0) == Requested(Some("x"), [p] + [q], 2);
    assert !NoRepeat(Some("x"), [p] + [q]);
  }

  lemma JoinIsWalk(s: Service, after: Option<Cursor>, p: int, q: int, ps: seq<Page>, qs: seq<Page>)
    requires p >= 1 && q >= 1 && |ps| == p
    requires IsWalk(s, after, p, ps) && Requested(after, ps, |ps|).Some?
    requires IsWalk(s, Requested(after, ps, |ps|), q, qs)
    ensures IsWalk(s, after, p + q, ps + qs)
  {
    hide Requested;
    var all, c := ps + qs, Requested(after, ps, |ps|);
    RequestsSplit(after, ps, qs);
    forall i | 0 <= i < |all|
      ensures s.get(Requested(after, all, i)) == Some(all[i])
      ensures i >= 1 ==> Requested(after, all, i).Some?
    {
      if i < p {
        assert Requested(after, all, i) == Requested(after, ps, i);
      } else {
        assert Requested(after, all, p + (i - p)) == Requested(c, qs, i - p);
      }
    }
    assert Requested(after, all, p + |qs|) == Requested(c, qs, |qs|);
  }

  lemma ApartIfNoRepeat(after: Option<Cursor>, ps: seq<Page>, qs: seq<Page>)
    requires ps != [] && NoRepeat(after, ps + qs)
    ensures Apart(after, ps, qs)
  {
    var all := ps + qs;
    RequestsSplit(after, ps, qs);
    forall i, c | 0 <= i < |qs| && Continuation(qs[i]) == Some(c)
      ensures !Meets(after, ps, c)
    {
      assert Requested(after, all, |ps| + (i + 1)) == Some(c);
    }
  }

  lemma NoRepeatIfApart(after: Option<Cursor>, ps: seq<Page>, qs: seq<Page>)
    requires ps != [] && NoRepeat(after, ps) && NoRepeat(Requested(after, ps, |ps|), qs)
    requires Apart(after, ps, qs)
    ensures NoRepeat(after, ps + qs)
  {
    var all, c := ps + qs, Requested(after, ps, |ps|);
    RequestsSplit(after, ps, qs);
    forall i, j | 0 <= i < j <= |all| && Requested(after, all, i).Some?
      ensures Requested(after, all, i) != Requested(after, all, j)
    {
      if j <= |ps| {
        assert Requested(after, all, i) == Requested(after, ps, i) && Requested(after, all, j) == Requested(after, ps, j);
      } else {
        var jj := j - |ps|;
        assert Requested(after, all, |ps| + jj) == Requested(c, qs, jj) == Continuation(qs[jj - 1]);
        if i <= |ps| {
          assert Requested(after, all, i) == Requested(after, ps, i);
          assert Meets(after, ps, Requested(after, ps, i).value);
        } else {
          var ii := i - |ps|;
          assert Requested(after, all, |ps| + ii) == Requested(c, qs, ii);
        }
      }
    }
  }
}
