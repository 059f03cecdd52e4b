/** The pages of src/pagination.js over any keyset listing, and the walks their links make. */
module KeysetPages {
  import opened Bounds
  import opened Options
  import opened Sorting

  /** A collection served by keyset: its rows, the ORDER BY of each direction, the cursor a row
      is named by, and the cursor condition of each direction. */
  datatype Listing<!T, !K> = Listing(
    table: seq<T>,
    order: (bool, T, T) -> bool,
    keyOf: T -> K,
    after: (K, bool, T) -> bool)

  datatype Link<K> = Link(cursor: K, back: bool)

  datatype Page<T, K> = Page(data: seq<T>, next: Option<Link<K>>, prev: Option<Link<K>>)

  datatype Request<K> = Request(cursor: Option<K>, back: bool)

  function OrderOf<T, K>(l: Listing<T, K>, back: bool): (T, T) -> bool {
    (a, b) => l.order(back, a, b)
  }

  function ConditionOf<T, K>(l: Listing<T, K>, cursor: K, back: bool): T -> bool {
    row => l.after(cursor, back, row)
  }

  /** LIMIT limit + 1. */
  function Fetched<T>(s: seq<T>, limit: nat): seq<T> {
    if |s| <= limit + 1 then s else s[..limit + 1]
  }

  /** The over-fetching query behind every keyset route. */
  function Query<T, K>(l: Listing<T, K>, r: Request<K>, limit: nat): seq<T> {
    var rows := if r.cursor.Some? then Filter(l.table, ConditionOf(l, r.cursor.value, r.back)) else l.table;
    Fetched(SortBy(rows, OrderOf(l, r.back)), limit)
  }

  function KeysetPage<T, K>(rows: seq<T>, limit: nat, r: Request<K>, keyOf: T -> K): Page<T, K> {
    var surplus := |rows| > limit;
    var kept := if surplus then rows[..limit] else rows;
    var page := if r.back then Reverse(kept) else kept;
    var hasForward := |page| > 0 && if r.back then r.cursor.Some? else surplus;
    var hasBackward := |page| > 0 && if r.back then surplus else r.cursor.Some?;
    Page(page,
         if hasForward then Some(Link(keyOf(page[|page| - 1]), false)) else None,
         if hasBackward then Some(Link(keyOf(page[0]), true)) else None)
  }

  function Serve<T, K>(l: Listing<T, K>, limit: nat, r: Request<K>): Page<T, K> {
    KeysetPage(Query(l, r, limit), limit, r, l.keyOf)
  }

  function Follow<K>(link: Link<K>): Request<K> {
    Request(Some(link.cursor), link.back)
  }

  // ----------------------------------------------- what makes a listing sound

  /** The displayed order decides every pair of rows, the back order mirrors it, and each cursor
      condition means "strictly after the row the cursor names" in its direction's order. */
  ghost predicate Sound<T(!new), K(!new)>(l: Listing<T, K>) {
    && Distinct(l.table)
    && StrictTotal(l.table, OrderOf(l, false))
    && (forall a, b :: a in l.table && b in l.table ==> (l.order(true, a, b) <==> l.order(false, b, a)))
    && (forall a, b, back :: a in l.table && b in l.table ==>
          (l.after(l.keyOf(a), back, b) <==> l.order(back, a, b)))
  }

  function Display<T, K>(l: Listing<T, K>): seq<T> {
    SortBy(l.table, OrderOf(l, false))
  }

  lemma BackOrderIsTotal<T(!new), K(!new)>(l: Listing<T, K>)
    requires Sound(l)
    ensures StrictTotal(l.table, OrderOf(l, true))
  {
    var fwd, bwd := OrderOf(l, false), OrderOf(l, true);
    assert forall a, b :: a in l.table && b in l.table ==> (bwd(a, b) <==> fwd(b, a));
  }

  lemma DisplayFacts<T(!new), K(!new)>(l: Listing<T, K>)
    requires Sound(l)
    ensures Sorted(Display(l), OrderOf(l, false))
    ensures |Display(l)| == |l.table|
    ensures Distinct(Display(l)) && forall x :: x in Display(l) <==> x in l.table
    ensures forall i, j :: 0 <= i < |Display(l)| && 0 <= j < |Display(l)| ==>
              (l.order(false, Display(l)[i], Display(l)[j]) <==> i < j)
  {
    SortBySorts(l.table, OrderOf(l, false));
    SortByLength(l.table, OrderOf(l, false));
    var d, less := Display(l), OrderOf(l, false);
    forall i, j | 0 <= i < |d| && 0 <= j < |d| ensures less(d[i], d[j]) <==> i < j {
      assert d[i] in l.table && d[j] in l.table;
    }
  }

  /** Rows selected by a condition, sorted, are the display order's own stretch of those rows. */
  lemma SelectedStretch<T(!new), K(!new)>(l: Listing<T, K>, back: bool, rows: seq<T>, lo: nat, hi: nat)
    requires Sound(l) && lo <= hi <= |Display(l)|
    requires Distinct(rows) && forall x :: x in rows <==> x in Display(l)[lo..hi]
    ensures SortBy(rows, OrderOf(l, back)) ==
            if back then Reverse(Display(l)[lo..hi]) else Display(l)[lo..hi]
  {
    DisplayFacts(l);
    BackOrderIsTotal(l);
    var less, stretch := OrderOf(l, back), Display(l)[lo..hi];
    StrictTotalOnSubset(l.table, rows, less);
    SortBySorts(rows, less);
    var expected := if back then Reverse(stretch) else stretch;
    ReverseMembers(stretch);
    assert Sorted(stretch, OrderOf(l, false));
    if back {
      SortedReverse(stretch, OrderOf(l, false), less);
    }
    SortedIsUnique(SortBy(rows, less), expected, less);
  }

  /** A row is past the cursor exactly when it is displayed on that side of it. */
  lemma PastTheCursor<T(!new), K(!new)>(l: Listing<T, K>, i: nat, j: nat, back: bool)
    requires Sound(l) && i < |Display(l)| && j < |Display(l)|
    ensures ConditionOf(l, l.keyOf(Display(l)[i]), back)(Display(l)[j]) <==> if back then j < i else i < j
  {
    DisplayFacts(l);
    hide StrictTotal, Display, Distinct, Sorted;
    var d := Display(l);
    assert d[i] in l.table && d[j] in l.table;
    assert l.order(true, d[i], d[j]) <==> l.order(false, d[j], d[i]);
  }

  lemma StretchMembers<T(!new)>(d: seq<T>, condition: T -> bool, lo: nat, hi: nat)
    requires lo <= hi <= |d| && forall j :: 0 <= j < |d| ==> (condition(d[j]) <==> lo <= j < hi)
    ensures forall x :: x in d && condition(x) <==> x in d[lo..hi]
  {
    forall x | x in d[lo..hi] ensures x in d && condition(x) {
      var k :| 0 <= k < hi - lo && d[lo..hi][k] == x;
      assert d[lo + k] == x;
    }
    forall x | x in d && condition(x) ensures x in d[lo..hi] {
      var j :| 0 <= j < |d| && d[j] == x;
      assert d[lo..hi][j - lo] == x;
    }
  }

  lemma CursorSelects<T(!new), K(!new)>(l: Listing<T, K>, i: nat, back: bool, lo: nat, hi: nat)
    requires Sound(l) && i < |Display(l)|
    requires lo == (if back then 0 else i + 1) && hi == if back then i else |Display(l)|
    ensures var rows := Filter(l.table, ConditionOf(l, l.keyOf(Display(l)[i]), back));
            Distinct(rows) && forall x :: x in rows <==> x in Display(l)[lo..hi]
  {
    DisplayFacts(l);
    assert Distinct(l.table);
    hide Sound, Display, Filter, Sorted, ConditionOf, OrderOf, Distinct;
    var d := Display(l);
    var condition := ConditionOf(l, l.keyOf(d[i]), back);
    FilterMembers(l.table, condition);
    forall j | 0 <= j < |d| ensures condition(d[j]) <==> lo <= j < hi {
      PastTheCursor(l, i, j, back);
    }
    StretchMembers(d, condition, lo, hi);
  }

  lemma QueryFromCursor<T(!new), K(!new)>(l: Listing<T, K>, i: nat, back: bool, limit: nat)
    requires Sound(l) && i < |Display(l)|
    ensures
      var d := Display(l);
      var stretch := if back then Reverse(d[..i]) else d[i + 1..];
      Query(l, Request(Some(l.keyOf(d[i])), back), limit) == Fetched(stretch, limit)
  {
    hide Sound, Display, Filter, Distinct, Reverse;
    var d := Display(l);
    var (lo, hi) := if back then (0, i) else (i + 1, |d|);
    CursorSelects(l, i, back, lo, hi);
    SelectedStretch(l, back, Filter(l.table, ConditionOf(l, l.keyOf(d[i]), back)), lo, hi);
    assert d[0..i] == d[..i] && d[i + 1..|d|] == d[i + 1..];
  }

  lemma QueryFromEnd<T(!new), K(!new)>(l: Listing<T, K>, back: bool, limit: nat)
    requires Sound(l)
    ensures
      var stretch := if back then Reverse(Display(l)) else Display(l);
      Query(l, Request(None, back), limit) == Fetched(stretch, limit)
  {
    DisplayFacts(l);
    assert Display(l)[0..|Display(l)|] == Display(l);
    SelectedStretch(l, back, l.table, 0, |Display(l)|);
  }

  // ---------------------------------------------------------------- pages

  /** The page that shows rows `lo..hi` of the display order: a link each way exactly when rows
      lie that way, named by the page's own edge. */
  function Window<T, K>(l: Listing<T, K>, lo: nat, hi: nat): Page<T, K>
    requires lo <= hi <= |Display(l)|
  {
    var d := Display(l);
    Page(d[lo..hi],
         if lo < hi < |d| then Some(Link(l.keyOf(d[hi - 1]), false)) else None,
         if 0 < lo < hi then Some(Link(l.keyOf(d[lo]), true)) else None)
  }

  function Back(a: nat, b: nat): nat { if a < b then 0 else a - b }

  lemma ForwardPage<T, K>(s: seq<T>, limit: nat, r: Request<K>, keyOf: T -> K)
    requires limit >= 1 && !r.back
    ensures
      var n := Min(limit, |s|);
      KeysetPage(Fetched(s, limit), limit, r, keyOf) ==
      Page(s[..n],
           if n < |s| then Some(Link(keyOf(s[n - 1]), false)) else None,
           if n > 0 && r.cursor.Some? then Some(Link(keyOf(s[0]), true)) else None)
  {
    assert |s| > limit ==> Fetched(s, limit)[..limit] == s[..limit];
  }

  /** Walking out from the anchor and flipping the rows shows the stretch that ends at it. */
  lemma BackwardPage<T, K>(s: seq<T>, limit: nat, r: Request<K>, keyOf: T -> K)
    requires limit >= 1 && r.back
    ensures
      var from := Back(|s|, limit);
      KeysetPage(Fetched(Reverse(s), limit), limit, r, keyOf) ==
      Page(s[from..],
           if |s| > 0 && r.cursor.Some? then Some(Link(keyOf(s[|s| - 1]), false)) else None,
           if from > 0 then Some(Link(keyOf(s[from]), true)) else None)
  {
    var n := Min(limit, |s|);
    ReverseTake(s, n);
    assert |s| > limit ==> Fetched(Reverse(s), limit)[..limit] == Reverse(s)[..limit];
    assert Reverse(s)[..|s|] == Reverse(s);
  }

  /** The page `next` leads to starts at the first row its own page did not show. */
  lemma NextPage<T(!new), K(!new)>(l: Listing<T, K>, limit: nat, lo: nat, hi: nat)
    requires Sound(l) && limit >= 1 && lo < hi < |Display(l)|
    ensures Serve(l, limit, Follow(Window(l, lo, hi).next.value)) == Window(l, hi, Min(hi + limit, |Display(l)|))
  {
    hide Sound, Query, Display, KeysetPage;
    QueryFromCursor(l, hi - 1, false, limit);
    var d := Display(l);
    ForwardPage(d[hi..], limit, Follow(Window(l, lo, hi).next.value), l.keyOf);
    assert d[hi - 1 + 1..] == d[hi..];
    assert d[hi..][..Min(limit, |d| - hi)] == d[hi..Min(hi + limit, |d|)];
  }

  /** The page `prev` leads to ends right before its own page. */
  lemma PreviousPage<T(!new), K(!new)>(l: Listing<T, K>, limit: nat, lo: nat, hi: nat)
    requires Sound(l) && limit >= 1 && 0 < lo < hi <= |Display(l)|
    ensures Serve(l, limit, Follow(Window(l, lo, hi).prev.value)) == Window(l, Back(lo, limit), lo)
  {
    hide Sound, Query, Display, KeysetPage;
    QueryFromCursor(l, lo, true, limit);
    var d := Display(l);
    BackwardPage(d[..lo], limit, Follow(Window(l, lo, hi).prev.value), l.keyOf);
    assert d[..lo][Back(lo, limit)..] == d[Back(lo, limit)..lo];
  }

  lemma FirstPage<T(!new), K(!new)>(l: Listing<T, K>, limit: nat)
    requires Sound(l) && limit >= 1
    ensures Serve(l, limit, Request(None, false)) == Window(l, 0, Min(limit, |Display(l)|))
  {
    hide Sound, Query, Display, KeysetPage;
    QueryFromEnd(l, false, limit);
    ForwardPage(Display(l), limit, Request(None, false), l.keyOf);
  }

  /** `dir=back` without a cursor opens on the last rows of the list. */
  lemma LastPage<T(!new), K(!new)>(l: Listing<T, K>, limit: nat)
    requires Sound(l) && limit >= 1
    ensures Serve(l, limit, Request(None, true)) == Window(l, Back(|Display(l)|, limit), |Display(l)|)
  {
    hide Sound, Query, Display, KeysetPage;
    QueryFromEnd(l, true, limit);
    BackwardPage(Display(l), limit, Request(None, true), l.keyOf);
  }

  // ---------------------------------------------------------------- walks

  /** Pages a client collects by opening the list and following `next`. */
  ghost predicate IsWalk<T, K>(l: Listing<T, K>, limit: nat, pages: seq<Page<T, K>>) {
    && pages != [] && pages[0] == Serve(l, limit, Request(None, false))
    && forall j :: 0 <= j < |pages| - 1 ==>
         pages[j].next.Some? && pages[j + 1] == Serve(l, limit, Follow(pages[j].next.value))
  }

  /** The rows shown by `pages` full pages: pages * limit. */
  function Offset(pages: nat, limit: nat): nat {
    if pages == 0 then 0 else Offset(pages - 1, limit) + limit
  }

  function Collected<T, K>(pages: seq<Page<T, K>>): seq<T> {
    if pages == [] then [] else Collected(pages[..|pages| - 1]) + pages[|pages| - 1].data
  }

  lemma CollectedOneMore<T, K>(l: Listing<T, K>, pages: seq<Page<T, K>>, lo: nat, hi: nat)
    requires pages != [] && lo <= hi <= |Display(l)| && pages[|pages| - 1] == Window(l, lo, hi)
    requires Collected(pages[..|pages| - 1]) == Display(l)[..lo]
    ensures Collected(pages) == Display(l)[..hi]
  {
    hide Display;
    assert Display(l)[..lo] + Display(l)[lo..hi] == Display(l)[..hi];
  }

  /** The page after a window of a walk. */
  lemma WalkStep<T(!new), K(!new)>(l: Listing<T, K>, limit: nat, pages: seq<Page<T, K>>, j: nat, lo: nat, hi: nat)
    requires Sound(l) && limit >= 1 && IsWalk(l, limit, pages) && j + 1 < |pages|
    requires lo <= hi <= |Display(l)| && pages[j] == Window(l, lo, hi)
    ensures lo < hi < |Display(l)| && pages[j + 1] == Window(l, hi, Min(hi + limit, |Display(l)|))
  {
    hide Sound, Serve, Display;
    assert pages[j].next.Some?;
    NextPage(l, limit, lo, hi);
  }

  /** Every page of a walk is the window right after the rows collected before it. */
  lemma {:induction false} WalkWindows<T(!new), K(!new)>(l: Listing<T, K>, limit: nat, pages: seq<Page<T, K>>) returns (lo: nat, hi: nat)
    requires Sound(l) && limit >= 1 && IsWalk(l, limit, pages)
    ensures lo == Offset(|pages| - 1, limit) && hi == Min(lo + limit, |Display(l)|)
    ensures lo <= hi && (lo < hi || lo == 0)
    ensures pages[|pages| - 1] == Window(l, lo, hi)
    ensures Collected(pages) == Display(l)[..hi]
  {
    hide Sound, Serve, Display, Window;
    var last := |pages| - 1;
    if last == 0 {
      FirstPage(l, limit);
      lo, hi := 0, Min(limit, |Display(l)|);
      assert Collected(pages[..0]) == [];
    } else {
      WalkPrefix(l, limit, pages, last);
      hide Collected;
      var lo', hi' := WalkWindows(l, limit, pages[..last]);
      assert pages[..last][last - 1] == pages[last - 1];
      WalkStep(l, limit, pages, last - 1, lo', hi');
      lo, hi := hi', Min(hi' + limit, |Display(l)|);
    }
    CollectedOneMore(l, pages, lo, hi);
  }

  lemma WalkPrefix<T(!new), K(!new)>(l: Listing<T, K>, limit: nat, pages: seq<Page<T, K>>, n: nat)
    requires IsWalk(l, limit, pages) && 1 <= n <= |pages|
    ensures IsWalk(l, limit, pages[..n])
  {
  }

  lemma WalkPage<T(!new), K(!new)>(l: Listing<T, K>, limit: nat, pages: seq<Page<T, K>>, j: nat) returns (lo: nat, hi: nat)
    requires Sound(l) && limit >= 1 && IsWalk(l, limit, pages) && j < |pages|
    ensures lo == Offset(j, limit) && hi == Min(lo + limit, |Display(l)|)
    ensures lo <= hi && (lo < hi || j == 0)
    ensures pages[j] == Window(l, lo, hi)
  {
    hide Sound, Serve, Display;
    WalkPrefix(l, limit, pages, j + 1);
    lo, hi := WalkWindows(l, limit, pages[..j + 1]);
    assert pages[..j + 1][j] == pages[j];
  }

  /** Following `next` from the head never takes more pages than the rows need; when it ends it
      has shown the whole sorted list once, in order. */
  lemma WalkVisitsEveryRowOnce<T(!new), K(!new)>(l: Listing<T, K>, limit: nat, pages: seq<Page<T, K>>)
    requires Sound(l) && limit >= 1 && IsWalk(l, limit, pages)
    ensures Offset(|pages| - 1, limit) < |Display(l)| || |pages| == 1
    ensures pages[|pages| - 1].next == None ==> Collected(pages) == Display(l)
    ensures pages[|pages| - 1].next.Some? ==>
              IsWalk(l, limit, pages + [Serve(l, limit, Follow(pages[|pages| - 1].next.value))])
  {
    hide Sound, Serve, Display;
    var lo, hi := WalkWindows(l, limit, pages);
    assert Display(l)[..|Display(l)|] == Display(l);
  }

  /** Following `prev` from any page of a walk serves, link for link, the page before it. */
  lemma PrevRetracesTheWalk<T(!new), K(!new)>(l: Listing<T, K>, limit: nat, pages: seq<Page<T, K>>, j: nat)
    requires Sound(l) && limit >= 1 && IsWalk(l, limit, pages) && 0 < j < |pages|
    ensures pages[0].prev == None
    ensures pages[j].prev.Some? && Serve(l, limit, Follow(pages[j].prev.value)) == pages[j - 1]
  {
    hide Sound, Serve, Display;
    FirstPage(l, limit);
    var lo, hi := WalkPage(l, limit, pages, j);
    var lo', hi' := WalkPage(l, limit, pages, j - 1);
    PreviousPage(l, limit, lo, hi);
  }

  lemma {:induction false} CompleteWalkExists<T(!new), K(!new)>(l: Listing<T, K>, limit: nat, pages: seq<Page<T, K>>) returns (walk: seq<Page<T, K>>)
    requires Sound(l) && limit >= 1 && IsWalk(l, limit, pages)
    ensures IsWalk(l, limit, walk) && walk[|walk| - 1].next == None && Collected(walk) == Display(l)
    decreases |Display(l)| - |Collected(pages)|
  {
    hide Sound, Serve, Display;
    var lo, hi := WalkWindows(l, limit, pages);
    WalkVisitsEveryRowOnce(l, limit, pages);
    if pages[|pages| - 1].next == None {
      walk := pages;
    } else {
      var longer := pages + [Serve(l, limit, Follow(pages[|pages| - 1].next.value))];
      var lo', hi' := WalkWindows(l, limit, longer);
      assert lo' == lo + limit;
      walk := CompleteWalkExists(l, limit, longer);
    }
  }
}
