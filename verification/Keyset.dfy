/** Keyset pages over the latest-version listing: the cursor conditions and orders of
    src/routes/discovery.js, the page assembly of src/pagination.js, and the walks they make. */
module Keyset {
  import opened Options
  import opened Sorting
  import opened KeysetPages

  datatype Sort = Recent | Updated | Downloads | Name

  /** One row of the listing, with the columns the four sorts read. Timestamps are whole
      microseconds, which is all the precision a timestamptz has. */
  datatype Row = Row(publishedAt: int, updatedAt: int, downloads: int, name: string,
                     namespace: string, extensionId: string)

  datatype Key = Number(n: int) | Text(s: string)

  datatype Cursor = Cursor(k: Key, ns: string, id: string)

  // ------------------------------------------------------------- ordering

  predicate TextLess(a: string, b: string) {
    if a == "" || b == "" then a == "" && b != ""
    else a[0] < b[0] || (a[0] == b[0] && TextLess(a[1..], b[1..]))
  }

  predicate KeyLess(a: Key, b: Key) {
    match (a, b)
    case (Number(m), Number(n)) => m < n
    case (Text(s), Text(t)) => TextLess(s, t)
    case (Number(_), Text(_)) => true
    case (Text(_), Number(_)) => false
  }

  predicate PairLess(ns: string, id: string, ns': string, id': string) {
    TextLess(ns, ns') || (ns == ns' && TextLess(id, id'))
  }

  function Column(sort: Sort, row: Row): Key {
    match sort
    case Recent => Number(row.publishedAt)
    case Updated => Number(row.updatedAt)
    case Downloads => Number(row.downloads)
    case Name => Text(row.name)
  }

  function SortKeyOf(sort: Sort, row: Row): Cursor {
    Cursor(Column(sort, row), row.namespace, row.extensionId)
  }

  /** SORT_ORDER: whether `a` comes before `b` in the displayed order. */
  predicate Before(sort: Sort, a: Row, b: Row) {
    var (x, y) := (Column(sort, a), Column(sort, b));
    if x != y then (if sort == Name then KeyLess(x, y) else KeyLess(y, x))
    else PairLess(a.namespace, a.extensionId, b.namespace, b.extensionId)
  }

  /** SORT_ORDER_BACK: every column the other way round. */
  predicate BeforeBack(sort: Sort, a: Row, b: Row) {
    var (x, y) := (Column(sort, a), Column(sort, b));
    if x != y then (if sort == Name then KeyLess(y, x) else KeyLess(x, y))
    else PairLess(b.namespace, b.extensionId, a.namespace, a.extensionId)
  }

  predicate InOrder(sort: Sort, back: bool, a: Row, b: Row) {
    if back then BeforeBack(sort, a, b) else Before(sort, a, b)
  }

  predicate CursorCondition(cursor: Cursor, sort: Sort, back: bool, row: Row) {
    var col := Column(sort, row);
    var ascending := sort == Name;
    var after := if ascending != back then KeyLess(cursor.k, col) else KeyLess(col, cursor.k);
    var tie := if back then PairLess(row.namespace, row.extensionId, cursor.ns, cursor.id)
               else PairLess(cursor.ns, cursor.id, row.namespace, row.extensionId);
    after || (col == cursor.k && tie)
  }

  lemma {:induction false} TextLessIsTotalOrder(a: string, b: string, c: string)
    ensures !(TextLess(a, b) && TextLess(b, a)) && !TextLess(a, a)
    ensures a == b || TextLess(a, b) || TextLess(b, a)
    ensures TextLess(a, b) && TextLess(b, c) ==> TextLess(a, c)
  {
    if a != "" && b != "" {
      TextLessIsTotalOrder(a[1..], b[1..], if c == "" then "" else c[1..]);
      assert a == [a[0]] + a[1..] && b == [b[0]] + b[1..];
    } else if a != "" {
      TextLessIsTotalOrder(a[1..], "", "");
    }
  }

  /** Where two texts first differ, the first has the smaller character or has ended. */
  ghost predicate TextBefore(a: string, b: string) {
    exists k: nat :: k <= |a| && k <= |b| && a[..k] == b[..k] && k < |b| && (k == |a| || a[k] < b[k])
  }

  lemma {:induction false} TextLessIsBefore(a: string, b: string)
    ensures TextLess(a, b) <==> TextBefore(a, b)
  {
    if a == "" || b == "" {
      if a == "" && b != "" {
        assert a[..0] == b[..0];
      }
    } else {
      TextLessIsBefore(a[1..], b[1..]);
      if a[0] < b[0] {
        assert a[..0] == b[..0];
      }
      if a[0] == b[0] && TextBefore(a[1..], b[1..]) {
        var k: nat :| k <= |a| - 1 && k <= |b| - 1 && a[1..][..k] == b[1..][..k] && k < |b| - 1 && (k == |a| - 1 || a[1..][k] < b[1..][k]);
        assert a[..k + 1] == [a[0]] + a[1..][..k] && b[..k + 1] == [b[0]] + b[1..][..k];
      }
      if TextBefore(a, b) {
        var k: nat :| k <= |a| && k <= |b| && a[..k] == b[..k] && k < |b| && (k == |a| || a[k] < b[k]);
        if k > 0 {
          assert a[..k][0] == a[0] && b[..k][0] == b[0];
          assert a[1..][..k - 1] == a[..k][1..] && b[1..][..k - 1] == b[..k][1..];
        }
      }
    }
  }

  /** Rows tied in the sort field go by namespace and then by id. */
  ghost predicate AddressBefore(a: Row, b: Row) {
    TextBefore(a.namespace, b.namespace) || (a.namespace == b.namespace && TextBefore(a.extensionId, b.extensionId))
  }

  /** The order a visitor sees: newest publication, newest update or most downloads first, or names
      from A to Z. */
  ghost predicate SeenBefore(sort: Sort, a: Row, b: Row) {
    match sort
    case Recent => a.publishedAt > b.publishedAt || (a.publishedAt == b.publishedAt && AddressBefore(a, b))
    case Updated => a.updatedAt > b.updatedAt || (a.updatedAt == b.updatedAt && AddressBefore(a, b))
    case Downloads => a.downloads > b.downloads || (a.downloads == b.downloads && AddressBefore(a, b))
    case Name => TextBefore(a.name, b.name) || (a.name == b.name && AddressBefore(a, b))
  }

  lemma BeforeIsSeen(sort: Sort, a: Row, b: Row)
    ensures Before(sort, a, b) <==> SeenBefore(sort, a, b)
  {
    hide TextLess, TextBefore;
    TextLessIsBefore(a.namespace, b.namespace);
    TextLessIsBefore(a.extensionId, b.extensionId);
    TextLessIsBefore(a.name, b.name);
    TextLessIsTotalOrder(a.name, b.name, "");
  }

  predicate SameAddress(a: Row, b: Row) {
    a.namespace == b.namespace && a.extensionId == b.extensionId
  }

  lemma KeyLessIsTotalOrder(a: Key, b: Key, c: Key)
    ensures !(KeyLess(a, b) && KeyLess(b, a))
    ensures a == b || KeyLess(a, b) || KeyLess(b, a)
    ensures KeyLess(a, b) && KeyLess(b, c) ==> KeyLess(a, c)
  {
    if a.Text? && b.Text? {
      TextLessIsTotalOrder(a.s, b.s, if c.Text? then c.s else "");
    }
  }

  /** The displayed order is a strict order that only rows of one address leave undecided, and
      the backward order is its mirror image. */
  lemma BeforeIsTotalOrder(sort: Sort, a: Row, b: Row, c: Row)
    ensures !(Before(sort, a, b) && Before(sort, b, a)) && !Before(sort, a, a)
    ensures SameAddress(a, b) || Before(sort, a, b) || Before(sort, b, a)
    ensures Before(sort, a, b) && Before(sort, b, c) ==> Before(sort, a, c)
    ensures BeforeBack(sort, a, b) <==> Before(sort, b, a)
  {
    KeyLessIsTotalOrder(Column(sort, a), Column(sort, b), Column(sort, c));
    KeyLessIsTotalOrder(Column(sort, b), Column(sort, c), Column(sort, a));
    KeyLessIsTotalOrder(Column(sort, c), Column(sort, b), Column(sort, a));
    TextLessIsTotalOrder(a.namespace, b.namespace, c.namespace);
    TextLessIsTotalOrder(b.namespace, c.namespace, a.namespace);
    TextLessIsTotalOrder(a.extensionId, b.extensionId, c.extensionId);
    TextLessIsTotalOrder(b.extensionId, c.extensionId, a.extensionId);
  }

  /** The filter is exactly "strictly after the cursor's row" in the order the query uses, for
      every sort and both directions. */
  lemma CursorConditionIsStrictlyAfter(sort: Sort, back: bool, anchor: Row, row: Row)
    ensures CursorCondition(SortKeyOf(sort, anchor), sort, back, row) <==> InOrder(sort, back, anchor, row)
    ensures CursorCondition(SortKeyOf(sort, anchor), sort, back, row)
       <==> if back then SeenBefore(sort, row, anchor) else SeenBefore(sort, anchor, row)
    ensures SortKeyOf(sort, anchor) == match sort {
              case Recent => Cursor(Number(anchor.publishedAt), anchor.namespace, anchor.extensionId)
              case Updated => Cursor(Number(anchor.updatedAt), anchor.namespace, anchor.extensionId)
              case Downloads => Cursor(Number(anchor.downloads), anchor.namespace, anchor.extensionId)
              case Name => Cursor(Text(anchor.name), anchor.namespace, anchor.extensionId)
            }
  {
    BeforeIsSeen(sort, anchor, row);
    BeforeIsSeen(sort, row, anchor);
    KeyLessIsTotalOrder(Column(sort, anchor), Column(sort, row), Column(sort, anchor));
    BeforeIsTotalOrder(sort, anchor, row, anchor);
  }

  // ------------------------------------------------------------- listings

  /** listLatestVersions over the rows its filters leave: one row per extension address. */
  function RegistryListing(table: seq<Row>, sort: Sort): Listing<Row, Cursor> {
    Listing(table,
            (back, a, b) => InOrder(sort, back, a, b),
            row => SortKeyOf(sort, row),
            (cursor, back, row) => CursorCondition(cursor, sort, back, row))
  }

  predicate OneRowPerAddress(table: seq<Row>) {
    forall i, j :: 0 <= i < j < |table| ==> !SameAddress(table[i], table[j])
  }

  lemma RegistryListingIsSound(table: seq<Row>, sort: Sort)
    requires OneRowPerAddress(table)
    ensures Sound(RegistryListing(table, sort))
  {
    var l := RegistryListing(table, sort);
    var less := OrderOf(l, false);
    forall a, b, c | a in table && b in table && c in table
      ensures !(less(a, b) && less(b, a))
      ensures a != b ==> less(a, b) || less(b, a)
      ensures less(a, b) && less(b, c) ==> less(a, c)
    {
      hide Before;
      BeforeIsTotalOrder(sort, a, b, c);
    }
    forall a, b | a in table && b in table
      ensures l.order(true, a, b) <==> l.order(false, b, a)
    {
      hide Before, BeforeBack;
      BeforeIsTotalOrder(sort, a, b, b);
    }
    forall a, b, back | a in table && b in table
      ensures l.after(l.keyOf(a), back, b) <==> l.order(back, a, b)
    {
      hide CursorCondition, InOrder;
      CursorConditionIsStrictlyAfter(sort, back, a, b);
    }
    hide Before, BeforeBack, CursorCondition;
  }

  lemma ListingOf(table: seq<Row>, sort: Sort)
    ensures RegistryListing(table, sort).table == table
    ensures forall a, b :: RegistryListing(table, sort).order(false, a, b) <==> Before(sort, a, b)
  {
  }

  lemma DisplayIsSeen(table: seq<Row>, sort: Sort)
    requires OneRowPerAddress(table)
    ensures var shown := Display(RegistryListing(table, sort));
            |shown| == |table| && forall i, j :: 0 <= i < j < |shown| ==> SeenBefore(sort, shown[i], shown[j])
  {
    var l := RegistryListing(table, sort);
    hide SeenBefore, Before, Sound, Display, RegistryListing;
    ListingOf(table, sort);
    RegistryListingIsSound(table, sort);
    DisplayFacts(l);
    forall i, j | 0 <= i < j < |Display(l)| ensures SeenBefore(sort, Display(l)[i], Display(l)[j]) {
      BeforeIsSeen(sort, Display(l)[i], Display(l)[j]);
    }
  }

  /** For every sort: a finished forward walk has shown each listed extension once, in the
      displayed order, and each `prev` link serves the page the walk came from. */
  lemma RegistryWalk(table: seq<Row>, sort: Sort, limit: nat, pages: seq<Page<Row, Cursor>>)
    requires OneRowPerAddress(table) && limit >= 1
    requires IsWalk(RegistryListing(table, sort), limit, pages)
    ensures |Collected(pages)| <= |table|
    ensures forall i, j :: 0 <= i < j < |Collected(pages)| ==> SeenBefore(sort, Collected(pages)[i], Collected(pages)[j])
    ensures pages[|pages| - 1].next == None ==> forall row :: row in Collected(pages) <==> row in table
    ensures forall j :: 0 < j < |pages| ==>
              && pages[j].prev.Some?
              && Serve(RegistryListing(table, sort), limit, Follow(pages[j].prev.value)) == pages[j - 1]
  {
    var l := RegistryListing(table, sort);
    hide RegistryListing, SeenBefore, Sound, IsWalk, Serve, Display;
    RegistryListingIsSound(table, sort);
    DisplayIsSeen(table, sort);
    DisplayFacts(l);
    WalkVisitsEveryRowOnce(l, limit, pages);
    var lo, hi := WalkWindows(l, limit, pages);
    assert l.table == table by {
      ListingOf(table, sort);
    }
    forall j | 0 < j < |pages|
      ensures pages[j].prev.Some? && Serve(l, limit, Follow(pages[j].prev.value)) == pages[j - 1]
    {
      PrevRetracesTheWalk(l, limit, pages, j);
    }
  }

  /** A row of the review queue, keyed on whole microseconds and the row id. */
  datatype Pending = Pending(createdAt: int, id: int)

  predicate Earlier(a: Pending, b: Pending) {
    a.createdAt < b.createdAt || (a.createdAt == b.createdAt && a.id < b.id)
  }

  predicate QueueCondition(cursor: Pending, back: bool, row: Pending) {
    if back
    then row.createdAt < cursor.createdAt || (row.createdAt == cursor.createdAt && row.id < cursor.id)
    else row.createdAt > cursor.createdAt || (row.createdAt == cursor.createdAt && row.id > cursor.id)
  }

  /** The pending queue of `GET /versions`; its cursor is the pair the order compares. */
  function PendingQueue(table: seq<Pending>): Listing<Pending, Pending> {
    Listing(table,
            (back, a, b) => if back then Earlier(b, a) else Earlier(a, b),
            row => row,
            (cursor, back, row) => QueueCondition(cursor, back, row))
  }

  lemma PendingQueueIsSound(table: seq<Pending>)
    requires forall i, j :: 0 <= i < j < |table| ==> table[i].id != table[j].id
    ensures Sound(PendingQueue(table))
  {
    var l := PendingQueue(table);
    var less := OrderOf(l, false);
    assert forall a, b :: less(a, b) <==> Earlier(a, b);
    assert forall a, b, back :: l.after(a, back, b) <==> l.order(back, a, b);
    assert forall a, b :: a in table && b in table && a != b ==> a.id != b.id;
  }

  lemma QueueOf(table: seq<Pending>)
    ensures PendingQueue(table).table == table
    ensures forall a, b :: PendingQueue(table).order(false, a, b)
                      <==> a.createdAt < b.createdAt || (a.createdAt == b.createdAt && a.id < b.id)
  {
    assert forall a, b :: PendingQueue(table).order(false, a, b) <==> Earlier(a, b);
  }

  lemma QueueIsSeen(table: seq<Pending>)
    requires forall i, j :: 0 <= i < j < |table| ==> table[i].id != table[j].id
    ensures Sound(PendingQueue(table))
    ensures var shown := Display(PendingQueue(table));
            && |shown| == |table| && (forall row :: row in shown <==> row in table)
            && forall i, j :: 0 <= i < j < |shown| ==>
                 shown[i].createdAt < shown[j].createdAt || (shown[i].createdAt == shown[j].createdAt && shown[i].id < shown[j].id)
  {
    hide Sound, Display, PendingQueue;
    QueueOf(table);
    PendingQueueIsSound(table);
    DisplayFacts(PendingQueue(table));
  }

  /** An admin who follows the queue sees every pending version once, the longest waiting first. */
  lemma QueueWalk(table: seq<Pending>, limit: nat, pages: seq<Page<Pending, Pending>>)
    requires (forall i, j :: 0 <= i < j < |table| ==> table[i].id != table[j].id) && limit >= 1
    requires IsWalk(PendingQueue(table), limit, pages)
    ensures forall i, j :: 0 <= i < j < |Collected(pages)| ==>
              var a, b := Collected(pages)[i], Collected(pages)[j];
              a.createdAt < b.createdAt || (a.createdAt == b.createdAt && a.id < b.id)
    ensures pages[|pages| - 1].next == None ==> forall row :: row in Collected(pages) <==> row in table
    ensures forall j :: 0 < j < |pages| ==>
              pages[j].prev.Some? && Serve(PendingQueue(table), limit, Follow(pages[j].prev.value)) == pages[j - 1]
  {
    var l := PendingQueue(table);
    hide Sound, IsWalk, Serve, Display, PendingQueue, Collected;
    QueueIsSeen(table);
    var shown := Display(l);
    WalkVisitsEveryRowOnce(l, limit, pages);
    var lo, hi := WalkWindows(l, limit, pages);
    forall j | 0 < j < |pages|
      ensures pages[j].prev.Some? && Serve(l, limit, Follow(pages[j].prev.value)) == pages[j - 1]
    {
      PrevRetracesTheWalk(l, limit, pages, j);
    }
  }
}
