/** Offset pages of src/pagination.js over the version list of src/routes/packages.js, and the
    page size every listing reads. */
module OffsetPages {
  import opened Options
  import opened Decimal
  import opened JsText

  /** parseLimit: None is the 400 response. */
  function ParseLimit(raw: Option<string>, defaultLimit: nat, maxLimit: nat): (r: Option<nat>)
    requires 1 <= defaultLimit && 1 <= maxLimit
    ensures raw.None? ==> r == Some(defaultLimit)
    ensures raw.Some? && r.Some? ==> 1 <= r.value <= maxLimit
    ensures raw.Some? ==> (r.Some? <==> Trim(raw.value) != "" && IsDigits(Trim(raw.value)) && Parse(Trim(raw.value)) >= 1)
  {
    if raw.None? then Some(defaultLimit)
    else
      var digits := Trim(raw.value);
      if digits == "" || !IsDigits(digits) then None
      else
        var value := Parse(digits);
        if value < 1 then None else Some(if value < maxLimit then value else maxLimit)
  }

  /** Asking for n rows in plain decimal gets n rows, up to the maximum. */
  lemma ParseLimitOfNumeral(n: nat, defaultLimit: nat, maxLimit: nat)
    requires 1 <= defaultLimit && 1 <= maxLimit
    ensures ParseLimit(Some(Numeral(n)), defaultLimit, maxLimit)
            == if n == 0 then None else Some(if n < maxLimit then n else maxLimit)
  {
    ParseNumeral(n);
    assert Trim(Numeral(n)) == Numeral(n);
  }

  /** Cursors count rows from one, so a link never carries zero. */
  type Position = o: int | o >= 1 witness 1

  datatype Page<T> = Page(data: seq<T>, next: Option<Position>, prev: Option<Position>)

  function Slice<T>(rows: seq<T>, lo: nat, hi: nat): seq<T>
    requires lo <= hi
  {
    if hi <= |rows| then rows[lo..hi] else if lo <= |rows| then rows[lo..] else []
  }

  function OffsetPage<T>(page: seq<T>, limit: nat, offset: nat, total: nat): Page<T> {
    Page(page,
         if offset + |page| < total then Some(offset + |page| + 1) else None,
         if offset > 0 then Some(if offset - limit + 1 > 1 then offset - limit + 1 else 1) else None)
  }

  /** The version list route: `rows` is the caller's readable list, already sorted. */
  function Serve<T>(rows: seq<T>, limit: nat, cursor: Option<Position>): Page<T> {
    var offset := if cursor.Some? then cursor.value - 1 else 0;
    OffsetPage(Slice(rows, offset, offset + limit), limit, offset, |rows|)
  }

  /** What a client has after opening the list at `cursor` and following `next` to the end. */
  function Walk<T>(rows: seq<T>, limit: nat, cursor: Option<Position>): seq<T>
    requires limit >= 1
    decreases |rows| - (if cursor.Some? then cursor.value - 1 else 0)
  {
    var page := Serve(rows, limit, cursor);
    page.data + if page.next.Some? then Walk(rows, limit, page.next) else []
  }

  lemma {:induction false} WalkCollectsTheRest<T>(rows: seq<T>, limit: nat, cursor: Option<Position>)
    requires limit >= 1
    ensures
      var offset := if cursor.Some? then cursor.value - 1 else 0;
      Walk(rows, limit, cursor) == if offset <= |rows| then rows[offset..] else []
    decreases |rows| - (if cursor.Some? then cursor.value - 1 else 0)
  {
    var offset := if cursor.Some? then cursor.value - 1 else 0;
    var page := Serve(rows, limit, cursor);
    if page.next.Some? {
      var rest := offset + limit;
      assert page.data == rows[offset..rest] && page.next.value - 1 == rest;
      WalkCollectsTheRest(rows, limit, page.next);
      assert rows[offset..] == rows[offset..rest] + rows[rest..];
    }
  }

  /** `prev` shows the rows right before the page, and a page `next` led to has one that serves
      the page it came from. */
  lemma PrevUndoesNext<T>(rows: seq<T>, limit: nat, cursor: Option<Position>)
    requires limit >= 1 && Serve(rows, limit, cursor).next.Some?
    ensures
      var page := Serve(rows, limit, cursor);
      var prev := Serve(rows, limit, page.next).prev;
      && prev.Some?
      && Serve(rows, limit, prev) == page
      && Serve(rows, limit, prev).data == page.data
  {
  }

  /** From any offset, the rows before the page are those the `prev` page opens with. */
  lemma PrevEndsWhereThePageStarts<T>(rows: seq<T>, limit: nat, cursor: Position)
    requires limit >= 1 && 1 < cursor <= |rows|
    ensures
      var prev := Serve(rows, limit, Some(cursor)).prev;
      && prev.Some?
      && var start := if cursor - 1 < limit then 0 else cursor - 1 - limit;
         prev.value == start + 1 && rows[start..cursor - 1] <= Serve(rows, limit, prev).data
  {
    var start := if cursor - 1 < limit then 0 else cursor - 1 - limit;
    var data := Slice(rows, start, start + limit);
    assert data[..cursor - 1 - start] == rows[start..cursor - 1];
  }
}
