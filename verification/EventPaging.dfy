/** Cursor paging over the event list (`pageAfter`, `listRecent`, apps/mcp/src/embedded-repos.ts). */
module EventPaging {
  import opened Options
  import opened Seqs

  /** `id` stands for the id's place in the order ids compare in. */
  datatype Row = Row(id: int, scope: string, createdAt: int, suppressed: bool)
  datatype Page = Page(items: seq<Row>, nextCursor: Option<int>)

  /** `a` is listed before `b`: createdAt descending, then id descending. */
  predicate Before(a: Row, b: Row) {
    a.createdAt > b.createdAt || (a.createdAt == b.createdAt && a.id > b.id)
  }

  predicate Listed(rows: seq<Row>) {
    forall i, j :: 0 <= i < j < |rows| ==> Before(rows[i], rows[j])
  }

  predicate UniqueIds(rows: seq<Row>) {
    forall i, j :: 0 <= i < j < |rows| ==> rows[i].id != rows[j].id
  }

  predicate Visible(row: Row, scope: string) {
    row.scope == scope && !row.suppressed
  }

  function InsertRow(sorted: seq<Row>, row: Row): seq<Row> {
    if sorted == [] || Before(sorted[|sorted| - 1], row) then sorted + [row]
    else InsertRow(sorted[..|sorted| - 1], row) + [sorted[|sorted| - 1]]
  }

  function OrderRows(rows: seq<Row>): seq<Row> {
    if rows == [] then [] else InsertRow(OrderRows(rows[..|rows| - 1]), rows[|rows| - 1])
  }

  /** Every visible row of a scope, in listing order. */
  function Listing(table: seq<Row>, scope: string): seq<Row> {
    OrderRows(Filter(table, (r: Row) => Visible(r, scope)))
  }

  function Anchor(table: seq<Row>, id: int): (i: nat)
    ensures i <= |table|
    ensures i < |table| ==> table[i].id == id
    ensures forall j :: 0 <= j < i ==> table[j].id != id
  {
    First(table, (r: Row) => r.id == id)
  }

  function Following(rows: seq<Row>, anchor: Row): seq<Row> {
    Filter(rows, (r: Row) => Before(anchor, r))
  }

  function FirstN<T>(s: seq<T>, n: nat): seq<T> {
    if |s| <= n then s else s[..n]
  }

  /** `pageAfter`: up to `limit + 1` rows strictly after the cursor's row; none if that row is gone. */
  function PageAfter(table: seq<Row>, scope: string, limit: nat, cursor: Option<int>): seq<Row> {
    if cursor.None? then FirstN(Listing(table, scope), limit + 1)
    else
      var i := Anchor(table, cursor.value);
      if i == |table| then [] else FirstN(Following(Listing(table, scope), table[i]), limit + 1)
  }

  /** `listRecent`: the extra row only says that there is more. */
  function ListRecent(table: seq<Row>, scope: string, limit: nat, cursor: Option<int>): Page
    requires limit >= 1
  {
    var rows := PageAfter(table, scope, limit, cursor);
    if |rows| > limit then Page(rows[..limit], Some(rows[limit - 1].id)) else Page(rows, None)
  }

  // ---------------------------------------------------------------- the listing

  lemma ListedMore(rows: seq<Row>, last: Row)
    requires Listed(rows) && forall i :: 0 <= i < |rows| ==> Before(rows[i], last)
    ensures Listed(rows + [last])
  {
  }

  lemma {:induction false} InsertPermutes(sorted: seq<Row>, row: Row)
    ensures multiset(InsertRow(sorted, row)) == multiset(sorted) + multiset{row}
  {
    if sorted != [] && !Before(sorted[|sorted| - 1], row) {
      var n := |sorted| - 1;
      InsertPermutes(sorted[..n], row);
      assert sorted == sorted[..n] + [sorted[n]];
    }
  }

  lemma {:induction false} InsertLists(sorted: seq<Row>, row: Row)
    requires Listed(sorted) && forall i :: 0 <= i < |sorted| ==> sorted[i].id != row.id
    ensures Listed(InsertRow(sorted, row))
  {
    if sorted == [] || Before(sorted[|sorted| - 1], row) {
      ListedMore(sorted, row);
    } else {
      var n := |sorted| - 1;
      var r := InsertRow(sorted[..n], row);
      InsertLists(sorted[..n], row);
      InsertPermutes(sorted[..n], row);
      forall i | 0 <= i < |r| ensures Before(r[i], sorted[n]) {
        assert r[i] in multiset(r);
        assert r[i] == row || r[i] in sorted[..n];
      }
      ListedMore(r, sorted[n]);
    }
  }

  lemma {:induction false} OrderPermutes(rows: seq<Row>)
    ensures multiset(OrderRows(rows)) == multiset(rows)
  {
    if rows != [] {
      var n := |rows| - 1;
      OrderPermutes(rows[..n]);
      InsertPermutes(OrderRows(rows[..n]), rows[n]);
      assert rows == rows[..n] + [rows[n]];
    }
  }

  lemma {:induction false} OrderLists(rows: seq<Row>)
    requires UniqueIds(rows)
    ensures Listed(OrderRows(rows))
  {
    if rows != [] {
      var n := |rows| - 1;
      var before := OrderRows(rows[..n]);
      OrderLists(rows[..n]);
      OrderPermutes(rows[..n]);
      forall i | 0 <= i < |before| ensures before[i].id != rows[n].id {
        assert before[i] in multiset(before);
        assert before[i] in rows[..n];
      }
      InsertLists(before, rows[n]);
    }
  }

  lemma {:induction false} VisibleUnique(table: seq<Row>, scope: string)
    requires UniqueIds(table)
    ensures UniqueIds(Filter(table, (r: Row) => Visible(r, scope)))
  {
    if table != [] {
      var n := |table| - 1;
      VisibleUnique(table[..n], scope);
      var r := Filter(table[..n], (r: Row) => Visible(r, scope));
      assert table == table[..n] + [table[n]];
      assert forall i :: 0 <= i < |r| ==> r[i] in table[..n];
    }
  }

  /** The listing holds exactly the visible rows of the scope, each once, in order. */
  lemma ListingIsExact(table: seq<Row>, scope: string)
    requires UniqueIds(table)
    ensures Listed(Listing(table, scope))
    ensures forall r :: r in Listing(table, scope) <==> r in table && Visible(r, scope)
  {
    var visible := Filter(table, (r: Row) => Visible(r, scope));
    VisibleUnique(table, scope);
    OrderLists(visible);
    OrderPermutes(visible);
    forall r ensures r in Listing(table, scope) <==> r in visible {
      assert r in Listing(table, scope) <==> r in multiset(Listing(table, scope));
      assert r in visible <==> r in multiset(visible);
    }
  }

  /** Two lists in order with the same rows are the same list. */
  lemma {:induction false} ListedIsUnique(a: seq<Row>, b: seq<Row>)
    requires Listed(a) && Listed(b) && forall r :: r in a <==> r in b
    ensures a == b
  {
    assert b != [] ==> b[0] in b;
    if a != [] {
      assert a[0] in b && b != [];
      assert b[0] in a;
      var i :| 0 <= i < |b| && b[i] == a[0];
      var j :| 0 <= j < |a| && a[j] == b[0];
      assert a[0] == b[0];
      forall r | r in a[1..] ensures r in b[1..] {
        var k :| 1 <= k < |a| && a[k] == r;
        assert r in b && r != b[0];
        var m :| 0 <= m < |b| && b[m] == r;
        assert b[1..][m - 1] == r;
      }
      forall r | r in b[1..] ensures r in a[1..] {
        var k :| 1 <= k < |b| && b[k] == r;
        assert r in a && r != a[0];
        var m :| 0 <= m < |a| && a[m] == r;
        assert a[1..][m - 1] == r;
      }
      ListedIsUnique(a[1..], b[1..]);
      assert a == [a[0]] + a[1..] && b == [b[0]] + b[1..];
    }
  }

  lemma FollowingConcat(a: seq<Row>, b: seq<Row>, anchor: Row)
    requires forall i :: 0 <= i < |a| ==> !Before(anchor, a[i])
    requires forall i :: 0 <= i < |b| ==> Before(anchor, b[i])
    ensures Following(a + b, anchor) == b
  {
    var after := (r: Row) => Before(anchor, r);
    FilterConcat(a, b, after);
    FilterNone(a, after);
    FilterAll(b, after);
  }

  /** In an ordered list, what follows one of its rows is the rest of the list. */
  lemma FollowingIsRest(rows: seq<Row>, k: nat)
    requires Listed(rows) && k < |rows|
    ensures Following(rows, rows[k]) == rows[k + 1..]
  {
    hide Following;
    assert rows == rows[..k + 1] + rows[k + 1..];
    FollowingConcat(rows[..k + 1], rows[k + 1..], rows[k]);
  }

  // ---------------------------------------------------------------- one page

  /** The row is to be listed after the cursor's, if there is a cursor. */
  predicate Due(table: seq<Row>, scope: string, cursor: Option<int>, row: Row) {
    && row in table && row.scope == scope && !row.suppressed
    && (cursor.None? || exists a :: a in table && a.id == cursor.value && Before(a, row))
  }

  lemma {:induction false} FollowingLists(rows: seq<Row>, anchor: Row)
    requires Listed(rows)
    ensures Listed(Following(rows, anchor))
  {
    if rows != [] {
      var n := |rows| - 1;
      FollowingLists(rows[..n], anchor);
      var r := Following(rows[..n], anchor);
      forall i | 0 <= i < |r| ensures Before(r[i], rows[n]) {
        assert r[i] in rows[..n];
      }
    }
  }

  /** All that is due, in order. */
  function AllDue(table: seq<Row>, scope: string, cursor: Option<int>): seq<Row> {
    if cursor.None? then Listing(table, scope)
    else
      var i := Anchor(table, cursor.value);
      if i == |table| then [] else Following(Listing(table, scope), table[i])
  }

  lemma AllDueAre(table: seq<Row>, scope: string, cursor: Option<int>)
    requires UniqueIds(table)
    ensures Listed(AllDue(table, scope, cursor))
    ensures forall row :: row in AllDue(table, scope, cursor) <==> Due(table, scope, cursor, row)
  {
    hide Listing;
    ListingIsExact(table, scope);
    if cursor.Some? {
      var i := Anchor(table, cursor.value);
      if i < |table| {
        FollowingLists(Listing(table, scope), table[i]);
        forall a | a in table && a.id == cursor.value ensures a == table[i] {
          var j :| 0 <= j < |table| && table[j] == a;
          assert j == i;
        }
      } else {
        forall a | a in table ensures a.id != cursor.value {
        }
      }
    }
  }

  /**
   * A page: the first `limit` of the rows that are due, by createdAt then id descending, and a
   * cursor to the last of them exactly when some are left. Nothing is due after a row that is gone.
   */
  ghost predicate PageLaw(table: seq<Row>, scope: string, limit: nat, cursor: Option<int>, page: Page) {
    var items := page.items;
    && (forall i, j :: 0 <= i < j < |items| ==>
          items[i].createdAt > items[j].createdAt || (items[i].createdAt == items[j].createdAt && items[i].id > items[j].id))
    && |items| <= limit
    && (forall row :: row in items ==> Due(table, scope, cursor, row))
    && (forall row :: Due(table, scope, cursor, row) && row !in items ==> |items| == limit && forall i :: 0 <= i < limit ==> Before(items[i], row))
    && if exists row :: Due(table, scope, cursor, row) && row !in items
       then items != [] && page.nextCursor == Some(items[|items| - 1].id) else page.nextCursor == None
  }

  lemma PageIs(table: seq<Row>, scope: string, limit: nat, cursor: Option<int>)
    requires UniqueIds(table) && limit >= 1
    ensures PageLaw(table, scope, limit, cursor, ListRecent(table, scope, limit, cursor))
  {
    hide Listing, Following, Due, AllDue, Anchor;
    var due := AllDue(table, scope, cursor);
    var page := ListRecent(table, scope, limit, cursor);
    AllDueAre(table, scope, cursor);
    PageOfDue(table, scope, limit, cursor);
    forall row | row in due && row !in page.items
      ensures |page.items| == limit && forall i :: 0 <= i < limit ==> Before(page.items[i], row)
    {
      var k :| 0 <= k < |due| && due[k] == row;
    }
    if |due| > limit {
      assert due[limit] in due;
      assert due[limit] !in page.items;
    }
  }

  lemma PageOfDue(table: seq<Row>, scope: string, limit: nat, cursor: Option<int>)
    requires limit >= 1
    ensures var due := AllDue(table, scope, cursor);
            ListRecent(table, scope, limit, cursor) ==
              if |due| > limit then Page(due[..limit], Some(due[limit - 1].id)) else Page(due, None)
  {
    hide Listing, Following, Anchor;
    var due := AllDue(table, scope, cursor);
    assert PageAfter(table, scope, limit, cursor) == FirstN(due, limit + 1);
    if |due| > limit { assert due[..limit + 1][..limit] == due[..limit]; }
  }

  // ---------------------------------------------------------------- paging while rows arrive

  /** Every visible row of `extra` is listed before every visible row of `base`. */
  predicate Newer(extra: seq<Row>, base: seq<Row>, scope: string) {
    forall a, b :: a in extra && b in base && Visible(a, scope) && Visible(b, scope) ==> Before(a, b)
  }

  lemma UniqueParts(base: seq<Row>, extra: seq<Row>)
    requires UniqueIds(base + extra)
    ensures UniqueIds(base) && UniqueIds(extra)
  {
    assert forall i :: 0 <= i < |base| ==> (base + extra)[i] == base[i];
    assert forall i :: 0 <= i < |extra| ==> (base + extra)[|base| + i] == extra[i];
  }

  /** Rows that arrived after are listed in front of the rows that were there. */
  lemma NewerInFront(base: seq<Row>, extra: seq<Row>, scope: string)
    requires UniqueIds(base + extra) && Newer(extra, base, scope)
    ensures Listing(base + extra, scope) == Listing(extra, scope) + Listing(base, scope)
  {
    UniqueParts(base, extra);
    ListingIsExact(base + extra, scope);
    ListingIsExact(base, scope);
    ListingIsExact(extra, scope);
    ListedIsUnique(Listing(base + extra, scope), Listing(extra, scope) + Listing(base, scope));
  }

  /**
   * A reader following the cursor: page k is read from the rows of `base` and the rows `extras[k]`
   * that arrived meanwhile.
   */
  function Walk(base: seq<Row>, extras: seq<seq<Row>>, scope: string, limit: nat, cursor: Option<int>): seq<Row>
    requires limit >= 1
  {
    if extras == [] then []
    else
      var page := ListRecent(base + extras[0], scope, limit, cursor);
      page.items + if page.nextCursor.Some? then Walk(base, extras[1..], scope, limit, page.nextCursor) else []
  }

  predicate Arrivals(base: seq<Row>, extras: seq<seq<Row>>, scope: string) {
    forall k :: 0 <= k < |extras| ==> UniqueIds(base + extras[k]) && Newer(extras[k], base, scope)
  }

  lemma AnchorFound(table: seq<Row>, row: Row)
    requires UniqueIds(table) && row in table
    ensures var i := Anchor(table, row.id); i < |table| && table[i] == row
  {
    var i :| 0 <= i < |table| && table[i] == row;
    assert table[i].id == row.id;
  }

  lemma RestAfter(front: seq<Row>, rows: seq<Row>, k: nat)
    requires Listed(front + rows) && 0 < k <= |rows|
    ensures Following(front + rows, rows[k - 1]) == rows[k..]
  {
    assert (front + rows)[|front| + k - 1] == rows[k - 1];
    FollowingIsRest(front + rows, |front| + k - 1);
    assert (front + rows)[|front| + k..] == rows[k..];
  }

  /** A page after the k-th row of the original listing starts at the next row, whatever arrived. */
  lemma PageContinues(base: seq<Row>, extra: seq<Row>, scope: string, limit: nat, k: nat)
    requires UniqueIds(base + extra) && Newer(extra, base, scope)
    requires 0 < k <= |Listing(base, scope)|
    ensures var rows := Listing(base, scope);
            PageAfter(base + extra, scope, limit, Some(rows[k - 1].id)) == FirstN(rows[k..], limit + 1)
  {
    hide Listing, Following, Newer, FirstN;
    var rows := Listing(base, scope);
    UniqueParts(base, extra);
    ListingIsExact(base, scope);
    assert rows[k - 1] in base;
    AnchorFound(base + extra, rows[k - 1]);
    ListingIsExact(base + extra, scope);
    NewerInFront(base, extra, scope);
    RestAfter(Listing(extra, scope), rows, k);
  }

  lemma PageShape(table: seq<Row>, scope: string, limit: nat, cursor: Option<int>, rest: seq<Row>)
    requires limit >= 1 && PageAfter(table, scope, limit, cursor) == FirstN(rest, limit + 1)
    ensures ListRecent(table, scope, limit, cursor)
         == if |rest| > limit then Page(rest[..limit], Some(rest[limit - 1].id)) else Page(rest, None)
  {
  }

  lemma OneReadLess(pages: nat, limit: nat)
    requires pages > 0
    ensures pages * limit == (pages - 1) * limit + limit
  {
  }

  lemma {:induction false} WalkContinues(base: seq<Row>, extras: seq<seq<Row>>, scope: string, limit: nat, k: nat)
    requires limit >= 1 && Arrivals(base, extras, scope)
    requires 0 < k < |Listing(base, scope)| <= k + |extras| * limit
    ensures Walk(base, extras, scope, limit, Some(Listing(base, scope)[k - 1].id)) == Listing(base, scope)[k..]
    decreases |extras|
  {
    hide Listing, PageAfter, ListRecent, Newer, UniqueIds;
    var rows := Listing(base, scope);
    assert extras != [];
    PageContinues(base, extras[0], scope, limit, k);
    PageShape(base + extras[0], scope, limit, Some(rows[k - 1].id), rows[k..]);
    if |rows| - k > limit {
      OneReadLess(|extras|, limit);
      assert rows[k..][..limit] == rows[k..k + limit] && rows[k..][limit - 1] == rows[k + limit - 1];
      WalkContinues(base, extras[1..], scope, limit, k + limit);
      assert rows[k..k + limit] + rows[k + limit..] == rows[k..];
    }
  }

  /**
   * Following the cursor from the start, with enough reads, gives the listing the first page was
   * read from: no row skipped, none repeated, whatever newer rows arrive between the pages.
   */
  lemma PagingIsExact(base: seq<Row>, extras: seq<seq<Row>>, scope: string, limit: nat)
    requires limit >= 1 && extras != [] && extras[0] == [] && Arrivals(base, extras, scope)
    requires |Listing(base, scope)| <= |extras| * limit
    ensures Walk(base, extras, scope, limit, None) == Listing(base, scope)
  {
    var rows := Listing(base, scope);
    assert base + extras[0] == base;
    PageShape(base, scope, limit, None, rows);
    if |rows| > limit {
      OneReadLess(|extras|, limit);
      WalkContinues(base, extras[1..], scope, limit, limit);
      assert rows[..limit] + rows[limit..] == rows;
    }
  }

  // ---------------------------------------------------------------- the clock that stamps rows

  /** `monotonicClock`. */
  class MonotonicClock {
    var last: int

    constructor ()
      ensures last == 0
    {
      last := 0;
    }

    method NowMs(now: int) returns (stamp: int)
      modifies this
      ensures stamp == last && stamp > old(last) && stamp >= now
      ensures now > old(last) ==> stamp == now
    {
      last := if now > last then now else last + 1;
      stamp := last;
    }
  }

  /** A row stamped after every other is listed first. */
  lemma StampedRowIsFirst(table: seq<Row>, row: Row, scope: string)
    requires UniqueIds(table + [row]) && forall r :: r in table ==> row.createdAt > r.createdAt
    requires Visible(row, scope)
    ensures Listing(table + [row], scope) == [row] + Listing(table, scope)
  {
    NewerInFront(table, [row], scope);
    OneRow(row, scope);
  }

  lemma OneRow(row: Row, scope: string)
    requires Visible(row, scope)
    ensures Listing([row], scope) == [row]
  {
    assert [row][..0] == [];
    assert Filter([row], (r: Row) => Visible(r, scope)) == [row];
    assert OrderRows([row]) == InsertRow([], row);
  }
}
