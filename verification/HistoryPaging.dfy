/** Paging through the report history, newest first. */
module HistoryPaging {
  import opened Wrappers

  /** A report row, ordered by creation time and then by identifier. */
  datatype Row = Row(time: int, id: nat)

  datatype Page = Page(items: seq<Row>, next: Option<Row>)

  predicate Newer(a: Row, b: Row) {
    a.time > b.time || (a.time == b.time && a.id > b.id)
  }

  /** Any two rows are ordered one way, by time, and by identifier among rows of one time; so every
      set of rows has exactly one order as the query gives it. */
  lemma RowsAreOrdered(a: Row, b: Row, c: Row)
    ensures a != b ==> (Newer(a, b) <==> !Newer(b, a))
    ensures !Newer(a, a) && (Newer(a, b) && Newer(b, c) ==> Newer(a, c))
    ensures Newer(a, b) ==> a.time >= b.time
    ensures a.time == b.time && Newer(a, b) ==> a.id > b.id
  {
  }

  /** The table as the query orders it: strictly newest first. */
  ghost predicate Ordered(rows: seq<Row>) {
    forall i, j :: 0 <= i < j < |rows| ==> Newer(rows[i], rows[j])
  }

  /** The rows older than the cursor. */
  function Older(rows: seq<Row>, cursor: Option<Row>): seq<Row> {
    if cursor.None? then rows
    else if rows == [] then []
    else (if Newer(cursor.value, rows[0]) then [rows[0]] else []) + Older(rows[1..], cursor)
  }

  function Take(rows: seq<Row>, n: nat): seq<Row> {
    if |rows| <= n then rows else rows[..n]
  }

  /** A page as the service returns it: the cursor is the row fetched to see whether there is
      more, which is itself not returned. */
  function PageOf(rows: seq<Row>, limit: nat, cursor: Option<Row>): Page {
    var fetched := Take(Older(rows, cursor), limit + 1);
    if |fetched| > limit then Page(fetched[..limit], Some(fetched[limit])) else Page(fetched, None)
  }

  method History(rows: seq<Row>, limit: int, cursor: Option<Row>) returns (r: Result<Page, ()>)
    ensures r.Ok? <==> 1 <= limit <= 100
    ensures r.Ok? ==> r.value == PageOf(rows, limit, cursor)
  {
    if limit < 1 || limit > 100 {
      return Err(());
    }
    var records := Take(Older(rows, cursor), limit + 1);
    var next: Option<Row> := None;
    if |records| > limit {
      var last := records[|records|-1];
      records := records[..|records|-1];
      next := Some(last);
    }
    return Ok(Page(records, next));
  }

  lemma {:induction false} OlderThanAt(rows: seq<Row>, p: nat)
    requires Ordered(rows) && p < |rows|
    ensures Older(rows, Some(rows[p])) == rows[p+1..]
  {
    if p == 0 {
      OlderThanAll(rows[1..], rows[0]);
    } else {
      assert Newer(rows[0], rows[p]);
      assert Ordered(rows[1..]);
      OlderThanAt(rows[1..], p - 1);
      assert rows[1..][p-1] == rows[p];
    }
  }

  lemma {:induction false} OlderThanAll(rows: seq<Row>, c: Row)
    requires forall i :: 0 <= i < |rows| ==> Newer(c, rows[i])
    ensures Older(rows, Some(c)) == rows
  {
    if rows != [] {
      OlderThanAll(rows[1..], c);
    }
  }

  /** The same page with the cursor taken from the last row returned. */
  function FixedPageOf(rows: seq<Row>, limit: nat, cursor: Option<Row>): Page
    requires limit >= 1
  {
    var fetched := Take(Older(rows, cursor), limit + 1);
    if |fetched| > limit then Page(fetched[..limit], Some(fetched[limit-1])) else Page(fetched, None)
  }

  /** The page after a cursor, in terms of the table. */
  lemma PageAt(rows: seq<Row>, limit: nat, cursor: Option<Row>, start: nat)
    requires start <= |rows| && Older(rows, cursor) == rows[start..]
    ensures PageOf(rows, limit, cursor) ==
      if |rows| - start > limit then Page(rows[start..start+limit], Some(rows[start + limit])) else Page(rows[start..], None)
    ensures limit >= 1 ==> (FixedPageOf(rows, limit, cursor) ==
      if |rows| - start > limit then Page(rows[start..start+limit], Some(rows[start + limit - 1])) else Page(rows[start..], None))
  {
  }

  /** Every page from a cursor on; `start` is where the rows older than the cursor begin. */
  ghost function Walk(rows: seq<Row>, limit: nat, cursor: Option<Row>, start: nat): seq<Row>
    requires Ordered(rows) && start <= |rows| && Older(rows, cursor) == rows[start..]
    decreases |rows| - start
  {
    var page := PageOf(rows, limit, cursor);
    if page.next.None? then page.items
    else
      assert page.next.value == rows[start + limit];
      OlderThanAt(rows, start + limit);
      page.items + Walk(rows, limit, page.next, start + limit + 1)
  }

  /** All rows a reader sees who follows the cursors from the first page. */
  ghost function AllPages(rows: seq<Row>, limit: nat): seq<Row>
    requires Ordered(rows)
  {
    Walk(rows, limit, None, 0)
  }

  /** The rows without every one fetched as a cursor. */
  function Seen(rows: seq<Row>, limit: nat): (r: seq<Row>) {
    if |rows| <= limit then rows else rows[..limit] + Seen(rows[limit+1..], limit)
  }

  lemma {:induction false} WalkSeesSeen(rows: seq<Row>, limit: nat, cursor: Option<Row>, start: nat)
    requires Ordered(rows) && start <= |rows| && Older(rows, cursor) == rows[start..]
    ensures Walk(rows, limit, cursor, start) == Seen(rows[start..], limit)
    decreases |rows| - start
  {
    hide Older, Newer, Walk, Seen, Ordered;
    WalkStep(rows, limit, cursor, start);
    SeenStep(rows, start, limit);
    if |rows| - start > limit {
      WalkSeesSeen(rows, limit, Some(rows[start + limit]), start + limit + 1);
    }
  }

  /** One page of the walk. */
  lemma WalkStep(rows: seq<Row>, limit: nat, cursor: Option<Row>, start: nat)
    requires Ordered(rows) && start <= |rows| && Older(rows, cursor) == rows[start..]
    ensures |rows| - start <= limit ==> Walk(rows, limit, cursor, start) == rows[start..]
    ensures |rows| - start > limit ==>
      var next := Some(rows[start + limit]);
      && Older(rows, next) == rows[start+limit+1..]
      && Walk(rows, limit, cursor, start) == rows[start..start+limit] + Walk(rows, limit, next, start + limit + 1)
  {
    PageAt(rows, limit, cursor, start);
    hide Older, Newer, PageOf;
    if |rows| - start > limit {
      OlderThanAt(rows, start + limit);
    }
  }

  lemma SeenStep(rows: seq<Row>, start: nat, limit: nat)
    requires start <= |rows|
    ensures start + limit >= |rows| ==> Seen(rows[start..], limit) == rows[start..]
    ensures start + limit < |rows| ==> Seen(rows[start..], limit) == rows[start..start+limit] + Seen(rows[start+limit+1..], limit)
  {
  }

  /** Position `j` closes a block of `limit + 1` rows. */
  predicate ClosesBlock(limit: nat, j: nat) {
    (j + 1) % (limit + 1) == 0
  }

  lemma {:induction false} BlockStep(limit: nat, j: nat)
    ensures j < limit ==> !ClosesBlock(limit, j)
    ensures ClosesBlock(limit, limit)
    ensures ClosesBlock(limit, j + limit + 1) <==> ClosesBlock(limit, j)
  {
    var m := limit + 1;
    if j < limit {
      assert (j + 1) % m == j + 1 by { SmallMod(j + 1, m); }
    }
    AddMod(j + 1, m);
  }

  lemma SmallMod(x: nat, m: nat)
    requires x < m
    ensures x % m == x && x / m == 0
  {
  }

  lemma {:induction false} AddMod(x: nat, m: nat)
    requires m > 0
    ensures (x + m) % m == x % m && (x + m) / m == x / m + 1
  {
    var q, r := x / m, x % m;
    assert x + m == (q + 1) * m + r;
    DivModUnique(x + m, m, q + 1, r);
  }

  lemma {:induction false} DivModUnique(x: nat, m: nat, q: nat, r: nat)
    requires m > 0 && x == q * m + r && r < m
    ensures x / m == q && x % m == r
  {
    var d := x / m - q;
    assert d * m == r - x % m;
    MultipleBound(d, m);
  }

  lemma MultipleBound(d: int, m: int)
    requires m > 0
    ensures d >= 1 ==> d * m >= m
    ensures d <= -1 ==> d * m <= -m
  {
  }

  /** Which positions of the table are seen, how many are not, and in what order. */
  lemma {:induction false} SeenPositions(rows: seq<Row>, limit: nat)
    requires Ordered(rows)
    ensures forall j :: 0 <= j < |rows| ==> (rows[j] in Seen(rows, limit) <==> !ClosesBlock(limit, j))
    ensures |Seen(rows, limit)| == |rows| - |rows| / (limit + 1)
    ensures Ordered(Seen(rows, limit)) && forall r :: r in Seen(rows, limit) ==> r in rows
  {
    var n, m := |rows|, limit + 1;
    if n <= limit {
      SmallMod(n, m);
      forall j | 0 <= j < n ensures !ClosesBlock(limit, j) {
        BlockStep(limit, j);
      }
    } else {
      var rest := rows[m..];
      SeenPositions(rest, limit);
      AddMod(n - m, m);
      forall j | 0 <= j < n ensures rows[j] in Seen(rows, limit) <==> !ClosesBlock(limit, j) {
        SeenAt(rows, rest, limit, j);
      }
      hide ClosesBlock;
      SeenOrdered(rows, rest, limit);
    }
  }

  lemma SeenOrdered(rows: seq<Row>, rest: seq<Row>, limit: nat)
    requires Ordered(rows) && limit < |rows| && rest == rows[limit+1..]
    requires Ordered(Seen(rest, limit)) && forall r :: r in Seen(rest, limit) ==> r in rest
    ensures Ordered(Seen(rows, limit))
  {
    hide Newer;
    var seen := Seen(rows, limit);
    forall i, j | 0 <= i < j < |seen| ensures Newer(seen[i], seen[j]) {
      if i < limit <= j {
        assert seen[j] in rest;
        var k :| 0 <= k < |rest| && rest[k] == seen[j];
        assert seen[i] == rows[i] && seen[j] == rows[limit + 1 + k];
      }
    }
  }

  /** In an ordered table a row lies in a slice exactly when its position does. */
  lemma SliceMember(rows: seq<Row>, lo: nat, hi: nat, j: nat)
    requires Ordered(rows) && lo <= hi <= |rows| && j < |rows|
    ensures rows[j] in rows[lo..hi] <==> lo <= j < hi
  {
  }

  lemma InJoin(a: seq<Row>, b: seq<Row>, r: Row)
    ensures r in a + b <==> r in a || r in b
  {
  }

  lemma {:induction false} SeenAt(rows: seq<Row>, rest: seq<Row>, limit: nat, j: nat)
    requires Ordered(rows) && limit < |rows| && j < |rows| && rest == rows[limit+1..]
    requires forall i :: 0 <= i < |rest| ==> (rest[i] in Seen(rest, limit) <==> !ClosesBlock(limit, i))
    requires forall r :: r in Seen(rest, limit) ==> r in rest
    ensures rows[j] in Seen(rows, limit) <==> !ClosesBlock(limit, j)
  {
    var m := limit + 1;
    SliceMember(rows, 0, limit, j);
    SliceMember(rows, m, |rows|, j);
    hide ClosesBlock, Newer, Ordered;
    assert rows[0..limit] == rows[..limit] && rows[m..|rows|] == rest;
    assert Seen(rows, limit) == rows[..limit] + Seen(rest, limit);
    InJoin(rows[..limit], Seen(rest, limit), rows[j]);
    hide Seen;
    if j <= limit {
      BlockStep(limit, j);
    } else {
      BlockStep(limit, j - m);
      assert rest[j - m] == rows[j];
    }
  }

  /** Following the cursors shows the rows strictly newest first and never twice, and leaves out
      exactly the rows at zero-based positions k * (limit + 1) - 1: one in every `limit + 1`. */
  lemma PagingOmitsBlockEnds(rows: seq<Row>, limit: nat)
    requires Ordered(rows)
    ensures Ordered(AllPages(rows, limit))
    ensures forall j :: 0 <= j < |rows| ==> (rows[j] in AllPages(rows, limit) <==> (j + 1) % (limit + 1) != 0)
    ensures |rows| - |AllPages(rows, limit)| == |rows| / (limit + 1)
  {
    assert rows[0..] == rows;
    WalkSeesSeen(rows, limit, None, 0);
    SeenPositions(rows, limit);
    forall j | 0 <= j < |rows| ensures rows[j] in AllPages(rows, limit) <==> (j + 1) % (limit + 1) != 0 {
      assert rows[j] in Seen(rows, limit) <==> !ClosesBlock(limit, j);
    }
  }

  /** So nothing is left out if and only if everything fits on one page. */
  lemma PagingIsCompleteIff(rows: seq<Row>, limit: nat)
    requires Ordered(rows)
    ensures AllPages(rows, limit) == rows <==> |rows| <= limit
  {
    PagingOmitsBlockEnds(rows, limit);
    assert rows[0..] == rows;
    WalkSeesSeen(rows, limit, None, 0);
    if |rows| > limit {
      BlockStep(limit, limit);
      assert rows[limit] !in AllPages(rows, limit);
    }
  }

  // ----- The cursor taken from the last row returned -----

  ghost function FixedWalk(rows: seq<Row>, limit: nat, cursor: Option<Row>, start: nat): seq<Row>
    requires limit >= 1 && Ordered(rows) && start <= |rows| && Older(rows, cursor) == rows[start..]
    decreases |rows| - start
  {
    var page := FixedPageOf(rows, limit, cursor);
    if page.next.None? then page.items
    else
      assert page.next.value == rows[start + limit - 1];
      OlderThanAt(rows, start + limit - 1);
      page.items + FixedWalk(rows, limit, page.next, start + limit)
  }

  lemma JoinSlices(rows: seq<Row>, start: nat, n: nat)
    requires start + n <= |rows|
    ensures rows[start..] == rows[start..start+n] + rows[start+n..]
  {
  }

  /** With the cursor taken from the last returned row, the pages join up to the whole table. */
  lemma {:induction false} FixedPagingIsComplete(rows: seq<Row>, limit: nat, cursor: Option<Row>, start: nat)
    requires limit >= 1 && Ordered(rows) && start <= |rows| && Older(rows, cursor) == rows[start..]
    ensures FixedWalk(rows, limit, cursor, start) == rows[start..]
    decreases |rows| - start
  {
    hide Older, Newer, Ordered, FixedWalk;
    FixedWalkStep(rows, limit, cursor, start);
    if |rows| - start > limit {
      FixedPagingIsComplete(rows, limit, Some(rows[start + limit - 1]), start + limit);
      JoinSlices(rows, start, limit);
    }
  }

  /** One page of the corrected walk. */
  lemma FixedWalkStep(rows: seq<Row>, limit: nat, cursor: Option<Row>, start: nat)
    requires limit >= 1 && Ordered(rows) && start <= |rows| && Older(rows, cursor) == rows[start..]
    ensures |rows| - start <= limit ==> FixedWalk(rows, limit, cursor, start) == rows[start..]
    ensures |rows| - start > limit ==>
      var next := Some(rows[start + limit - 1]);
      && Older(rows, next) == rows[start+limit..]
      && FixedWalk(rows, limit, cursor, start) == rows[start..start+limit] + FixedWalk(rows, limit, next, start + limit)
  {
    PageAt(rows, limit, cursor, start);
    hide Older, Newer, FixedPageOf;
    if |rows| - start > limit {
      OlderThanAt(rows, start + limit - 1);
    }
  }
}
