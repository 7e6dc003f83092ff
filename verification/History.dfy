/** Cursor pagination of a user's analysis results. */
module History {
  import opened Wrappers

  // A row of `analysis_results`.
  datatype Row = Row(id: nat, user: nat, feature: nat, created: int, deleted: bool)

  // Whose results a request lists; `feature` is the optional filter.
  datatype Query = Query(user: nat, feature: Option<nat>)

  datatype Page = Page(items: seq<Row>, nextCursor: Option<nat>, hasMore: bool)

  predicate Matches(q: Query, r: Row) {
    r.user == q.user && !r.deleted && (q.feature.Some? ==> r.feature == q.feature.value)
  }

  function Select(table: seq<Row>, q: Query): seq<Row> {
    if table == [] then []
    else (if Matches(q, table[0]) then [table[0]] else []) + Select(table[1..], q)
  }

  function OlderThan(rows: seq<Row>, t: int): seq<Row> {
    if rows == [] then []
    else (if rows[0].created < t then [rows[0]] else []) + OlderThan(rows[1..], t)
  }

  // The cursor subquery: it looks at every row, of any user, deleted or not.
  function CreatedAt(table: seq<Row>, id: nat): Option<int> {
    if table == [] then None else if table[0].id == id then Some(table[0].created) else CreatedAt(table[1..], id)
  }

  function Take(rows: seq<Row>, n: nat): seq<Row> {
    if n < |rows| then rows[..n] else rows
  }

  // The rows a cursor leaves; comparing with a missing row's time selects nothing.
  function Remaining(table: seq<Row>, q: Query, before: Option<nat>): seq<Row> {
    if before.None? then Select(table, q)
    else
      var t := CreatedAt(table, before.value);
      if t.None? then [] else OlderThan(Select(table, q), t.value)
  }

  function ListByUser(table: seq<Row>, q: Query, limit: nat, before: Option<nat>): seq<Row> {
    Take(Remaining(table, q, before), limit)
  }

  // One row more than the page tells whether there is a next one.
  function PageFrom(items: seq<Row>, limit: nat): Page
    requires 1 <= limit
  {
    var hasMore := limit < |items|;
    var page := Take(items, limit);
    Page(page, if hasMore then Some(page[|page| - 1].id) else None, hasMore)
  }

  function ListHistory(table: seq<Row>, q: Query, limit: nat, before: Option<nat>): Page
    requires 1 <= limit
  {
    PageFrom(ListByUser(table, q, limit + 1, before), limit)
  }

  /** The table as the database orders it: newest first, rows of one time in some fixed order. */
  ghost predicate Ordered(rows: seq<Row>) {
    forall i, j :: 0 <= i < j < |rows| ==> rows[j].created <= rows[i].created
  }

  ghost predicate IdsUnique(rows: seq<Row>) {
    forall i, j :: 0 <= i < j < |rows| ==> rows[i].id != rows[j].id
  }

  ghost predicate Table(table: seq<Row>) {
    Ordered(table) && IdsUnique(table)
  }

  // ---------- Lists of rows ----------

  lemma {:induction false} SelectKeeps(table: seq<Row>, q: Query)
    requires Table(table)
    ensures Table(Select(table, q))
    ensures forall r :: r in Select(table, q) <==> r in table && Matches(q, r)
  {
    if table != [] {
      assert forall r :: r in table <==> r == table[0] || r in table[1..];
      SelectKeeps(table[1..], q);
      var rest := Select(table[1..], q);
      assert forall k :: 0 <= k < |rest| ==> rest[k] in rest && rest[k] in table[1..];
    }
  }

  lemma {:induction false} FindsRow(table: seq<Row>, r: Row)
    requires IdsUnique(table) && r in table
    ensures CreatedAt(table, r.id) == Some(r.created)
  {
    if table[0] != r {
      FindsRow(table[1..], r);
      var k :| 0 <= k < |table| && table[k] == r;
      assert table[0].id != table[k].id;
    }
  }

  // How many leading rows are not older than t.
  function Skip(rows: seq<Row>, t: int): (n: nat)
    ensures n <= |rows|
  {
    if rows == [] || rows[0].created < t then 0 else 1 + Skip(rows[1..], t)
  }

  lemma {:induction false} SkipSplits(rows: seq<Row>, t: int)
    requires Ordered(rows)
    ensures forall i :: 0 <= i < Skip(rows, t) ==> t <= rows[i].created
    ensures forall i :: Skip(rows, t) <= i < |rows| ==> rows[i].created < t
  {
    if rows != [] && t <= rows[0].created {
      SkipSplits(rows[1..], t);
      assert forall i :: 1 <= i < |rows| ==> rows[i] == rows[1..][i - 1];
    }
  }

  lemma {:induction false} AllOlder(rows: seq<Row>, t: int)
    requires forall i :: 0 <= i < |rows| ==> rows[i].created < t
    ensures OlderThan(rows, t) == rows
  {
    if rows != [] {
      AllOlder(rows[1..], t);
      assert rows == [rows[0]] + rows[1..];
    }
  }

  lemma {:induction false} OlderFromSkip(rows: seq<Row>, t: int)
    requires Ordered(rows)
    ensures OlderThan(rows, t) == rows[Skip(rows, t)..]
  {
    if rows != [] {
      if rows[0].created < t {
        AllOlder(rows, t);
      } else {
        OlderFromSkip(rows[1..], t);
        assert rows[Skip(rows, t)..] == rows[1..][Skip(rows[1..], t)..];
      }
    }
  }

  lemma OlderIsSuffix(rows: seq<Row>, t: int)
    requires Ordered(rows)
    ensures OlderThan(rows, t) == rows[Skip(rows, t)..]
    ensures forall i :: 0 <= i < Skip(rows, t) ==> t <= rows[i].created
    ensures forall i :: Skip(rows, t) <= i < |rows| ==> rows[i].created < t
  {
    SkipSplits(rows, t);
    OlderFromSkip(rows, t);
  }

  // ---------- Following the cursors ----------

  // Where the page after the first `limit` rows starts.
  function NextStart(rows: seq<Row>, limit: nat): (n: nat)
    requires 1 <= limit < |rows|
    ensures n <= |rows|
  {
    Skip(rows, rows[limit - 1].created)
  }

  lemma NextStartAfter(rows: seq<Row>, limit: nat)
    requires 1 <= limit < |rows| && Ordered(rows)
    ensures limit <= NextStart(rows, limit)
    ensures NextStart(rows, limit) == limit <==> rows[limit].created < rows[limit - 1].created
  {
    OlderIsSuffix(rows, rows[limit - 1].created);
  }

  /** What a client sees that follows the cursors over the rows it has left to read. */
  ghost function Visited(rows: seq<Row>, limit: nat): seq<Row>
    requires 1 <= limit && Ordered(rows)
    decreases |rows|
  {
    if |rows| <= limit then rows
    else
      NextStartAfter(rows, limit);
      rows[..limit] + Visited(rows[NextStart(rows, limit)..], limit)
  }

  ghost function Requests(rows: seq<Row>, limit: nat): nat
    requires 1 <= limit && Ordered(rows)
    decreases |rows|
  {
    if |rows| <= limit then 1
    else
      NextStartAfter(rows, limit);
      1 + Requests(rows[NextStart(rows, limit)..], limit)
  }

  predicate IsSuffix(all: seq<Row>, rows: seq<Row>) {
    |rows| <= |all| && rows == all[|all| - |rows|..]
  }

  lemma RemainingRows(table: seq<Row>, q: Query, before: Option<nat>)
    requires Table(table)
    ensures var all := Select(table, q);
            var rows := Remaining(table, q, before);
            Ordered(all) && Table(rows) && IsSuffix(all, rows) &&
            (forall r :: r in rows ==> r in table && Matches(q, r))
  {
    var all := Select(table, q);
    SelectKeeps(table, q);
    if before.Some? && CreatedAt(table, before.value).Some? {
      OlderIsSuffix(all, CreatedAt(table, before.value).value);
    }
    var rows := Remaining(table, q, before);
    forall r | r in rows
      ensures r in all
    {
      InSecond(all[..|all| - |rows|], rows, r);
      assert all == all[..|all| - |rows|] + rows;
    }
  }

  lemma {:induction false} SkipOfSuffix(all: seq<Row>, d: nat, t: int)
    requires d <= |all| && forall i :: 0 <= i < d ==> t <= all[i].created
    ensures Skip(all, t) == d + Skip(all[d..], t)
    decreases d
  {
    if d == 0 {
      assert all[0..] == all;
    } else {
      assert all[1..][d - 1..] == all[d..];
      SkipOfSuffix(all[1..], d - 1, t);
    }
  }

  // Two suffixes cut at the same time are the same.
  lemma SuffixOfSuffix(all: seq<Row>, rows: seq<Row>, t: int)
    requires Ordered(all) && rows != [] && |rows| <= |all| && rows == all[|all| - |rows|..] && t <= rows[0].created
    ensures all[Skip(all, t)..] == rows[Skip(rows, t)..]
  {
    var d := |all| - |rows|;
    assert all[d] == rows[0];
    SkipOfSuffix(all, d, t);
    assert all[d..][Skip(rows, t)..] == all[d + Skip(rows, t)..];
  }

  lemma CutAt(table: seq<Row>, q: Query, rows: seq<Row>, last: Row)
    requires Ordered(Select(table, q)) && Ordered(rows) && CreatedAt(table, last.id) == Some(last.created)
    requires |rows| <= |Select(table, q)| && rows == Select(table, q)[|Select(table, q)| - |rows|..]
    requires rows != [] && last.created <= rows[0].created
    ensures Remaining(table, q, Some(last.id)) == rows[Skip(rows, last.created)..]
  {
    OlderIsSuffix(Select(table, q), last.created);
    SuffixOfSuffix(Select(table, q), rows, last.created);
  }

  lemma LastIsFound(table: seq<Row>, rows: seq<Row>, k: nat)
    requires IdsUnique(table) && Ordered(rows) && k < |rows| && forall r :: r in rows ==> r in table
    ensures CreatedAt(table, rows[k].id) == Some(rows[k].created) && rows[k].created <= rows[0].created
  {
    assert rows[k] in rows;
    FindsRow(table, rows[k]);
  }

  // The rows left by the cursor that a full page ends with.
  lemma CursorOf(table: seq<Row>, q: Query, rows: seq<Row>, limit: nat)
    requires IdsUnique(table) && Ordered(Select(table, q)) && Ordered(rows)
    requires 1 <= limit < |rows| && IsSuffix(Select(table, q), rows) && forall r :: r in rows ==> r in table
    ensures Remaining(table, q, Some(rows[limit - 1].id)) == rows[NextStart(rows, limit)..]
  {
    LastIsFound(table, rows, limit - 1);
    CutAt(table, q, rows, rows[limit - 1]);
  }

  lemma PageShape(rows: seq<Row>, limit: nat)
    requires 1 <= limit
    ensures var page := PageFrom(Take(rows, limit + 1), limit);
            && (page.hasMore <==> limit < |rows|)
            && page.nextCursor == (if limit < |rows| then Some(rows[limit - 1].id) else None)
            && page.items == Take(rows, limit)
  {
    if limit < |rows| {
      assert rows[..limit + 1][..limit] == rows[..limit];
    }
  }

  /** A page is the first `limit` rows that the cursor leaves; it has a next one exactly when rows
      are left over, and its cursor then leaves what follows the last row's time. */
  lemma PageOf(table: seq<Row>, q: Query, limit: nat, before: Option<nat>)
    requires Table(table) && 1 <= limit
    ensures var rows := Remaining(table, q, before);
            var page := ListHistory(table, q, limit, before);
            && (page.hasMore <==> limit < |rows|) && (page.nextCursor.Some? <==> page.hasMore)
            && page.items == Take(rows, limit)
            && (page.hasMore ==> Remaining(table, q, page.nextCursor) == rows[NextStart(rows, limit)..])
  {
    var rows := Remaining(table, q, before);
    PageShape(rows, limit);
    if limit < |rows| {
      RemainingRows(table, q, before);
      CursorOf(table, q, rows, limit);
    }
  }

  lemma VisitedStep(rows: seq<Row>, limit: nat)
    requires 1 <= limit && Ordered(rows)
    ensures |rows| <= limit ==> Visited(rows, limit) == Take(rows, limit) && Requests(rows, limit) == 1
    ensures limit < |rows| ==>
              var rest := rows[NextStart(rows, limit)..];
              && |rest| < |rows| && Ordered(rest)
              && Visited(rows, limit) == Take(rows, limit) + Visited(rest, limit)
              && Requests(rows, limit) == 1 + Requests(rest, limit)
  {
    if limit < |rows| {
      NextStartAfter(rows, limit);
    }
  }

  /** One request, as the client knows it. */
  method RequestPage(table: seq<Row>, q: Query, limit: nat, before: Option<nat>, ghost rows: seq<Row>)
    returns (page: Page)
    requires Table(table) && 1 <= limit && rows == Remaining(table, q, before) && Ordered(rows)
    ensures page == ListHistory(table, q, limit, before)
    ensures page.hasMore <==> limit < |rows|
    ensures page.hasMore ==>
              var rest := rows[NextStart(rows, limit)..];
              && Remaining(table, q, page.nextCursor) == rest && |rest| < |rows| && Ordered(rest)
              && Visited(rows, limit) == page.items + Visited(rest, limit)
              && Requests(rows, limit) == 1 + Requests(rest, limit)
    ensures !page.hasMore ==> page.items == rows == Visited(rows, limit) && Requests(rows, limit) == 1
  {
    page := ListHistory(table, q, limit, before);
    PageOf(table, q, limit, before);
    VisitedStep(rows, limit);
  }

  lemma Associate(a: seq<Row>, b: seq<Row>, c: seq<Row>)
    ensures a + (b + c) == a + b + c
  {
  }

  /** The client: request a page, take `next_cursor`, and repeat until `has_more` is false. It sees
      `Visited` of the rows its first cursor leaves. */
  method FollowCursors(table: seq<Row>, q: Query, limit: nat, before: Option<nat>)
    returns (seen: seq<Row>, requests: nat)
    requires Table(table) && 1 <= limit && Ordered(Remaining(table, q, before))
    ensures seen == Visited(Remaining(table, q, before), limit)
    ensures requests == Requests(Remaining(table, q, before), limit)
  {
    ghost var all := Remaining(table, q, before);
    ghost var rows := all;
    var page := RequestPage(table, q, limit, before, rows);
    seen, requests := page.items, 1;
    while page.hasMore
      invariant Ordered(rows)
      invariant page.hasMore ==>
                  limit < |rows| && Remaining(table, q, page.nextCursor) == rows[NextStart(rows, limit)..]
      invariant page.hasMore ==> |rows[NextStart(rows, limit)..]| < |rows| && Ordered(rows[NextStart(rows, limit)..])
      invariant Visited(all, limit) ==
                if page.hasMore then seen + Visited(rows[NextStart(rows, limit)..], limit) else seen
      invariant Requests(all, limit) ==
                requests + if page.hasMore then Requests(rows[NextStart(rows, limit)..], limit) else 0
      decreases page.hasMore, |rows|
    {
      rows := rows[NextStart(rows, limit)..];
      page := RequestPage(table, q, limit, page.nextCursor, rows);
      if page.hasMore {
        Associate(seen, page.items, Visited(rows[NextStart(rows, limit)..], limit));
      }
      seen, requests := seen + page.items, requests + 1;
    }
  }

  // ---------- What the client sees ----------

  /** Cut into pages of `limit` rows, no page ends between two rows of one time. */
  ghost predicate NoTieAtPageEnds(rows: seq<Row>, limit: nat)
    requires 1 <= limit
    decreases |rows|
  {
    limit < |rows| ==> rows[limit].created < rows[limit - 1].created && NoTieAtPageEnds(rows[limit..], limit)
  }

  lemma {:induction false} VisitedIsNoLonger(rows: seq<Row>, limit: nat)
    requires 1 <= limit && Ordered(rows)
    ensures |Visited(rows, limit)| <= |rows|
    decreases |rows|
  {
    if limit < |rows| {
      NextStartAfter(rows, limit);
      VisitedIsNoLonger(rows[NextStart(rows, limit)..], limit);
    }
  }

  /** The client sees every row, in order and once, exactly when no page ends between two rows
      created at one time; otherwise rows are skipped for good. */
  lemma {:induction false} SeesEverythingIff(rows: seq<Row>, limit: nat)
    requires 1 <= limit && Ordered(rows)
    ensures Visited(rows, limit) == rows <==> NoTieAtPageEnds(rows, limit)
    decreases |rows|
  {
    if limit < |rows| {
      NextStartAfter(rows, limit);
      var rest := rows[NextStart(rows, limit)..];
      assert rows == rows[..limit] + rows[limit..];
      assert (rows[..limit] + Visited(rest, limit))[limit..] == Visited(rest, limit);
      if |rest| == |rows| - limit {
        SeesEverythingIff(rest, limit);
      } else {
        VisitedIsNoLonger(rest, limit);
      }
    }
  }

  lemma {:induction false} VisitedComesFrom(rows: seq<Row>, limit: nat)
    requires 1 <= limit && Ordered(rows)
    ensures forall r :: r in Visited(rows, limit) ==> r in rows
    decreases |rows|
  {
    if limit < |rows| {
      NextStartAfter(rows, limit);
      VisitedComesFrom(rows[NextStart(rows, limit)..], limit);
    }
  }

  /** Whatever the ties, no row is seen twice and what is seen is newest first. */
  lemma {:induction false} SeesNothingTwice(rows: seq<Row>, limit: nat)
    requires 1 <= limit && Table(rows)
    ensures Table(Visited(rows, limit)) && forall r :: r in Visited(rows, limit) ==> r in rows
    decreases |rows|
  {
    VisitedComesFrom(rows, limit);
    if limit < |rows| {
      NextStartAfter(rows, limit);
      var rest := rows[NextStart(rows, limit)..];
      SeesNothingTwice(rest, limit);
      VisitedComesFrom(rest, limit);
      PageThenRest(rows, limit, NextStart(rows, limit), Visited(rest, limit));
    }
  }

  lemma PageThenRest(rows: seq<Row>, limit: nat, n: nat, v: seq<Row>)
    requires Table(rows) && Table(v) && limit <= n <= |rows| && forall r :: r in v ==> r in rows[n..]
    ensures Table(rows[..limit] + v)
  {
    forall k | 0 <= k < |v|
      ensures exists j :: n <= j < |rows| && rows[j] == v[k]
    {
      assert v[k] in rows[n..];
      var j :| 0 <= j < |rows[n..]| && rows[n..][j] == v[k];
      assert rows[n + j] == v[k];
    }
  }

  predicate FirstOfItsTime(rows: seq<Row>, i: nat)
    requires i < |rows|
  {
    i == 0 || rows[i].created < rows[i - 1].created
  }

  lemma InSecond(a: seq<Row>, b: seq<Row>, r: Row)
    ensures r in b ==> r in a + b
  {
  }

  lemma FirstOfTheRest(rows: seq<Row>, n: nat, i: nat)
    requires n <= i < |rows| && FirstOfItsTime(rows, i)
    ensures rows[n..][i - n] == rows[i] && FirstOfItsTime(rows[n..], i - n)
  {
  }

  /** The first row of each time is always seen, so only rows that share their time with another are
      ever skipped. */
  lemma {:induction false} FirstsAreSeen(rows: seq<Row>, limit: nat, i: nat)
    requires 1 <= limit && Ordered(rows) && i < |rows| && FirstOfItsTime(rows, i)
    ensures rows[i] in Visited(rows, limit)
    decreases |rows|
  {
    if limit < |rows| {
      NextStartAfter(rows, limit);
      var n := NextStart(rows, limit);
      OlderIsSuffix(rows, rows[limit - 1].created);
      if i < limit {
        assert Visited(rows, limit)[i] == rows[i];
      } else {
        assert rows[i].created < rows[i - 1].created <= rows[limit - 1].created;
        var rest := rows[n..];
        FirstOfTheRest(rows, n, i);
        FirstsAreSeen(rest, limit, i - n);
        InSecond(rows[..limit], Visited(rest, limit), rows[i]);
      }
    }
  }

  /** When some page ends inside a time, some row is never seen. */
  lemma {:induction false} SkippedRow(rows: seq<Row>, limit: nat) returns (r: Row)
    requires 1 <= limit && Table(rows) && !NoTieAtPageEnds(rows, limit)
    ensures r in rows && r !in Visited(rows, limit)
    decreases |rows|
  {
    NextStartAfter(rows, limit);
    var n := NextStart(rows, limit);
    if n == limit {
      r := SkippedRow(rows[limit..], limit);
      NotAmong(rows, limit, limit, r);
    } else {
      r := rows[limit];
      VisitedComesFrom(rows[n..], limit);
      NotAmong(rows[..n], limit, limit, r);
      assert rows[..n][..limit] == rows[..limit];
    }
  }

  // A row from position n on is not among the first `limit`.
  lemma NotAmong(rows: seq<Row>, limit: nat, n: nat, r: Row)
    requires IdsUnique(rows) && limit <= n <= |rows| && r in rows[n..]
    ensures r !in rows[..limit]
  {
    var j :| 0 <= j < |rows[n..]| && rows[n..][j] == r;
    assert rows[n + j] == r;
  }

  /** Following the cursors from none until there is no next page shows only the user's live results
      that match the filter, none twice, newest first; and it shows all of them if and only if no page
      ends between two of them created at one time. */
  lemma HistoryIsCompleteIff(table: seq<Row>, q: Query, limit: nat)
    requires Table(table) && 1 <= limit
    ensures var live := Select(table, q);
            && Ordered(live)
            && var seen := Visited(live, limit);
               && Table(seen)
               && (forall r :: r in seen ==>
                     r in table && r.user == q.user && !r.deleted && (q.feature.None? || q.feature == Some(r.feature)))
               && ((forall r ::
                      r in table && r.user == q.user && !r.deleted && (q.feature.None? || q.feature == Some(r.feature))
                      ==> r in seen) <==> NoTieAtPageEnds(live, limit))
  {
    var live := Select(table, q);
    SelectKeeps(table, q);
    SeesNothingTwice(live, limit);
    SeesEverythingIff(live, limit);
    if !NoTieAtPageEnds(live, limit) {
      var r := SkippedRow(live, limit);
      assert r in table && Matches(q, r) && r !in Visited(live, limit);
    }
  }

  lemma MulStep(m: nat, n: nat)
    ensures (m + 1) * n == m * n + n
    ensures 1 <= m ==> (m - 1) * n == m * n - n
    ensures m == 1 ==> m * n == n
  {
  }

  /** No walk makes more than max(1, ceil(n / limit)) requests, and a complete one makes as many. */
  lemma {:induction false} RequestCount(rows: seq<Row>, limit: nat)
    requires 1 <= limit && Ordered(rows)
    ensures Requests(rows, limit) == 1 || (Requests(rows, limit) - 1) * limit < |rows|
    ensures NoTieAtPageEnds(rows, limit) ==> |rows| <= Requests(rows, limit) * limit
    decreases |rows|
  {
    MulStep(1, limit);
    if limit < |rows| {
      NextStartAfter(rows, limit);
      var n := NextStart(rows, limit);
      var m := Requests(rows[n..], limit);
      RequestCount(rows[n..], limit);
      MulStep(m, limit);
    }
  }

  // ---------- Changes between requests ----------

  lemma {:induction false} SelectOfConcat(a: seq<Row>, b: seq<Row>, q: Query)
    ensures Select(a + b, q) == Select(a, q) + Select(b, q)
  {
    if a == [] {
      assert a + b == b;
    } else {
      SelectOfConcat(a[1..], b, q);
      assert (a + b)[1..] == a[1..] + b;
    }
  }

  lemma {:induction false} OlderOfConcat(a: seq<Row>, b: seq<Row>, t: int)
    requires forall r :: r in a ==> t <= r.created
    ensures OlderThan(a + b, t) == OlderThan(b, t)
  {
    if a == [] {
      assert a + b == b;
    } else {
      OlderOfConcat(a[1..], b, t);
      assert (a + b)[1..] == a[1..] + b;
      assert a[0] in a;
    }
  }

  /** Rows added newer than the rows already there change nothing a cursor has left to read: the
      rest of the walk is the same, without a skip or a repeat. */
  lemma NewRowsLeaveTheRest(newer: seq<Row>, table: seq<Row>, q: Query, cursor: Row)
    requires Table(newer + table) && Table(table) && cursor in table
    ensures Remaining(newer + table, q, Some(cursor.id)) == Remaining(table, q, Some(cursor.id))
  {
    var all := newer + table;
    assert cursor in all;
    FindsRow(all, cursor);
    FindsRow(table, cursor);
    SelectOfConcat(newer, table, q);
    var k :| 0 <= k < |table| && table[k] == cursor;
    assert all[|newer| + k] == cursor;
    forall r | r in Select(newer, q)
      ensures cursor.created <= r.created
    {
      InSelect(newer, q, r);
      var i :| 0 <= i < |newer| && newer[i] == r;
      assert all[i] == r;
    }
    OlderOfConcat(Select(newer, q), Select(table, q), cursor.created);
  }

  lemma {:induction false} InSelect(table: seq<Row>, q: Query, r: Row)
    requires r in Select(table, q)
    ensures r in table
  {
    if r in Select(table[1..], q) {
      InSelect(table[1..], q, r);
    }
  }

  // The table before each later request is the one before it with newer rows in front.
  ghost predicate Grows(table: seq<Row>, newer: seq<seq<Row>>)
    decreases |newer|
  {
    Table(table) && (newer != [] ==> Grows(newer[0] + table, newer[1..]))
  }

  function Grown(table: seq<Row>, newer: seq<seq<Row>>): seq<Row> {
    if newer == [] then table else newer[0] + table
  }

  lemma GrownPage(table: seq<Row>, newer: seq<seq<Row>>, q: Query, limit: nat, before: Option<nat>)
    requires Grows(table, newer) && 1 <= limit < |Remaining(table, q, before)|
    ensures var rows := Remaining(table, q, before);
            var page := ListHistory(table, q, limit, before);
            && page.hasMore && Ordered(rows)
            && Remaining(Grown(table, newer), q, page.nextCursor) == rows[NextStart(rows, limit)..]
            && limit <= NextStart(rows, limit)
  {
    var rows := Remaining(table, q, before);
    PageShape(rows, limit);
    PageOf(table, q, limit, before);
    RemainingRows(table, q, before);
    NextStartAfter(rows, limit);
    if newer != [] {
      assert rows[limit - 1] in rows;
      NewRowsLeaveTheRest(newer[0], table, q, rows[limit - 1]);
    }
  }

  /** What a client sees that follows the cursors while rows are added before every request. */
  ghost function GrowingWalk(table: seq<Row>, newer: seq<seq<Row>>, q: Query, limit: nat, before: Option<nat>): seq<Row>
    requires Grows(table, newer) && 1 <= limit
    decreases |Remaining(table, q, before)|
  {
    var page := ListHistory(table, q, limit, before);
    if |Remaining(table, q, before)| <= limit then page.items
    else
      GrownPage(table, newer, q, limit, before);
      page.items + GrowingWalk(Grown(table, newer), if newer == [] then [] else newer[1..], q, limit, page.nextCursor)
  }

  /** Rows added as newer before every request change nothing: the walk sees exactly what it would have
      seen of the table it started on, without a skip or a repeat that was not there before. */
  lemma {:induction false} GrowthChangesNothing(
    table: seq<Row>, newer: seq<seq<Row>>, q: Query, limit: nat, before: Option<nat>)
    requires Grows(table, newer) && 1 <= limit
    ensures Ordered(Remaining(table, q, before))
    ensures GrowingWalk(table, newer, q, limit, before) == Visited(Remaining(table, q, before), limit)
    decreases |Remaining(table, q, before)|
  {
    var rows := Remaining(table, q, before);
    RemainingRows(table, q, before);
    PageShape(Remaining(table, q, before), limit);
    VisitedStep(rows, limit);
    if limit < |rows| {
      GrownPage(table, newer, q, limit, before);
      GrowthChangesNothing(Grown(table, newer), if newer == [] then [] else newer[1..], q, limit,
                           ListHistory(table, q, limit, before).nextCursor);
    }
  }

  // ---------- Soft deletes and new rows between the requests ----------

  predicate SameButDeleted(a: Row, b: Row) {
    b == a || b == a.(deleted := true)
  }

  // b is a with newer rows in front and some rows soft-deleted.
  ghost predicate Evolves(a: seq<Row>, b: seq<Row>) {
    && |a| <= |b|
    && forall i :: 0 <= i < |a| ==> SameButDeleted(a[i], b[|b| - |a| + i])
  }

  ghost predicate Changes(table: seq<Row>, later: seq<seq<Row>>)
    decreases |later|
  {
    Table(table) && (later != [] ==> Evolves(table, later[0]) && Changes(later[0], later[1..]))
  }

  // The row is live in every table.
  predicate Stays(r: Row, table: seq<Row>, later: seq<seq<Row>>)
    decreases |later|
  {
    r in table && !r.deleted && (later != [] ==> Stays(r, later[0], later[1..]))
  }

  /** What a client sees whose k-th request finds the k-th table, and all further ones the last. */
  ghost function ChangingWalk(
    table: seq<Row>, later: seq<seq<Row>>, q: Query, limit: nat, before: Option<nat>): seq<Row>
    requires Changes(table, later) && 1 <= limit
    decreases |later|
  {
    var page := ListHistory(table, q, limit, before);
    RemainingRows(table, q, before);
    if later == [] then Visited(Remaining(table, q, before), limit)
    else if !page.hasMore then page.items
    else page.items + ChangingWalk(later[0], later[1..], q, limit, page.nextCursor)
  }

  // At no request does the page end inside one time of the rows that are live then.
  ghost predicate NoTieInWalk(
    table: seq<Row>, later: seq<seq<Row>>, q: Query, limit: nat, before: Option<nat>)
    requires Changes(table, later) && 1 <= limit
    decreases |later|
  {
    var rows := Remaining(table, q, before);
    if later == [] then NoTieAtPageEnds(rows, limit)
    else
      limit < |rows| ==>
        && rows[limit].created < rows[limit - 1].created
        && NoTieInWalk(later[0], later[1..], q, limit, Some(rows[limit - 1].id))
  }

  lemma RemainingIff(table: seq<Row>, q: Query, before: Option<nat>, r: Row)
    requires Table(table)
    ensures r in Remaining(table, q, before) <==>
            && r in table && Matches(q, r)
            && (before.Some? ==>
                  CreatedAt(table, before.value).Some? && r.created < CreatedAt(table, before.value).value)
  {
    SelectKeeps(table, q);
    if before.Some? && CreatedAt(table, before.value).Some? {
      OlderIff(Select(table, q), CreatedAt(table, before.value).value, r);
    }
  }

  lemma {:induction false} OlderIff(rows: seq<Row>, t: int, r: Row)
    ensures r in OlderThan(rows, t) <==> r in rows && r.created < t
  {
    if rows != [] {
      OlderIff(rows[1..], t, r);
    }
  }

  lemma CursorKept(a: seq<Row>, b: seq<Row>, r: Row)
    requires Evolves(a, b) && IdsUnique(b) && r in a
    ensures CreatedAt(b, r.id) == Some(r.created)
  {
    var i :| 0 <= i < |a| && a[i] == r;
    FindsRow(b, b[|b| - |a| + i]);
  }

  lemma InPageOrLater(rows: seq<Row>, limit: nat, r: Row)
    requires Ordered(rows) && 1 <= limit < |rows| && rows[limit].created < rows[limit - 1].created && r in rows
    ensures r in rows[..limit] || r.created < rows[limit - 1].created
  {
    var j :| 0 <= j < |rows| && rows[j] == r;
    if j < limit {
      assert rows[..limit][j] == r;
    }
  }

  lemma ChangingWalkStep(
    table: seq<Row>, later: seq<seq<Row>>, q: Query, limit: nat, before: Option<nat>)
    requires Changes(table, later) && 1 <= limit && later != []
    ensures var rows := Remaining(table, q, before);
            ChangingWalk(table, later, q, limit, before) ==
            if |rows| <= limit then rows
            else rows[..limit] + ChangingWalk(later[0], later[1..], q, limit, Some(rows[limit - 1].id))
  {
    PageShape(Remaining(table, q, before), limit);
  }

  // A row that stays and is not on the page is left by the page's cursor in the next table.
  lemma StillRemaining(table: seq<Row>, next: seq<Row>, q: Query, limit: nat, before: Option<nat>, r: Row)
    requires Table(table) && Table(next) && Evolves(table, next) && r in next && r in Remaining(table, q, before)
    requires 1 <= limit < |Remaining(table, q, before)| && r !in Remaining(table, q, before)[..limit]
    requires var rows := Remaining(table, q, before);
             rows[limit].created < rows[limit - 1].created
    ensures r in Remaining(next, q, Some(Remaining(table, q, before)[limit - 1].id))
  {
    var rows := Remaining(table, q, before);
    RemainingRows(table, q, before);
    InPageOrLater(rows, limit, r);
    assert rows[limit - 1] in rows;
    CursorKept(table, next, rows[limit - 1]);
    RemainingIff(next, q, Some(rows[limit - 1].id), r);
  }

  /** A matching row that stays live throughout and lies behind the first cursor is seen, whatever rows are
      soft-deleted, cursor rows included, and whatever newer ones are added between the requests, as
      long as no page ends inside one time. */
  lemma {:induction false} StayingRowIsSeen(
    table: seq<Row>, later: seq<seq<Row>>, q: Query, limit: nat, before: Option<nat>, r: Row)
    requires Changes(table, later) && 1 <= limit && NoTieInWalk(table, later, q, limit, before)
    requires Stays(r, table, later) && r in Remaining(table, q, before)
    ensures r in ChangingWalk(table, later, q, limit, before)
    decreases |later|
  {
    var rows := Remaining(table, q, before);
    if later == [] {
      RemainingRows(table, q, before);
      SeesEverythingIff(rows, limit);
    } else {
      ChangingWalkStep(table, later, q, limit, before);
      if limit < |rows| && r !in rows[..limit] {
        StillRemaining(table, later[0], q, limit, before, r);
        StayingRowIsSeen(later[0], later[1..], q, limit, Some(rows[limit - 1].id), r);
      }
    }
  }

  /** A cursor that names no row ends the walk at once with an empty page. The route's description
      promises results from the beginning; that is what comes if and only if there are none. */
  lemma UnknownCursorShowsNothing(table: seq<Row>, q: Query, limit: nat, id: nat)
    requires 1 <= limit && forall r :: r in table ==> r.id != id
    ensures ListHistory(table, q, limit, Some(id)) == Page([], None, false)
    ensures ListHistory(table, q, limit, Some(id)) == ListHistory(table, q, limit, None) <==> Select(table, q) == []
  {
    NoSuchRow(table, id);
    PageShape(Select(table, q), limit);
  }

  lemma {:induction false} NoSuchRow(table: seq<Row>, id: nat)
    requires forall r :: r in table ==> r.id != id
    ensures CreatedAt(table, id) == None
  {
    if table != [] {
      assert table[0] in table;
      NoSuchRow(table[1..], id);
    }
  }
}
