/** Ids in ascending order, and the keyset query that reads them batch by batch. */
module Paging {
  import Lists

  predicate Ascending(ids: seq<int>) {
    forall i, j :: 0 <= i < j < |ids| ==> ids[i] < ids[j]
  }

  lemma {:induction false} LeastExists(ids: set<int>)
    requires ids != {}
    ensures exists m :: m in ids && forall x :: x in ids ==> m <= x
  {
    var y := Lists.Element(ids);
    var rest := ids - {y};
    if rest == {} {
      assert ids == {y};
      assert y in ids && forall x :: x in ids ==> y <= x;
    } else {
      LeastExists(rest);
      var m :| m in rest && forall x :: x in rest ==> m <= x;
      assert ids == rest + {y};
      var least := if y <= m then y else m;
      assert least in ids && forall x :: x in ids ==> least <= x;
    }
  }

  function Least(ids: set<int>): (m: int)
    requires ids != {}
    ensures m in ids && forall x :: x in ids ==> m <= x
  {
    LeastExists(ids);
    var m :| m in ids && forall x :: x in ids ==> m <= x;
    m
  }

  /** `ORDER BY id ASC`. */
  function SortedIds(ids: set<int>): (r: seq<int>)
    ensures Ascending(r)
    ensures forall x :: x in r <==> x in ids
  {
    if ids == {} then []
    else
      var m := Least(ids);
      var rest := SortedIds(ids - {m});
      assert forall i :: 0 <= i < |rest| ==> rest[i] in rest;
      [m] + rest
  }

  /** An ascending list is determined by its elements. */
  lemma {:induction false} AscendingUnique(a: seq<int>, b: seq<int>)
    requires Ascending(a) && Ascending(b)
    requires forall x :: x in a <==> x in b
    ensures a == b
  {
    if a != [] {
      assert a[0] in a;
    }
    if b != [] {
      assert b[0] in b;
    }
    if a != [] {
      assert a[0] in b && b[0] in a;
      forall x ensures x in a[1..] <==> x in b[1..] {
        assert x in a[1..] <==> x in a && x != a[0];
        assert x in b[1..] <==> x in b && x != b[0];
      }
      AscendingUnique(a[1..], b[1..]);
    }
  }

  /** The `WHERE id > lastID` clause, which is only added for a positive `lastID`. */
  function Past(ids: set<int>, lastID: int): set<int> {
    set id | id in ids && (lastID > 0 ==> id > lastID)
  }

  /** The answer to the keyset query: by ascending id, past `lastID` when that is positive, at
      most `limit` of them. */
  function Query(ids: set<int>, lastID: int, limit: nat): (r: seq<int>)
    ensures forall x :: x in r ==> x in ids
  {
    var all := SortedIds(Past(ids, lastID));
    if limit < |all| then
      assert forall x :: x in all[..limit] ==> x in all;
      all[..limit]
    else all
  }

  lemma TailAbove(all: seq<int>, k: nat, x: int)
    requires Ascending(all) && 0 < k <= |all|
    ensures x in all[k..] <==> x in all && x > all[k - 1]
  {
    assert forall i :: 0 <= i < k ==> all[i] <= all[k - 1];
    if x in all && x > all[k - 1] {
      var i :| 0 <= i < |all| && all[i] == x;
      assert all[k..][i - k] == x;
    }
    if x in all[k..] {
      var i :| 0 <= i < |all[k..]| && all[k..][i] == x;
      assert x == all[k + i];
    }
  }

  /** The tail of the ascending list holds exactly the ids past the previous one. */
  lemma TailIsPast(ids: set<int>, k: nat, x: int)
    requires 0 < k <= |SortedIds(ids)|
    ensures var all := SortedIds(ids); x in all[k..] <==> x in ids && x > all[k - 1]
  {
    TailAbove(SortedIds(ids), k, x);
  }

  lemma TakeWindow<T>(xs: seq<T>, k: nat, n: nat)
    requires k <= |xs|
    ensures xs[0..] == xs
    ensures (if n < |xs[k..]| then xs[k..][..n] else xs[k..]) == if k + n < |xs| then xs[k..k + n] else xs[k..]
  {
  }

  lemma PastIsTail(ids: set<int>, k: nat)
    requires 0 < k <= |SortedIds(ids)| && SortedIds(ids)[k - 1] > 0
    ensures SortedIds(Past(ids, SortedIds(ids)[k - 1])) == SortedIds(ids)[k..]
  {
    var all := SortedIds(ids);
    forall x ensures x in all[k..] <==> x in SortedIds(Past(ids, all[k - 1])) {
      TailIsPast(ids, k, x);
    }
    AscendingUnique(all[k..], SortedIds(Past(ids, all[k - 1])));
  }

  /** Past the `k`-th id, the query continues the ascending list where it stopped. */
  lemma QueryContinues(ids: set<int>, k: nat, limit: nat)
    requires forall id :: id in ids ==> id > 0
    requires k <= |SortedIds(ids)|
    ensures var all := SortedIds(ids);
      var lastID := if k == 0 then 0 else all[k - 1];
      Query(ids, lastID, limit) == if k + limit < |all| then all[k..k + limit] else all[k..]
  {
    var all := SortedIds(ids);
    if k == 0 {
      assert Past(ids, 0) == ids;
    } else {
      assert all[k - 1] in all;
      PastIsTail(ids, k);
    }
    TakeWindow(all, k, limit);
  }

  // ----- Visiting the rows of a table batch by batch

  datatype Row<C> = Row(id: int, content: C)

  /** What a batch loop does with one row: leave it alone, or store it back and report. */
  datatype Visit<C, R> = Skip | Done(content: C, report: R)

  type Visitor<!C, !R> = (int, C) -> Visit<C, R>

  function VisitedRows<C, R>(rows: map<int, C>, ids: seq<int>, visit: Visitor<C, R>): (r: map<int, C>)
    ensures r.Keys == rows.Keys
  {
    map id | id in rows :: if id in ids && visit(id, rows[id]).Done? then visit(id, rows[id]).content else rows[id]
  }

  function Reports<C, R>(rows: map<int, C>, ids: seq<int>, visit: Visitor<C, R>): seq<Row<R>>
    requires forall id :: id in ids ==> id in rows
  {
    if ids == [] then []
    else
      var id := ids[|ids| - 1];
      var front := Reports(rows, ids[..|ids| - 1], visit);
      if visit(id, rows[id]).Done? then front + [Row(id, visit(id, rows[id]).report)] else front
  }

  /** There is one report for each visited row that is not skipped, and no other. */
  lemma {:induction false} ReportsMeans<C, R>(rows: map<int, C>, ids: seq<int>, visit: Visitor<C, R>, row: Row<R>)
    requires forall id :: id in ids ==> id in rows
    ensures row in Reports(rows, ids, visit) <==>
      row.id in ids && visit(row.id, rows[row.id]).Done? && visit(row.id, rows[row.id]).report == row.content
  {
    if ids != [] {
      var n := |ids| - 1;
      assert forall id :: id in ids <==> id in ids[..n] || id == ids[n];
      ReportsMeans(rows, ids[..n], visit, row);
    }
  }

  /** Visiting more rows afterwards is visiting them all from the start. */
  lemma VisitedMore<C, R>(rows: map<int, C>, a: seq<int>, b: seq<int>, visit: Visitor<C, R>)
    requires forall id :: id in b ==> id !in a
    ensures VisitedRows(VisitedRows(rows, a, visit), b, visit) == VisitedRows(rows, a + b, visit)
  {
    var left, right := VisitedRows(VisitedRows(rows, a, visit), b, visit), VisitedRows(rows, a + b, visit);
    forall id | id in rows ensures left[id] == right[id] {
      assert id in a + b <==> id in a || id in b;
    }
    assert left.Keys == right.Keys;
  }

  lemma {:induction false} ReportsMore<C, R>(rows: map<int, C>, a: seq<int>, b: seq<int>, visit: Visitor<C, R>)
    requires forall id :: id in a + b ==> id in rows
    requires forall id :: id in b ==> id !in a
    ensures Reports(rows, a + b, visit) == Reports(rows, a, visit) + Reports(VisitedRows(rows, a, visit), b, visit)
  {
    if b == [] {
      assert a + b == a;
    } else {
      var front := b[..|b| - 1];
      assert (a + b)[..|a + b| - 1] == a + front;
      assert b[|b| - 1] in b;
      ReportsMore(rows, a, front, visit);
    }
  }

  /** A row left alone or stored back is a one-row visit. */
  lemma VisitedOne<C, R>(rows: map<int, C>, id: int, visit: Visitor<C, R>)
    requires id in rows
    ensures VisitedRows(rows, [id], visit) == match visit(id, rows[id]) { case Skip => rows case Done(c, _) => rows[id := c] }
    ensures Reports(rows, [id], visit) == match visit(id, rows[id]) { case Skip => [] case Done(_, r) => [Row(id, r)] }
  {
    assert [id][..0] == [];
    assert Reports(rows, [], visit) == [];
  }

  lemma VisitStep<C, R>(table: map<int, C>, ids: seq<int>, i: nat, visit: Visitor<C, R>)
    requires i < |ids| && Ascending(ids) && forall j :: 0 <= j < |ids| ==> ids[j] in table
    ensures var rows, id := VisitedRows(table, ids[..i], visit), ids[i];
      && id in rows && rows[id] == table[id]
      && VisitedRows(table, ids[..i + 1], visit)
         == (match visit(id, rows[id]) { case Skip => rows case Done(c, _) => rows[id := c] })
      && Reports(table, ids[..i + 1], visit) == Reports(table, ids[..i], visit)
         + (match visit(id, rows[id]) { case Skip => [] case Done(_, r) => [Row(id, r)] })
  {
    var rows, id := VisitedRows(table, ids[..i], visit), ids[i];
    assert id !in ids[..i];
    assert ids[..i + 1] == ids[..i] + [id];
    VisitedMore(table, ids[..i], [id], visit);
    ReportsMore(table, ids[..i], [id], visit);
    VisitedOne(rows, id, visit);
  }

  /** The loop over one loaded batch. */
  method VisitBatch<C(==), R>(table: map<int, C>, batch: seq<Row<C>>, visit: Visitor<C, R>)
    returns (rows: map<int, C>, reports: seq<Row<R>>)
    requires Loaded(table, batch)
    requires Ascending(Ids(batch))
    ensures rows == VisitedRows(table, Ids(batch), visit)
    ensures reports == Reports(table, Ids(batch), visit)
  {
    rows, reports := table, [];
    ghost var ids := Ids(batch);
    for i := 0 to |batch|
      invariant rows == VisitedRows(table, ids[..i], visit)
      invariant reports == Reports(table, ids[..i], visit)
    {
      var row := batch[i];
      VisitStep(table, ids, i, visit);
      match visit(row.id, row.content) {
        case Skip =>
        case Done(content, report) =>
          rows := rows[row.id := content];
          reports := reports + [Row(row.id, report)];
      }
    }
    assert ids[..|batch|] == ids;
  }

  function Ids<C>(batch: seq<Row<C>>): (r: seq<int>)
    ensures |r| == |batch| && forall i :: 0 <= i < |batch| ==> r[i] == batch[i].id
  {
    seq(|batch|, i requires 0 <= i < |batch| => batch[i].id)
  }

  /** The rows of a batch hold what the table holds. */
  predicate Loaded<C(==)>(rows: map<int, C>, batch: seq<Row<C>>) {
    forall i :: 0 <= i < |batch| ==> batch[i].id in rows && batch[i].content == rows[batch[i].id]
  }

  method Load<C(==)>(rows: map<int, C>, ids: seq<int>) returns (batch: seq<Row<C>>)
    requires forall id :: id in ids ==> id in rows
    ensures Loaded(rows, batch) && Ids(batch) == ids
  {
    batch := [];
    for i := 0 to |ids|
      invariant Loaded(rows, batch) && Ids(batch) == ids[..i]
    {
      var id := ids[i];
      assert id in rows;
      batch := batch + [Row(id, rows[id])];
    }
  }

  function EnabledIds<C>(rows: map<int, C>, enabled: C -> bool): (r: set<int>)
    ensures forall id :: id in r <==> id in rows && enabled(rows[id])
  {
    set id | id in rows && enabled(rows[id])
  }

  lemma EnabledStays<C, R>(rows: map<int, C>, ids: seq<int>, enabled: C -> bool, visit: Visitor<C, R>)
    requires forall id :: id in rows && visit(id, rows[id]).Done? ==> enabled(visit(id, rows[id]).content) == enabled(rows[id])
    ensures EnabledIds(VisitedRows(rows, ids, visit), enabled) == EnabledIds(rows, enabled)
  {
    var after := VisitedRows(rows, ids, visit);
    forall id ensures id in EnabledIds(after, enabled) <==> id in EnabledIds(rows, enabled) {
      assert id in after <==> id in rows;
    }
  }

  /** `visited` is how far the ascending list has been read, and `lastID` its last id. */
  predicate Progress(ids: set<int>, visited: seq<int>, lastID: int) {
    && visited <= SortedIds(ids)
    && lastID == if visited == [] then 0 else visited[|visited| - 1]
  }

  /** One query reads on: nothing is repeated, and a short answer is the end of the list. */
  lemma NextQuery(ids: set<int>, visited: seq<int>, lastID: int, n: nat)
    requires forall id :: id in ids ==> id > 0
    requires Progress(ids, visited, lastID) && n >= 1
    ensures var found := Query(ids, lastID, n);
      && Ascending(found)
      && (forall x :: x in found ==> x !in visited && x in ids)
      && visited + found <= SortedIds(ids)
      && (|found| < n ==> visited + found == SortedIds(ids))
  {
    var all, k := SortedIds(ids), |visited|;
    assert visited == all[..k];
    QueryContinues(ids, k, n);
    NextWindow(all, k, n, Query(ids, lastID, n));
  }

  lemma NextWindow(all: seq<int>, k: nat, n: nat, found: seq<int>)
    requires Ascending(all) && k <= |all| && n >= 1
    requires found == if k + n < |all| then all[k..k + n] else all[k..]
    ensures Ascending(found) && all[..k] + found <= all
    ensures forall x :: x in found ==> x !in all[..k]
    ensures |found| < n ==> all[..k] + found == all
  {
    assert all[..k] + found == all[..k + |found|];
  }

  /** The enabled rows have positive ids, and a visit leaves them enabled. */
  ghost predicate Visitable<C, R>(table: map<int, C>, enabled: C -> bool, visit: Visitor<C, R>) {
    && (forall id :: id in EnabledIds(table, enabled) ==> id > 0)
    && (forall id :: id in table && visit(id, table[id]).Done? ==>
          enabled(visit(id, table[id]).content) == enabled(table[id]))
  }

  /** Where the paging loop is: `visited` has been read, up to `lastID`. */
  ghost predicate Along<C, R>(table: map<int, C>, enabled: C -> bool, visit: Visitor<C, R>,
                              visited: seq<int>, lastID: int, rows: map<int, C>, reports: seq<Row<R>>) {
    && Progress(EnabledIds(table, enabled), visited, lastID)
    && (forall id :: id in visited ==> id in table)
    && rows == VisitedRows(table, visited, visit)
    && reports == Reports(table, visited, visit)
  }

  /** The answer continues the list of visited ids. */
  lemma ProgressNext(ids: set<int>, visited: seq<int>, lastID: int, n: nat, found: seq<int>)
    requires forall id :: id in ids ==> id > 0
    requires Progress(ids, visited, lastID) && n >= 1 && found == Query(ids, lastID, n)
    ensures Ascending(found) && forall id :: id in found ==> id in ids && id !in visited
    ensures Progress(ids, visited + found, if found == [] then lastID else found[|found| - 1])
    ensures |visited| + |found| <= |SortedIds(ids)|
    ensures |found| < n ==> visited + found == SortedIds(ids)
  {
    NextQuery(ids, visited, lastID, n);
    assert found == [] ==> visited + found == visited;
  }

  /** Visiting the found rows of the visited table is visiting both lists. */
  lemma ComposedVisit<C, R>(table: map<int, C>, visited: seq<int>, found: seq<int>, visit: Visitor<C, R>)
    requires forall id :: id in visited || id in found ==> id in table
    requires forall id :: id in found ==> id !in visited
    ensures var rows := VisitedRows(table, visited, visit);
      && VisitedRows(rows, found, visit) == VisitedRows(table, visited + found, visit)
      && Reports(table, visited, visit) + Reports(rows, found, visit) == Reports(table, visited + found, visit)
  {
    VisitedMore(table, visited, found, visit);
    ReportsMore(table, visited, found, visit);
  }

  lemma AlongNext<C, R>(table: map<int, C>, enabled: C -> bool, visit: Visitor<C, R>, visited: seq<int>, lastID: int,
                        rows: map<int, C>, reports: seq<Row<R>>, batchSize: nat, found: seq<int>)
    requires batchSize >= 1 && Visitable(table, enabled, visit)
    requires Along(table, enabled, visit, visited, lastID, rows, reports)
    requires found == Query(EnabledIds(table, enabled), lastID, batchSize)
    ensures Ascending(found) && forall id :: id in found ==> id in rows
    ensures Along(table, enabled, visit, visited + found, if found == [] then lastID else found[|found| - 1],
                  VisitedRows(rows, found, visit), reports + Reports(rows, found, visit))
  {
    ProgressNext(EnabledIds(table, enabled), visited, lastID, batchSize, found);
    ComposedVisit(table, visited, found, visit);
  }

  /** One query, its load, and the loop over the loaded batch. */
  method VisitNext<C(==), R>(ghost table: map<int, C>, rows: map<int, C>, enabled: C -> bool, visit: Visitor<C, R>,
                             ghost visited: seq<int>, lastID: int, batchSize: nat, reports: seq<Row<R>>)
    returns (found: seq<int>, next: map<int, C>, all: seq<Row<R>>)
    requires batchSize >= 1 && Visitable(table, enabled, visit)
    requires Along(table, enabled, visit, visited, lastID, rows, reports)
    ensures found == Query(EnabledIds(table, enabled), lastID, batchSize)
    ensures Along(table, enabled, visit, visited + found, if found == [] then lastID else found[|found| - 1], next, all)
  {
    EnabledStays(table, visited, enabled, visit);
    found := Query(EnabledIds(rows, enabled), lastID, batchSize);
    AlongNext(table, enabled, visit, visited, lastID, rows, reports, batchSize, found);
    var batch := Load(rows, found);
    var more;
    next, more := VisitBatch(rows, batch, visit);
    all := reports + more;
  }

  /** The paging loop of the bulk operations and of the background task: every enabled row is
      visited once, by ascending id, on the content it had before the loop. */
  method ForEachEnabled<C(==), R>(table: map<int, C>, enabled: C -> bool, batchSize: nat, visit: Visitor<C, R>)
    returns (rows: map<int, C>, visited: seq<int>, reports: seq<Row<R>>)
    requires batchSize >= 1 && Visitable(table, enabled, visit)
    ensures visited == SortedIds(EnabledIds(table, enabled))
    ensures rows == VisitedRows(table, visited, visit)
    ensures reports == Reports(table, visited, visit)
  {
    rows, visited, reports := table, [], [];
    var lastID, found := 0, [];
    while true
      invariant Along(table, enabled, visit, visited, lastID, rows, reports)
      decreases |SortedIds(EnabledIds(table, enabled))| - |visited|
    {
      found, rows, reports := VisitNext(table, rows, enabled, visit, visited, lastID, batchSize, reports);
      ProgressNext(EnabledIds(table, enabled), visited, lastID, batchSize, found);
      visited := visited + found;
      if |found| == 0 {
        break;
      }
      lastID := found[|found| - 1];
      if |found| < batchSize {
        break;
      }
    }
  }
}
