/**
 The browser's list (apps/frontend/src/hooks/useLeaderboard.ts:33-54): a snapshot
 sets it, an update replaces or appends one row, sorts and ranks again.
 */
module ClientView {
  import opened Boards

  datatype Entry = Entry(rank: int, row: Row)

  /** First position of the contestant, or -1. */
  function FindIndex(list: seq<Entry>, id: string): (k: int)
    ensures -1 <= k < |list|
    ensures k >= 0 ==> list[k].row.contestantID == id
    ensures forall i :: 0 <= i < |list| && (k < 0 || i < k) ==> list[i].row.contestantID != id
  {
    if list == [] then -1
    else if list[0].row.contestantID == id then 0
    else
      var k := FindIndex(list[1..], id);
      assert forall i :: 1 <= i < |list| ==> list[i] == list[1..][i - 1];
      if k < 0 then -1 else k + 1
  }

  /** Stable insertion: after every entry scoring at least as much. */
  function InsertDesc(list: seq<Entry>, e: Entry): seq<Entry> {
    if list != [] && list[|list| - 1].row.score < e.row.score then
      InsertDesc(list[..|list| - 1], e) + [list[|list| - 1]]
    else
      list + [e]
  }

  /** The stable sort by descending score. */
  function SortDesc(list: seq<Entry>): seq<Entry> {
    if list == [] then [] else InsertDesc(SortDesc(list[..|list| - 1]), list[|list| - 1])
  }

  function Rerank(list: seq<Entry>): seq<Entry> {
    seq(|list|, i requires 0 <= i < |list| => Entry(i + 1, list[i].row))
  }

  /** The reducer's value. */
  function Reduce(prev: seq<Entry>, u: Entry): seq<Entry> {
    var k := FindIndex(prev, u.row.contestantID);
    Rerank(SortDesc(if k >= 0 then prev[k := u] else prev + [u]))
  }

  /** The reducer as it runs: search, copy, assign or push, sort, map. */
  method OnUpdate(prev: seq<Entry>, u: Entry) returns (next: seq<Entry>)
    ensures next == Reduce(prev, u)
  {
    var index := -1;
    var i := 0;
    while i < |prev| && index < 0
      invariant 0 <= i <= |prev|
      invariant index < 0 ==> index == -1 && forall j :: 0 <= j < i ==> prev[j].row.contestantID != u.row.contestantID
      invariant index >= 0 ==> index < |prev| && prev[index].row.contestantID == u.row.contestantID
      invariant forall j :: 0 <= j < index ==> prev[j].row.contestantID != u.row.contestantID
    {
      if prev[i].row.contestantID == u.row.contestantID { index := i; }
      i := i + 1;
    }
    next := prev;
    if index >= 0 {
      next := next[index := u];
    } else {
      next := next + [u];
    }
    next := Sort(next);
    ghost var sorted := next;
    for j := 0 to |next|
      invariant |next| == |sorted|
      invariant forall m :: 0 <= m < j ==> next[m] == Entry(m + 1, sorted[m].row)
      invariant forall m :: j <= m < |next| ==> next[m] == sorted[m]
    {
      next := next[j := next[j].(rank := j + 1)];
    }
    assert next == Rerank(sorted);
  }

  method Sort(list: seq<Entry>) returns (r: seq<Entry>)
    ensures r == SortDesc(list)
  {
    r := [];
    for i := 0 to |list|
      invariant r == SortDesc(list[..i])
    {
      r := InsertDesc(r, list[i]);
      assert list[..i + 1][..i] == list[..i];
    }
    assert list[..|list|] == list;
  }

  // ---------- what the reducer keeps and changes ----------

  ghost predicate Descending(list: seq<Entry>) {
    forall i, j :: 0 <= i < j < |list| ==> list[i].row.score >= list[j].row.score
  }

  ghost predicate DistinctRows(list: seq<Entry>) {
    forall i, j :: 0 <= i < j < |list| ==> list[i].row.contestantID != list[j].row.contestantID
  }

  ghost predicate Ranked(list: seq<Entry>) {
    forall i :: 0 <= i < |list| ==> list[i].rank == i + 1
  }

  function Rows(list: seq<Entry>): set<Row> {
    set i | 0 <= i < |list| :: list[i].row
  }

  /** The rows with one contestant's replaced. */
  function Replace(rows: set<Row>, u: Row): set<Row> {
    (set r | r in rows && r.contestantID != u.contestantID) + {u}
  }

  lemma {:induction false} InsertDescKeeps(list: seq<Entry>, e: Entry)
    requires Descending(list)
    ensures Descending(InsertDesc(list, e))
    ensures multiset(InsertDesc(list, e)) == multiset(list) + multiset{e}
  {
    if list != [] && list[|list| - 1].row.score < e.row.score {
      var p, last := list[..|list| - 1], list[|list| - 1];
      assert list == p + [last];
      InsertDescKeeps(p, e);
      InsertBeforeLast(p, last, e);
    }
  }

  lemma {:induction false} InsertBeforeLast(p: seq<Entry>, last: Entry, e: Entry)
    requires Descending(p + [last]) && last.row.score < e.row.score
    requires Descending(InsertDesc(p, e)) && multiset(InsertDesc(p, e)) == multiset(p) + multiset{e}
    ensures Descending(InsertDesc(p, e) + [last])
    ensures multiset(InsertDesc(p, e) + [last]) == multiset(p + [last]) + multiset{e}
  {
    var q := InsertDesc(p, e);
    forall i | 0 <= i < |q| ensures q[i].row.score >= last.row.score {
      assert q[i] in multiset(q);
      if q[i] != e {
        assert q[i] in p;
        var j :| 0 <= j < |p| && p[j] == q[i];
        assert (p + [last])[j] == q[i] && (p + [last])[|p|] == last;
      }
    }
  }

  lemma {:induction false} SortDescSorts(list: seq<Entry>)
    ensures Descending(SortDesc(list)) && multiset(SortDesc(list)) == multiset(list)
  {
    if list != [] {
      assert list == list[..|list| - 1] + [list[|list| - 1]];
      SortDescSorts(list[..|list| - 1]);
      InsertDescKeeps(SortDesc(list[..|list| - 1]), list[|list| - 1]);
    }
  }

  /** Sorting moves nothing among entries of one score: the relative order of the list is kept. */
  lemma {:induction false} SortDescIsStable(list: seq<Entry>, score: real)
    ensures WithScore(SortDesc(list), score) == WithScore(list, score)
  {
    if list != [] {
      var p, e := list[..|list| - 1], list[|list| - 1];
      SortDescIsStable(p, score);
      SortDescSorts(p);
      InsertDescIsStable(SortDesc(p), e, score);
    }
  }

  function WithScore(list: seq<Entry>, score: real): seq<Entry> {
    if list == [] then []
    else if list[|list| - 1].row.score == score then WithScore(list[..|list| - 1], score) + [list[|list| - 1]]
    else WithScore(list[..|list| - 1], score)
  }

  lemma {:induction false} InsertDescIsStable(list: seq<Entry>, e: Entry, score: real)
    requires Descending(list)
    ensures WithScore(InsertDesc(list, e), score) ==
            if e.row.score == score then WithScore(list, score) + [e] else WithScore(list, score)
  {
    if list != [] && list[|list| - 1].row.score < e.row.score {
      var p, last := list[..|list| - 1], list[|list| - 1];
      InsertDescIsStable(p, e, score);
      var r := InsertDesc(list, e);
      assert r[..|r| - 1] == InsertDesc(p, e) && r[|r| - 1] == last;
    } else {
      assert (list + [e])[..|list|] == list;
    }
  }

  lemma {:induction false} PermutedRows(a: seq<Entry>, b: seq<Entry>)
    requires multiset(a) == multiset(b)
    ensures Rows(a) == Rows(b)
    ensures DistinctRows(a) ==> DistinctRows(b)
  {
    forall r | r in Rows(a) ensures r in Rows(b) {
      RowOfPermuted(a, b, r);
    }
    forall r | r in Rows(b) ensures r in Rows(a) {
      RowOfPermuted(b, a, r);
    }
    if DistinctRows(a) {
      forall i, j | 0 <= i < j < |b| ensures b[i].row.contestantID != b[j].row.contestantID {
        DistinctPair(a, b, i, j);
      }
    }
  }

  lemma RowOfPermuted(a: seq<Entry>, b: seq<Entry>, r: Row)
    requires multiset(a) == multiset(b) && r in Rows(a)
    ensures r in Rows(b)
  {
    var i :| 0 <= i < |a| && a[i].row == r;
    assert a[i] in multiset(b);
    var j :| 0 <= j < |b| && b[j] == a[i];
  }

  lemma TwiceInMultiset(b: seq<Entry>, i: nat, j: nat)
    requires i < j < |b| && b[i] == b[j]
    ensures multiset(b)[b[i]] >= 2
  {
    assert b == b[..i] + [b[i]] + b[i + 1..j] + [b[j]] + b[j + 1..];
  }

  lemma OnceInMultiset(a: seq<Entry>, e: Entry)
    requires DistinctRows(a)
    ensures multiset(a)[e] <= 1
  {
    if e in a {
      var x :| 0 <= x < |a| && a[x] == e;
      assert a == a[..x] + [e] + a[x + 1..];
      assert e !in a[..x] && e !in a[x + 1..];
    }
  }

  lemma {:induction false} DistinctPair(a: seq<Entry>, b: seq<Entry>, i: nat, j: nat)
    requires multiset(a) == multiset(b) && DistinctRows(a) && i < j < |b|
    ensures b[i].row.contestantID != b[j].row.contestantID
  {
    OnceInMultiset(a, b[i]);
    if b[i] == b[j] {
      TwiceInMultiset(b, i, j);
    }
    assert b[i] in multiset(a) && b[j] in multiset(a);
    var x :| 0 <= x < |a| && a[x] == b[i];
    var y :| 0 <= y < |a| && a[y] == b[j];
  }

  /**
   One update leaves the list sorted and ranked, with one row per contestant: the
   updated contestant's row is the update, every other row is untouched.
   */
  lemma ReduceReplacesRow(prev: seq<Entry>, u: Entry)
    requires DistinctRows(prev)
    ensures var next := Reduce(prev, u);
      && Descending(next) && Ranked(next) && DistinctRows(next)
      && Rows(next) == Replace(Rows(prev), u.row)
  {
    var k := FindIndex(prev, u.row.contestantID);
    var placed := if k >= 0 then prev[k := u] else prev + [u];
    PlacedRows(prev, u, k);
    SortDescSorts(placed);
    PermutedRows(placed, SortDesc(placed));
    RerankKeeps(SortDesc(placed));
  }

  /** The rows of one score, in order. */
  function RowsWith(list: seq<Entry>, score: real): seq<Row> {
    if list == [] then []
    else
      var last := list[|list| - 1].row;
      RowsWith(list[..|list| - 1], score) + (if last.score == score then [last] else [])
  }

  function RowsOnly(list: seq<Entry>): seq<Row> {
    seq(|list|, i requires 0 <= i < |list| => list[i].row)
  }

  lemma {:induction false} RowsWithIs(list: seq<Entry>, score: real)
    ensures RowsWith(list, score) == RowsOnly(WithScore(list, score))
  {
    if list != [] {
      var p, e := list[..|list| - 1], list[|list| - 1];
      RowsWithIs(p, score);
      assert RowsOnly(WithScore(p, score) + [e]) == RowsOnly(WithScore(p, score)) + [e.row];
    }
  }

  lemma {:induction false} RerankMovesNothing(list: seq<Entry>, score: real)
    ensures RowsWith(Rerank(list), score) == RowsWith(list, score)
  {
    if list != [] {
      var p := list[..|list| - 1];
      RerankMovesNothing(p, score);
      assert Rerank(list)[..|list| - 1] == Rerank(p);
    }
  }

  /**
   Among rows of equal score nothing changes places: a replaced row keeps the place
   it had in the list, a new row comes last.
   */
  lemma {:induction false} ReduceKeepsPlaces(prev: seq<Entry>, u: Entry, score: real)
    requires DistinctRows(prev)
    ensures forall k :: 0 <= k < |prev| && prev[k].row.contestantID == u.row.contestantID ==>
      RowsWith(Reduce(prev, u), score) == RowsWith(prev[k := u], score)
    ensures (forall k :: 0 <= k < |prev| ==> prev[k].row.contestantID != u.row.contestantID) ==>
      RowsWith(Reduce(prev, u), score) == RowsWith(prev + [u], score)
  {
    var k := FindIndex(prev, u.row.contestantID);
    var placed := if k >= 0 then prev[k := u] else prev + [u];
    SortDescIsStable(placed, score);
    RowsWithIs(placed, score);
    RowsWithIs(SortDesc(placed), score);
    RerankMovesNothing(SortDesc(placed), score);
  }

  lemma RerankKeeps(list: seq<Entry>)
    ensures var r := Rerank(list);
      Ranked(r) && Rows(r) == Rows(list) && (DistinctRows(list) ==> DistinctRows(r)) && (Descending(list) ==> Descending(r))
  {
    var r := Rerank(list);
    forall x ensures x in Rows(r) <==> x in Rows(list) {
      if x in Rows(list) {
        var i :| 0 <= i < |list| && list[i].row == x;
        assert r[i].row == x;
      }
    }
  }

  lemma PlacedRows(prev: seq<Entry>, u: Entry, k: int)
    requires DistinctRows(prev) && k == FindIndex(prev, u.row.contestantID)
    ensures var placed := if k >= 0 then prev[k := u] else prev + [u];
      DistinctRows(placed) && Rows(placed) == Replace(Rows(prev), u.row)
  {
    var placed := if k >= 0 then prev[k := u] else prev + [u];
    forall r ensures r in Rows(placed) <==> r in Replace(Rows(prev), u.row) {
      if r in Rows(placed) {
        var i :| 0 <= i < |placed| && placed[i].row == r;
        if placed[i] != u { assert prev[i].row == r; }
      }
      if r in Rows(prev) && r.contestantID != u.row.contestantID {
        var i :| 0 <= i < |prev| && prev[i].row == r;
        assert placed[i].row == r;
      }
      if r == u.row {
        assert placed[if k >= 0 then k else |prev|].row == r;
      }
    }
  }

  /** The list after a snapshot and a run of updates. */
  function View(snapshot: seq<Entry>, us: seq<Row>): seq<Entry> {
    if us == [] then snapshot else Reduce(View(snapshot, us[..|us| - 1]), Entry(0, us[|us| - 1]))
  }

  lemma {:induction false} ViewKeeps(snapshot: seq<Entry>, us: seq<Row>)
    requires DistinctRows(snapshot) && Descending(snapshot) && Ranked(snapshot)
    ensures DistinctRows(View(snapshot, us)) && Descending(View(snapshot, us)) && Ranked(View(snapshot, us))
  {
    if us != [] {
      ViewKeeps(snapshot, us[..|us| - 1]);
      ReduceReplacesRow(View(snapshot, us[..|us| - 1]), Entry(0, us[|us| - 1]));
    }
  }

  /** The rows shown are each contestant's latest update, or the snapshot's row if there was none. */
  lemma {:induction false} ViewRows(snapshot: seq<Entry>, us: seq<Row>, r: Row)
    requires DistinctRows(snapshot) && Descending(snapshot) && Ranked(snapshot)
    ensures r in Rows(View(snapshot, us)) <==>
            if Touches(us, r.contestantID) then r == Latest(us, r.contestantID) else r in Rows(snapshot)
  {
    if us != [] {
      var p, u := us[..|us| - 1], us[|us| - 1];
      ViewKeeps(snapshot, p);
      ViewRows(snapshot, p, r);
      ReduceReplacesRow(View(snapshot, p), Entry(0, u));
      if u.contestantID == r.contestantID {
        assert Touches(us, r.contestantID);
      } else {
        TouchesFront(p, u, r.contestantID);
        assert us == p + [u];
      }
    }
  }

  lemma TouchesFront(p: seq<Row>, u: Row, id: string)
    requires u.contestantID != id
    ensures Touches(p + [u], id) <==> Touches(p, id)
  {
    if Touches(p, id) {
      var k :| 0 <= k < |p| && p[k].contestantID == id;
      assert (p + [u])[k].contestantID == id;
    }
  }
}
