/**
 Snapshot plus replay (apps/leaderboard/cmd/main.go:106-130,
 apps/leaderboard/internal/redis/redis.go:53-86, useLeaderboard.ts:36-53).

 A client joins after `j` updates, the scores are read after `k1 >= j` of them
 and each contestant's metrics at its own later moment, and every update from
 `j` on is then replayed. Updates between are applied twice.
 */
module Convergence {
  import opened Boards
  import opened ClientView

  const TOP := 50

  /** What `Top50` returned: scores from one moment, metrics from later ones. */
  ghost predicate IsRead(entries: seq<Entry>, init: Board, log: seq<Row>, k1: nat, k2: seq<nat>, top: seq<Scored>) {
    && k1 <= |log| && |k2| == |top| == |entries|
    && IsTop(top, After(init, log[..k1]), TOP)
    && (forall i :: 0 <= i < |top| ==> k1 <= k2[i] <= |log|)
    && (forall i :: 0 <= i < |top| ==> entries[i] == ReadEntry(i, top[i], After(init, log[..k2[i]])))
  }

  function ReadEntry(i: nat, z: Scored, b: Board): Entry {
    var m := MetricsOf(b, z.contestantID);
    Entry(i + 1, Row(z.contestantID, z.score, m.p50, m.p99))
  }

  lemma ReadIsRankedList(entries: seq<Entry>, init: Board, log: seq<Row>, k1: nat, k2: seq<nat>, top: seq<Scored>)
    requires IsRead(entries, init, log, k1, k2, top)
    ensures DistinctRows(entries) && Descending(entries) && Ranked(entries)
  {
  }

  /** The read lists 50 contestants whenever there are 50, and everyone otherwise. */
  lemma ReadListsFifty(entries: seq<Entry>, init: Board, log: seq<Row>, k1: nat, k2: seq<nat>, top: seq<Scored>)
    requires IsRead(entries, init, log, k1, k2, top)
    ensures var n := |After(init, log[..k1]).scores|; |entries| == if n < 50 then n else 50
  {
  }

  /** A contestant with a score but no metrics, as the demo seeding leaves it, is listed with zeros until its first update. */
  lemma SeededReadsZeros(init: Board, log: seq<Row>, z: Scored, i: nat)
    requires z.contestantID !in init.metrics && !Touches(log, z.contestantID)
    ensures ReadEntry(i, z, After(init, log)) == Entry(i + 1, Row(z.contestantID, z.score, 0.0, 0.0))
  {
    AfterShowsLatest(init, log, z.contestantID);
  }

  lemma TouchedLater(log: seq<Row>, j: nat, k: nat, id: string)
    requires j <= k <= |log|
    ensures Touches(log[k..], id) ==> Touches(log[j..], id)
  {
    if i :| 0 <= i < |log[k..]| && log[k..][i].contestantID == id {
      assert log[j..][k - j + i].contestantID == id;
    }
  }

  /** Between two moments, a contestant no update names keeps its score and metrics. */
  lemma UntouchedBetween(init: Board, log: seq<Row>, j: nat, k: nat, id: string)
    requires j <= k <= |log| && !Touches(log[j..], id)
    ensures var b, c := After(init, log[..k]), After(init, log);
      && (id in b.scores <==> id in c.scores) && (id in b.scores ==> b.scores[id] == c.scores[id])
      && MetricsOf(b, id) == MetricsOf(c, id)
  {
    assert log == log[..k] + log[k..];
    AfterConcat(init, log[..k], log[k..]);
    TouchedLater(log, j, k, id);
    AfterShowsLatest(After(init, log[..k]), log[k..], id);
  }

  lemma SnapshotRowStillTrue(entries: seq<Entry>, init: Board, log: seq<Row>, j: nat, k1: nat, k2: seq<nat>,
                             top: seq<Scored>, i: nat)
    requires j <= k1 && IsRead(entries, init, log, k1, k2, top) && i < |top|
    requires !Touches(log[j..], top[i].contestantID)
    ensures OnBoard(After(init, log), entries[i].row)
  {
    UntouchedBetween(init, log, j, k1, top[i].contestantID);
    UntouchedBetween(init, log, j, k2[i], top[i].contestantID);
  }

  /**
   When everything is replayed, every row the client shows is the server's
   latest, every contestant updated since it joined is shown, and the list is
   sorted, ranked and free of duplicates.
   */
  lemma Converges(entries: seq<Entry>, init: Board, log: seq<Row>, j: nat, k1: nat, k2: seq<nat>, top: seq<Scored>)
    requires j <= k1 && IsRead(entries, init, log, k1, k2, top)
    ensures var view := View(entries, log[j..]);
      && DistinctRows(view) && Descending(view) && Ranked(view)
      && (forall r :: r in Rows(view) ==> OnBoard(After(init, log), r))
      && (forall id :: Shows(view, id) <==> ScoredIDs(top, id) || Touches(log[j..], id))
  {
    ReadIsRankedList(entries, init, log, k1, k2, top);
    var us := log[j..];
    var view := View(entries, us);
    ViewKeeps(entries, us);
    forall r | r in Rows(view) ensures OnBoard(After(init, log), r) {
      RowIsLatest(entries, init, log, j, k1, k2, top, r);
    }
    forall id ensures Shows(view, id) <==> ScoredIDs(top, id) || Touches(us, id) {
      ShownIffReadOrTouched(entries, init, log, j, k1, k2, top, id);
    }
  }

  ghost predicate Shows(list: seq<Entry>, id: string) {
    exists r :: r in Rows(list) && r.contestantID == id
  }

  lemma RowIsLatest(entries: seq<Entry>, init: Board, log: seq<Row>, j: nat, k1: nat, k2: seq<nat>, top: seq<Scored>, r: Row)
    requires j <= k1 && IsRead(entries, init, log, k1, k2, top)
    requires r in Rows(View(entries, log[j..]))
    ensures OnBoard(After(init, log), r)
  {
    ReadIsRankedList(entries, init, log, k1, k2, top);
    ViewRows(entries, log[j..], r);
    if Touches(log[j..], r.contestantID) {
      assert log == log[..j] + log[j..];
      AfterConcat(init, log[..j], log[j..]);
      AfterShowsLatest(After(init, log[..j]), log[j..], r.contestantID);
    } else {
      var i :| 0 <= i < |entries| && entries[i].row == r;
      SnapshotRowStillTrue(entries, init, log, j, k1, k2, top, i);
    }
  }

  lemma ShownIffReadOrTouched(entries: seq<Entry>, init: Board, log: seq<Row>, j: nat, k1: nat, k2: seq<nat>,
                              top: seq<Scored>, id: string)
    requires j <= k1 && IsRead(entries, init, log, k1, k2, top)
    ensures Shows(View(entries, log[j..]), id) <==> ScoredIDs(top, id) || Touches(log[j..], id)
  {
    ReadIsRankedList(entries, init, log, k1, k2, top);
    var us := log[j..];
    var rows := Rows(View(entries, us));
    if Touches(us, id) {
      ViewRows(entries, us, Latest(us, id));
      assert Latest(us, id) in rows;
    } else {
      if i :| 0 <= i < |top| && top[i].contestantID == id {
        ViewRows(entries, us, entries[i].row);
        assert entries[i].row in rows;
      }
      if r :| r in rows && r.contestantID == id {
        ViewRows(entries, us, r);
        var i :| 0 <= i < |entries| && entries[i].row == r;
        assert top[i].contestantID == id;
      }
    }
  }

  /** Without a snapshot, replaying the updates from `j` on shows exactly the contestants they name. */
  lemma UpdatesAlone(init: Board, log: seq<Row>, j: nat)
    requires j <= |log|
    ensures var view := View([], log[j..]);
      && DistinctRows(view) && Descending(view) && Ranked(view)
      && (forall r :: r in Rows(view) ==> OnBoard(After(init, log), r))
      && (forall id :: Shows(view, id) <==> Touches(log[j..], id))
  {
    var us := log[j..];
    var view := View([], us);
    ViewKeeps([], us);
    forall r ensures r in Rows(view) <==> Touches(us, r.contestantID) && r == Latest(us, r.contestantID) {
      ViewRows([], us, r);
    }
    assert log == log[..j] + us;
    AfterConcat(init, log[..j], us);
    forall r | r in Rows(view) ensures OnBoard(After(init, log), r) {
      AfterShowsLatest(After(init, log[..j]), us, r.contestantID);
    }
    forall id | Touches(us, id) ensures Shows(view, id) {
      assert Latest(us, id) in Rows(view);
    }
  }

  // ---------- agreement with the server's top 50 ----------

  ghost predicate DistinctScores(b: Board) {
    forall x, y :: x in b.scores && y in b.scores && x != y ==> b.scores[x] != b.scores[y]
  }

  /** The first entries of the list are the server's ranked read, with the same ranks. */
  ghost predicate FirstAre(list: seq<Entry>, top: seq<Scored>) {
    && |top| == (if |list| < TOP then |list| else TOP)
    && forall i :: 0 <= i < |top| ==> list[i].row.contestantID == top[i].contestantID && list[i].row.score == top[i].score
                                      && list[i].rank == i + 1
  }

  /**
   The client's first 50 are the server's Top50 if and only if each contestant in
   the server's Top50 was in the snapshot or has been updated since joining.
   */
  lemma TopAgreesIff(entries: seq<Entry>, init: Board, log: seq<Row>, j: nat, k1: nat, k2: seq<nat>, top: seq<Scored>,
                     server: seq<Scored>)
    requires j <= k1 && IsRead(entries, init, log, k1, k2, top)
    requires DistinctScores(After(init, log)) && IsTop(server, After(init, log), TOP)
    ensures FirstAre(View(entries, log[j..]), server) <==>
            forall i :: 0 <= i < |server| ==> ScoredIDs(top, server[i].contestantID) || Touches(log[j..], server[i].contestantID)
  {
    var view, b := View(entries, log[j..]), After(init, log);
    Converges(entries, init, log, j, k1, k2, top);
    if FirstAre(view, server) {
      forall i | 0 <= i < |server|
        ensures ScoredIDs(top, server[i].contestantID) || Touches(log[j..], server[i].contestantID)
      {
        assert view[i].row in Rows(view);
        assert Shows(view, server[i].contestantID);
      }
    }
    if forall i :: 0 <= i < |server| ==> ScoredIDs(top, server[i].contestantID) || Touches(log[j..], server[i].contestantID) {
      forall i | 0 <= i < |server| ensures Shows(view, server[i].contestantID) { }
      ShownTopIsPrefix(view, b, server);
    }
  }

  lemma ShownTopIsPrefix(view: seq<Entry>, b: Board, server: seq<Scored>)
    requires DistinctScores(b) && IsTop(server, b, TOP)
    requires DistinctRows(view) && Descending(view) && Ranked(view)
    requires forall r :: r in Rows(view) ==> OnBoard(b, r)
    requires forall i :: 0 <= i < |server| ==> Shows(view, server[i].contestantID)
    ensures FirstAre(view, server)
  {
    PrefixUpTo(view, b, server, |server|);
    if |view| > |server| {
      var r := view[|server|].row;
      assert r in Rows(view);
      NextIsNotListed(view, server);
      TopLeavesOutOnlyWhenFull(server, b, TOP, r.contestantID);
    }
  }

  lemma {:induction false} NextIsNotListed(view: seq<Entry>, server: seq<Scored>)
    requires DistinctRows(view) && |server| < |view|
    requires forall i :: 0 <= i < |server| ==> view[i].row.contestantID == server[i].contestantID
    ensures !ScoredIDs(server, view[|server|].row.contestantID)
  {
  }

  /** The list shows the server's top among rows that the board has, best first. */
  ghost predicate ShowsTop(view: seq<Entry>, b: Board, server: seq<Scored>) {
    && DistinctScores(b) && IsTop(server, b, TOP)
    && DistinctRows(view) && Descending(view)
    && (forall r :: r in Rows(view) ==> OnBoard(b, r))
    && forall i :: 0 <= i < |server| ==> Shows(view, server[i].contestantID)
  }

  ghost predicate SameUpTo(view: seq<Entry>, server: seq<Scored>, n: nat) {
    && n <= |view| && n <= |server|
    && forall i :: 0 <= i < n ==>
      view[i].row.contestantID == server[i].contestantID && view[i].row.score == server[i].score
  }

  /** Matching the two descending lists from the front. */
  lemma {:induction false} PrefixUpTo(view: seq<Entry>, b: Board, server: seq<Scored>, n: nat)
    requires ShowsTop(view, b, server) && n <= |server|
    ensures SameUpTo(view, server, n)
  {
    if n > 0 {
      PrefixUpTo(view, b, server, n - 1);
      NextInView(view, b, server, n - 1);
    }
  }

  lemma {:induction false} NextInView(view: seq<Entry>, b: Board, server: seq<Scored>, m: nat)
    requires ShowsTop(view, b, server) && m < |server| && SameUpTo(view, server, m)
    ensures SameUpTo(view, server, m + 1)
  {
    assert Shows(view, server[m].contestantID);
    var p := PositionOf(view, server[m].contestantID);
    NotAmongFirst(view, b, server, m, p);
    assert view[p].row in Rows(view) && view[m].row in Rows(view);
    NextMatches(view, b, server, m, p);
  }

  lemma {:induction false} NotAmongFirst(view: seq<Entry>, b: Board, server: seq<Scored>, m: nat, p: nat)
    requires IsTop(server, b, TOP) && m < |server| && m <= |view| && p < |view|
    requires view[p].row.contestantID == server[m].contestantID
    requires forall i :: 0 <= i < m ==> view[i].row.contestantID == server[i].contestantID
    ensures p >= m
  {
  }

  lemma PositionOf(view: seq<Entry>, id: string) returns (p: nat)
    requires Shows(view, id)
    ensures p < |view| && view[p].row.contestantID == id
  {
    var r :| r in Rows(view) && r.contestantID == id;
    p :| 0 <= p < |view| && view[p].row == r;
  }

  lemma {:induction false} NextMatches(view: seq<Entry>, b: Board, server: seq<Scored>, m: nat, p: nat)
    requires DistinctScores(b) && IsTop(server, b, TOP) && m < |server| && m <= p < |view|
    requires DistinctRows(view) && Descending(view)
    requires OnBoard(b, view[p].row) && OnBoard(b, view[m].row) && view[p].row.contestantID == server[m].contestantID
    requires forall i :: 0 <= i < m ==> view[i].row.contestantID == server[i].contestantID
    ensures view[m].row.contestantID == server[m].contestantID && view[m].row.score == server[m].score
  {
    NextAtMost(view, b, server, m);
    assert view[p].row.score == server[m].score;
    assert view[m].row.score >= view[p].row.score;
  }

  /** What the list shows next scores no more than what the server ranks next. */
  lemma {:induction false} NextAtMost(view: seq<Entry>, b: Board, server: seq<Scored>, m: nat)
    requires IsTop(server, b, TOP) && m < |server| && m < |view|
    requires DistinctRows(view) && OnBoard(b, view[m].row)
    requires forall i :: 0 <= i < m ==> view[i].row.contestantID == server[i].contestantID
    ensures view[m].row.score <= server[m].score
  {
    var x := view[m].row.contestantID;
    if ScoredIDs(server, x) {
      var q :| 0 <= q < |server| && server[q].contestantID == x;
      assert q >= m;
    }
  }

  /** No update from position `k` on lowers a contestant's score. */
  ghost predicate NoLowering(init: Board, log: seq<Row>, k: nat) {
    forall p :: k <= p < |log| ==> NotLowered(init, log, p)
  }

  ghost predicate NotLowered(init: Board, log: seq<Row>, p: nat)
    requires p < |log|
  {
    var b, u := After(init, log[..p]), log[p];
    u.contestantID in b.scores ==> b.scores[u.contestantID] <= u.score
  }

  lemma {:induction false} NextScore(init: Board, log: seq<Row>, m: nat, id: string)
    requires m < |log| && NotLowered(init, log, m) && id in After(init, log[..m]).scores
    ensures id in After(init, log[..m + 1]).scores
    ensures After(init, log[..m]).scores[id] <= After(init, log[..m + 1]).scores[id]
  {
    assert log[..m + 1] == log[..m] + [log[m]];
    AfterAppend(init, log[..m], log[m]);
  }

  lemma {:induction false} ScoresOnlyRise(init: Board, log: seq<Row>, k: nat, n: nat, id: string)
    requires NoLowering(init, log, k) && k <= n <= |log| && id in After(init, log[..k]).scores
    ensures id in After(init, log[..n]).scores
    ensures After(init, log[..k]).scores[id] <= After(init, log[..n]).scores[id]
  {
    if k < n {
      ScoresOnlyRise(init, log, k, n - 1, id);
      NextScore(init, log, n - 1, id);
    }
  }

  /**
   If no update after the score read lowers anyone and final scores are distinct,
   the first 50 of the client's list are the server's Top50, however many
   contestants are on the board.
   */
  lemma TopAgreesWithoutLowering(entries: seq<Entry>, init: Board, log: seq<Row>, j: nat, k1: nat, k2: seq<nat>,
                                 top: seq<Scored>, server: seq<Scored>)
    requires j <= k1 && IsRead(entries, init, log, k1, k2, top)
    requires DistinctScores(After(init, log)) && IsTop(server, After(init, log), TOP)
    requires NoLowering(init, log, k1)
    ensures FirstAre(View(entries, log[j..]), server)
  {
    forall i | 0 <= i < |server|
      ensures ScoredIDs(top, server[i].contestantID) || Touches(log[j..], server[i].contestantID)
    {
      if !Touches(log[j..], server[i].contestantID) {
        LeaderWasInSnapshot(init, log, j, k1, top, server, i);
      }
    }
    TopAgreesIff(entries, init, log, j, k1, k2, top, server);
  }

  /** A contestant of the final top that no update named was already in the top that was read. */
  lemma LeaderWasInSnapshot(init: Board, log: seq<Row>, j: nat, k1: nat, top: seq<Scored>, server: seq<Scored>, i: nat)
    requires j <= k1 <= |log| && IsTop(top, After(init, log[..k1]), TOP)
    requires DistinctScores(After(init, log)) && IsTop(server, After(init, log), TOP)
    requires NoLowering(init, log, k1) && i < |server| && !Touches(log[j..], server[i].contestantID)
    ensures ScoredIDs(top, server[i].contestantID)
  {
    var y := server[i].contestantID;
    var b, c := After(init, log[..k1]), After(init, log);
    UntouchedBetween(init, log, j, k1, y);
    if !ScoredIDs(top, y) {
      TopLeavesOutOnlyWhenFull(top, b, TOP, y);
      forall id | id in IDs(top) ensures id in c.scores && c.scores[id] >= c.scores[y] && id != y {
        var q :| 0 <= q < |top| && top[q].contestantID == id;
        assert log[..|log|] == log;
        ScoresOnlyRise(init, log, k1, |log|, id);
      }
      TooManyAhead(c, server, i, IDs(top));
      IDsCount(top);
    }
  }

  lemma AheadIsInTop(c: Board, server: seq<Scored>, i: nat, id: string)
    requires DistinctScores(c) && IsTop(server, c, TOP) && i < |server|
    requires id in c.scores && c.scores[id] >= server[i].score && id != server[i].contestantID
    ensures id in IDs(server)
  {
    assert c.scores[id] != c.scores[server[i].contestantID];
    assert ScoredIDs(server, id);
  }

  /** Fewer than 50 contestants are ahead of one in the top 50. */
  lemma {:induction false} TooManyAhead(c: Board, server: seq<Scored>, i: nat, ahead: set<string>)
    requires DistinctScores(c) && IsTop(server, c, TOP) && i < |server|
    requires forall id :: id in ahead ==>
      id in c.scores && c.scores[id] >= c.scores[server[i].contestantID] && id != server[i].contestantID
    ensures |ahead| < TOP
  {
    forall id | id in ahead ensures id in IDs(server) {
      AheadIsInTop(c, server, i, id);
    }
    IDsCount(server);
    SmallerWithout(ahead, IDs(server), server[i].contestantID);
  }

  lemma SmallerWithout(a: set<string>, b: set<string>, missing: string)
    requires a <= b && missing in b && missing !in a
    ensures |a| < |b|
  {
    assert |b - a| == |b| - |a|;
    assert missing in b - a;
  }
}
