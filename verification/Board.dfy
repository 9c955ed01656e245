/**
 The leaderboard's Redis board (apps/leaderboard/internal/redis/redis.go:40-86):
 a sorted set of scores with a metrics hash per contestant.
 */
module Boards {

  /** One row of the leaderboard, without its rank. */
  datatype Row = Row(contestantID: string, score: real, p50: real, p99: real)

  datatype Metrics = Metrics(p50: real, p99: real)

  datatype Board = Board(scores: map<string, real>, metrics: map<string, Metrics>)

  /** `UpdateScore`: the score and the metrics change in one transaction. */
  function Update(b: Board, u: Row): Board {
    Board(b.scores[u.contestantID := u.score], b.metrics[u.contestantID := Metrics(u.p50, u.p99)])
  }

  /** An absent hash reads as zeros, which is the case for the seeded demo entries. */
  function MetricsOf(b: Board, id: string): Metrics {
    if id in b.metrics then b.metrics[id] else Metrics(0.0, 0.0)
  }

  function After(b: Board, us: seq<Row>): Board {
    if us == [] then b else Update(After(b, us[..|us| - 1]), us[|us| - 1])
  }

  lemma AfterAppend(b: Board, us: seq<Row>, u: Row)
    ensures After(b, us + [u]) == Update(After(b, us), u)
  {
    assert (us + [u])[..|us|] == us;
  }

  predicate Touches(us: seq<Row>, id: string) {
    exists k :: 0 <= k < |us| && us[k].contestantID == id
  }

  /** The latest of the updates for a contestant. */
  function Latest(us: seq<Row>, id: string): (u: Row)
    requires Touches(us, id)
    ensures u in us && u.contestantID == id
  {
    if us[|us| - 1].contestantID == id then us[|us| - 1]
    else
      var k :| 0 <= k < |us| && us[k].contestantID == id;
      assert us[..|us| - 1][k].contestantID == id;
      Latest(us[..|us| - 1], id)
  }

  predicate OnBoard(b: Board, r: Row) {
    r.contestantID in b.scores && b.scores[r.contestantID] == r.score && MetricsOf(b, r.contestantID) == Metrics(r.p50, r.p99)
  }

  /** The board shows each contestant's latest update, and is unchanged for the others. */
  lemma {:induction false} AfterShowsLatest(b: Board, us: seq<Row>, id: string)
    ensures Touches(us, id) ==> OnBoard(After(b, us), Latest(us, id))
    ensures !Touches(us, id) ==>
      && (id in After(b, us).scores <==> id in b.scores)
      && (id in b.scores ==> After(b, us).scores[id] == b.scores[id])
      && MetricsOf(After(b, us), id) == MetricsOf(b, id)
  {
    if us != [] {
      var p, u := us[..|us| - 1], us[|us| - 1];
      AfterShowsLatest(b, p, id);
      if u.contestantID != id {
        if Touches(p, id) {
          var k :| 0 <= k < |p| && p[k].contestantID == id;
          assert us[k].contestantID == id;
        }
        if Touches(us, id) {
          var k :| 0 <= k < |us| && us[k].contestantID == id;
          assert p[k].contestantID == id;
        }
      } else {
        assert Touches(us, id);
      }
    }
  }

  lemma {:induction false} AfterConcat(b: Board, us: seq<Row>, vs: seq<Row>)
    ensures After(b, us + vs) == After(After(b, us), vs)
  {
    if vs == [] {
      assert us + vs == us;
    } else {
      var p, v := vs[..|vs| - 1], vs[|vs| - 1];
      AfterConcat(b, us, p);
      assert us + vs == (us + p) + [v];
      AfterAppend(b, us + p, v);
    }
  }

  // ---------- the ranked read ----------

  datatype Scored = Scored(contestantID: string, score: real)

  ghost predicate ScoredIDs(top: seq<Scored>, id: string) {
    exists i :: 0 <= i < |top| && top[i].contestantID == id
  }

  /**
   `ZREVRANGE 0 limit-1 WITHSCORES`: the highest `limit` members, highest first.
   Members with equal scores may come in any order.
   */
  ghost predicate IsTop(top: seq<Scored>, b: Board, limit: nat) {
    && (forall i :: 0 <= i < |top| ==> top[i].contestantID in b.scores && b.scores[top[i].contestantID] == top[i].score)
    && (forall i, j :: 0 <= i < j < |top| ==> top[i].contestantID != top[j].contestantID && top[i].score >= top[j].score)
    && |top| == (if |b.scores| < limit then |b.scores| else limit)
    && (forall id, i :: id in b.scores && !ScoredIDs(top, id) && 0 <= i < |top| ==> b.scores[id] <= top[i].score)
  }

  function IDs(top: seq<Scored>): set<string> {
    set i | 0 <= i < |top| :: top[i].contestantID
  }

  lemma {:induction false} IDsCount(top: seq<Scored>)
    requires forall i, j :: 0 <= i < j < |top| ==> top[i].contestantID != top[j].contestantID
    ensures |IDs(top)| == |top|
  {
    if top == [] {
      assert IDs(top) == {};
    } else {
      var p := top[..|top| - 1];
      IDsCount(p);
      assert IDs(top) == IDs(p) + {top[|top| - 1].contestantID};
    }
  }

  /** A read that leaves someone out is full. */
  lemma TopLeavesOutOnlyWhenFull(top: seq<Scored>, b: Board, limit: nat, id: string)
    requires IsTop(top, b, limit) && id in b.scores && !ScoredIDs(top, id)
    ensures |top| == limit
  {
    IDsCount(top);
    if |top| < limit {
      assert IDs(top) <= b.scores.Keys;
      assert |b.scores.Keys| == |b.scores|;
      SubsetOfSameSize(IDs(top), b.scores.Keys);
      assert false;
    }
  }

  lemma SubsetOfSameSize(a: set<string>, b: set<string>)
    requires a <= b && |a| == |b|
    ensures a == b
  {
    assert |b - a| == |b| - |a|;
  }
}
