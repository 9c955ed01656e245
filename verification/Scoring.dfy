/**
 The score (apps/scorer/internal/scoring/formula.go) and the keep-best board
 (apps/scorer/internal/leaderboard/redis.go:32-41), in exact arithmetic.
 */
module Scoring {
  import opened Boards
  import opened Windows

  const WEIGHT_LATENCY := 0.35
  const WEIGHT_THROUGHPUT := 0.35
  const WEIGHT_CORRECTNESS := 0.30
  const MAX_ACCEPTABLE_P99_MS := 500.0
  const MIN_ACCEPTABLE_TPS := 100

  function LatencyComponent(p99Ms: real): real {
    if p99Ms <= 0.0 then 1.0
    else if p99Ms >= MAX_ACCEPTABLE_P99_MS then 0.0
    else 1.0 - p99Ms / MAX_ACCEPTABLE_P99_MS
  }

  function ThroughputComponent(maxTPS: int): real {
    if maxTPS <= 0 then 0.0
    else if maxTPS >= MIN_ACCEPTABLE_TPS * 10 then 1.0
    else maxTPS as real / (MIN_ACCEPTABLE_TPS * 10) as real
  }

  function Clamp(val: real, lo: real, hi: real): real {
    if val < lo then lo else if val > hi then hi else val
  }

  function Raw(p99Ms: real, maxTPS: int, correctness: real): real {
    (WEIGHT_LATENCY * LatencyComponent(p99Ms) + WEIGHT_THROUGHPUT * ThroughputComponent(maxTPS)
     + WEIGHT_CORRECTNESS * correctness) * 100.0
  }

  function Calculate(p99Ms: real, maxTPS: int, correctness: real): real {
    Clamp(Raw(p99Ms, maxTPS, correctness), 0.0, 100.0)
  }

  /** A better run never scores lower: less latency, more throughput, more correctness. */
  lemma BetterScoresHigher(p: real, q: real, s: int, t: int, c: real, d: real)
    requires p >= q && s <= t && c <= d
    ensures 0.0 <= Calculate(p, s, c) <= Calculate(q, t, d) <= 100.0
  {
    LatencyAntitone(p, q);
    ThroughputMonotone(s, t);
  }

  lemma LatencyAntitone(p: real, q: real)
    requires p >= q
    ensures 0.0 <= LatencyComponent(p) <= LatencyComponent(q) <= 1.0
  {
  }

  lemma ThroughputMonotone(s: int, t: int)
    requires s <= t
    ensures 0.0 <= ThroughputComponent(s) <= ThroughputComponent(t) <= 1.0
  {
  }

  function Max(x: real, y: real): real { if x >= y then x else y }

  function Min(x: real, y: real): real { if x <= y then x else y }

  /** The components are the documented formulas exactly on non-negative measurements. */
  lemma ComponentsAsDocumented(p99Ms: real, maxTPS: int)
    ensures LatencyComponent(p99Ms) == Max(0.0, (500.0 - p99Ms) / 500.0) <==> p99Ms >= 0.0
    ensures ThroughputComponent(maxTPS) == Min(1.0, maxTPS as real / 1000.0) <==> maxTPS >= 0
  {
    assert (500.0 - p99Ms) / 500.0 == 1.0 - p99Ms / 500.0;
  }

  /** A flawless run scores 100, of which latency and throughput are worth 35 each and correctness 30. */
  lemma WeightsAsDocumented(p99Ms: real, maxTPS: int, correctness: real)
    requires p99Ms >= 0.0 && maxTPS >= 0 && 0.0 <= correctness <= 1.0
    ensures Calculate(p99Ms, maxTPS, correctness) ==
            35.0 * Max(0.0, (500.0 - p99Ms) / 500.0) + 35.0 * Min(1.0, maxTPS as real / 1000.0) + 30.0 * correctness
  {
    ComponentsAsDocumented(p99Ms, maxTPS);
    ClampIdleForFractions(p99Ms, maxTPS, correctness);
  }

  /** The documented formula with every part kept in its range. */
  function DocumentedScore(p99Ms: real, maxTPS: int, correctness: real): real {
    Max(0.0, Min(100.0, 35.0 * Max(0.0, Min(1.0, (500.0 - p99Ms) / 500.0))
                        + 35.0 * Max(0.0, Min(1.0, maxTPS as real / 1000.0)) + 30.0 * correctness))
  }

  /** The code computes it on all measurements, negative ones too. */
  lemma ScoreAsDocumented(p99Ms: real, maxTPS: int, correctness: real)
    ensures Calculate(p99Ms, maxTPS, correctness) == DocumentedScore(p99Ms, maxTPS, correctness)
  {
    assert (500.0 - p99Ms) / 500.0 == 1.0 - p99Ms / 500.0;
  }

  /** The clamp never acts on a correctness in [0, 1]. */
  lemma ClampIdleForFractions(p99Ms: real, maxTPS: int, correctness: real)
    requires 0.0 <= correctness <= 1.0
    ensures Calculate(p99Ms, maxTPS, correctness) == Raw(p99Ms, maxTPS, correctness)
  {
    LatencyAntitone(p99Ms, p99Ms);
    ThroughputMonotone(maxTPS, maxTPS);
  }

  /** So it never acts on a run the ingester reported, whatever its latency. */
  lemma IngestedScoreUnclamped(snap: RunSnapshot, runID: string, w: Window, p99Ms: real)
    requires IsSnapshotOf(snap, runID, w)
    ensures Calculate(p99Ms, snap.maxTPS, snap.correctness) == Raw(p99Ms, snap.maxTPS, snap.correctness)
  {
    VerdictInUnit(w.events, snap.correctness);
    ClampIdleForFractions(p99Ms, snap.maxTPS, snap.correctness);
  }

  // ---------- the keep-best board ----------

  datatype RunResult = RunResult(runID: string, contestantID: string, p50: real, p99: real, maxTPS: int, correctness: real)

  /** The score.updated event. */
  datatype ScoreUpdated = ScoreUpdated(contestantID: string, runID: string, score: real, p50: real, p99: real)

  function ScoreOf(r: RunResult): real {
    Calculate(r.p99, r.maxTPS, r.correctness)
  }

  /** `ZADD GT`: add a missing member, otherwise only raise its score. */
  function Raised(scores: map<string, real>, id: string, score: real): map<string, real> {
    if id in scores && score <= scores[id] then scores else scores[id := score]
  }

  class ScorerBoard {
    var scores: map<string, real>

    constructor ()
      ensures scores == map[]
    {
      scores := map[];
    }

    method Upsert(contestantID: string, score: real)
      modifies this
      ensures scores == Raised(old(scores), contestantID, score)
      ensures forall id :: id in old(scores) ==> id in scores && scores[id] >= old(scores)[id]
    {
      if contestantID !in scores || scores[contestantID] < score {
        scores := scores[contestantID := score];
      }
    }

    /**
     The consumer's loop over run.completed events, with what it publishes: one event
     for each run, with the documented score. The board, which may hold earlier
     scores, ends with each contestant's best.
     */
    method Consume(runs: seq<RunResult>) returns (published: seq<ScoreUpdated>)
      modifies this
      ensures |published| == |runs|
      ensures forall k :: 0 <= k < |runs| ==>
        && published[k].contestantID == runs[k].contestantID && published[k].runID == runs[k].runID
        && published[k].p50 == runs[k].p50 && published[k].p99 == runs[k].p99
        && published[k].score == DocumentedScore(runs[k].p99, runs[k].maxTPS, runs[k].correctness)
      ensures forall id :: id in scores <==> id in old(scores) || exists k :: 0 <= k < |runs| && published[k].contestantID == id
      ensures forall id :: id in old(scores) ==> id in scores && old(scores)[id] <= scores[id]
      ensures forall k :: 0 <= k < |runs| ==> published[k].contestantID in scores && published[k].score <= scores[published[k].contestantID]
      ensures forall id :: id in scores ==>
        || (id in old(scores) && scores[id] == old(scores)[id])
        || exists k :: 0 <= k < |runs| && published[k].contestantID == id && published[k].score == scores[id]
      ensures scores == BestAfter(old(scores), runs)
      ensures forall k :: 0 <= k < |runs| ==> LiveRows(runs)[k] == RowOf(published[k])
    {
      published := [];
      ghost var before := scores;
      for i := 0 to |runs|
        invariant scores == BestAfter(before, runs[..i])
        invariant |published| == i && forall k :: 0 <= k < i ==> Announces(published[k], runs[k])
      {
        var r := runs[i];
        var score := Calculate(r.p99, r.maxTPS, r.correctness);
        ScoreAsDocumented(r.p99, r.maxTPS, r.correctness);
        Upsert(r.contestantID, score);
        published := published + [ScoreUpdated(r.contestantID, r.runID, score, r.p50, r.p99)];
        assert runs[..i + 1][..i] == runs[..i];
      }
      assert runs[..|runs|] == runs;
      BoardIsBest(before, runs, published);
      forall k | 0 <= k < |runs| ensures LiveRows(runs)[k] == RowOf(published[k]) {
        LiveRowAt(runs, k);
      }
    }
  }

  /** The event carries the run's data and its documented score. */
  predicate Announces(e: ScoreUpdated, r: RunResult) {
    && e.contestantID == r.contestantID && e.runID == r.runID && e.p50 == r.p50 && e.p99 == r.p99
    && e.score == ScoreOf(r) == DocumentedScore(r.p99, r.maxTPS, r.correctness)
  }

  lemma {:induction false} BoardIsBest(before: map<string, real>, runs: seq<RunResult>, published: seq<ScoreUpdated>)
    requires |published| == |runs| && forall k :: 0 <= k < |runs| ==> Announces(published[k], runs[k])
    ensures var scores := BestAfter(before, runs);
      && (forall id :: id in scores <==> id in before || exists k :: 0 <= k < |runs| && published[k].contestantID == id)
      && (forall id :: id in before ==> id in scores && before[id] <= scores[id])
      && (forall k :: 0 <= k < |runs| ==> published[k].contestantID in scores && published[k].score <= scores[published[k].contestantID])
      && (forall id :: id in scores ==>
            || (id in before && scores[id] == before[id])
            || exists k :: 0 <= k < |runs| && published[k].contestantID == id && published[k].score == scores[id])
  {
    var scores := BestAfter(before, runs);
    forall id ensures id in scores <==> id in before || Ran(runs, id) { BoardHoldsBest(before, runs, id); }
    forall id | id in scores ensures IsBest(before, runs, id, scores[id]) { BoardHoldsBest(before, runs, id); }
    forall k | 0 <= k < |runs| ensures runs[k] in runs { }
    forall id | id in scores
      ensures (id in before && scores[id] == before[id]) ||
              exists k :: 0 <= k < |runs| && published[k].contestantID == id && published[k].score == scores[id]
    {
      if r :| r in runs && r.contestantID == id && ScoreOf(r) == scores[id] {
        var k :| 0 <= k < |runs| && runs[k] == r;
        assert published[k].contestantID == id;
      }
    }
    forall id | Ran(runs, id) ensures exists k :: 0 <= k < |runs| && published[k].contestantID == id {
      var r :| r in runs && r.contestantID == id;
      var k :| 0 <= k < |runs| && runs[k] == r;
      assert published[k].contestantID == id;
    }
    forall k | 0 <= k < |runs| ensures Ran(runs, published[k].contestantID) {
      assert runs[k] in runs;
    }
  }

  /** The row the leaderboard reads off the event. */
  function RowOf(e: ScoreUpdated): Row {
    Row(e.contestantID, e.score, e.p50, e.p99)
  }

  lemma {:induction false} LiveRowAt(runs: seq<RunResult>, k: nat)
    requires k < |runs|
    ensures LiveRows(runs)[k] == Row(runs[k].contestantID, ScoreOf(runs[k]), runs[k].p50, runs[k].p99)
  {
    if k < |runs| - 1 {
      LiveRowAt(runs[..|runs| - 1], k);
    }
  }

  /** The board after the runs, if it held `before`. */
  function BestAfter(before: map<string, real>, runs: seq<RunResult>): map<string, real> {
    if runs == [] then before
    else Raised(BestAfter(before, runs[..|runs| - 1]), runs[|runs| - 1].contestantID, ScoreOf(runs[|runs| - 1]))
  }

  /** The rows of the score.updated events, in order. */
  function LiveRows(runs: seq<RunResult>): (rows: seq<Row>)
    ensures |rows| == |runs|
  {
    if runs == [] then []
    else
      var r := runs[|runs| - 1];
      LiveRows(runs[..|runs| - 1]) + [Row(r.contestantID, ScoreOf(r), r.p50, r.p99)]
  }

  ghost predicate Ran(runs: seq<RunResult>, id: string) {
    exists r :: r in runs && r.contestantID == id
  }

  /** `best` is the highest of a contestant's score on the board before and the scores of its runs. */
  ghost predicate IsBest(before: map<string, real>, runs: seq<RunResult>, id: string, best: real) {
    && ((id in before && before[id] == best) || exists r :: r in runs && r.contestantID == id && ScoreOf(r) == best)
    && (id in before ==> before[id] <= best)
    && (forall r :: r in runs && r.contestantID == id ==> ScoreOf(r) <= best)
  }

  /** The board holds exactly the contestants it held or that ran, each with its best score. */
  lemma {:induction false} BoardHoldsBest(before: map<string, real>, runs: seq<RunResult>, id: string)
    ensures id in BestAfter(before, runs) <==> id in before || Ran(runs, id)
    ensures id in BestAfter(before, runs) ==> IsBest(before, runs, id, BestAfter(before, runs)[id])
  {
    if runs != [] {
      var p, r := runs[..|runs| - 1], runs[|runs| - 1];
      assert runs == p + [r];
      BoardHoldsBest(before, p, id);
    }
  }

  /** So the order in which runs complete does not matter. */
  lemma BoardIgnoresOrder(before: map<string, real>, a: seq<RunResult>, b: seq<RunResult>)
    requires multiset(a) == multiset(b)
    ensures BestAfter(before, a) == BestAfter(before, b)
  {
    assert forall r :: r in a <==> r in multiset(a);
    assert forall r :: r in b <==> r in multiset(b);
    var x, y := BestAfter(before, a), BestAfter(before, b);
    forall id ensures (id in x <==> id in y) && (id in x ==> x[id] == y[id]) {
      BoardHoldsBest(before, a, id);
      BoardHoldsBest(before, b, id);
    }
  }

  /** Restarting the consumer between two batches does not matter either: the board carries over. */
  lemma {:induction false} BoardCarriesOver(before: map<string, real>, a: seq<RunResult>, b: seq<RunResult>)
    ensures BestAfter(BestAfter(before, a), b) == BestAfter(before, a + b)
  {
    if b == [] {
      assert a + b == a;
    } else {
      var p, r := b[..|b| - 1], b[|b| - 1];
      BoardCarriesOver(before, a, p);
      assert a + b == (a + p) + [r];
      assert ((a + p) + [r])[..|a + p|] == a + p;
    }
  }

  /** The live board shows a contestant's latest score, which is never above the best. */
  lemma {:induction false} LatestNeverAboveBest(init: Board, before: map<string, real>, runs: seq<RunResult>, id: string)
    requires Ran(runs, id)
    ensures id in BestAfter(before, runs) && id in After(init, LiveRows(runs)).scores
    ensures After(init, LiveRows(runs)).scores[id] <= BestAfter(before, runs)[id]
  {
    var p, r := runs[..|runs| - 1], runs[|runs| - 1];
    assert runs == p + [r];
    AfterAppend(init, LiveRows(p), Row(r.contestantID, ScoreOf(r), r.p50, r.p99));
    if r.contestantID != id {
      LatestNeverAboveBest(init, before, p, id);
    }
  }

  lemma {:induction false} RowsTouch(runs: seq<RunResult>, id: string)
    ensures Touches(LiveRows(runs), id) <==> Ran(runs, id)
  {
    if runs != [] {
      var p, r := runs[..|runs| - 1], runs[|runs| - 1];
      assert runs == p + [r];
      RowsTouch(p, id);
      var row := Row(r.contestantID, ScoreOf(r), r.p50, r.p99);
      var rows := LiveRows(p) + [row];
      if r.contestantID == id {
        assert rows[|rows| - 1].contestantID == id;
      } else if k :| 0 <= k < |LiveRows(p)| && LiveRows(p)[k].contestantID == id {
        assert rows[k].contestantID == id;
      }
    }
  }

  /**
   The two boards agree on a contestant that ran if and only if neither its score
   on the board before nor an earlier run beat its latest one: the live board
   follows the latest run, not the best.
   */
  lemma BoardsAgreeIff(init: Board, before: map<string, real>, runs: seq<RunResult>, id: string)
    requires Ran(runs, id)
    ensures Touches(LiveRows(runs), id)
    ensures id in BestAfter(before, runs) && id in After(init, LiveRows(runs)).scores
    ensures After(init, LiveRows(runs)).scores[id] == BestAfter(before, runs)[id] <==>
      var latest := Latest(LiveRows(runs), id).score;
      && (id in before ==> before[id] <= latest)
      && (forall r :: r in runs && r.contestantID == id ==> ScoreOf(r) <= latest)
  {
    RowsTouch(runs, id);
    AfterShowsLatest(init, LiveRows(runs), id);
    BoardHoldsBest(before, runs, id);
    LatestNeverAboveBest(init, before, runs, id);
    LatestIsARun(runs, id);
  }

  /** The latest published score is that of one of the contestant's runs. */
  lemma {:induction false} LatestIsARun(runs: seq<RunResult>, id: string)
    requires Touches(LiveRows(runs), id)
    ensures exists r :: r in runs && r.contestantID == id && ScoreOf(r) == Latest(LiveRows(runs), id).score
  {
    RowsAreRuns(runs, Latest(LiveRows(runs), id));
  }

  lemma {:induction false} RowsAreRuns(runs: seq<RunResult>, row: Row)
    requires row in LiveRows(runs)
    ensures exists r :: r in runs && r.contestantID == row.contestantID && ScoreOf(r) == row.score
  {
    var p, last := runs[..|runs| - 1], runs[|runs| - 1];
    assert runs == p + [last];
    if row in LiveRows(p) {
      RowsAreRuns(p, row);
      var r :| r in p && r.contestantID == row.contestantID && ScoreOf(r) == row.score;
      assert r in runs;
    } else {
      assert last in runs;
    }
  }

  /** A worse second run lowers the live board below the best. */
  lemma WorseRunLowersLiveBoard()
    ensures var runs := [RunResult("r1", "c", 1.0, 0.0, 1000, 1.0), RunResult("r2", "c", 1.0, 500.0, 1000, 1.0)];
      "c" in BestAfter(map[], runs) && "c" in After(Board(map[], map[]), LiveRows(runs)).scores
      && After(Board(map[], map[]), LiveRows(runs)).scores["c"] < BestAfter(map[], runs)["c"]
  {
    var a, b := RunResult("r1", "c", 1.0, 0.0, 1000, 1.0), RunResult("r2", "c", 1.0, 500.0, 1000, 1.0);
    assert [a, b][..1] == [a] && [a][..0] == [];
    assert ScoreOf(a) == 100.0 && ScoreOf(b) == 65.0;
    AfterAppend(Board(map[], map[]), LiveRows([a]), Row("c", ScoreOf(b), 1.0, 500.0));
  }
}
