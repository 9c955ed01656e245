/**
 Any number of submissions going through the tracker at once: the upload handler
 (apps/submission/internal/handler/upload.go:137) and the four consumers
 (apps/submission/internal/consumer/kafka.go:130-131, 158, 185, 215) interleave
 their atomic tracker calls freely, and a message may be delivered again.
 */
module TrackerRuns {
  import opened Trackers

  datatype Job = Job(submissionID: string, contestantID: string, runID: string, score: real)

  /** The handler queues; run.started marks running, then sets the run; completion, score and failure arrive on their own. */
  datatype Op = Queue | Start | SetRun | Complete | Score | Fail

  datatype Step = Step(job: nat, op: Op)

  ghost predicate Jobs(jobs: seq<Job>) {
    && (forall i, j :: 0 <= i < j < |jobs| ==> jobs[i].submissionID != jobs[j].submissionID && jobs[i].runID != jobs[j].runID)
    && (forall i :: 0 <= i < |jobs| ==> jobs[i].runID != "")
  }

  /** The effect of one tracker call. */
  ghost predicate Effect(j: Job, op: Op, m: map<string, Entry>, m': map<string, Entry>) {
    match op
    case Queue => m' == AfterSet(m, j.submissionID, j.contestantID, Queued)
    case Start => m' == AfterSet(m, j.submissionID, "", Running)
    case Fail => m' == AfterSet(m, j.submissionID, "", Failed)
    case SetRun => m' == AfterSetRunID(m, j.submissionID, j.runID)
    case Complete => StatusUpdated(m, j.runID, Completed, m')
    case Score => ScoreUpdated(m, j.runID, j.score, m')
  }

  /** The tracker's contents along a schedule of calls, each starting from what the last one left. */
  ghost predicate IsRun(jobs: seq<Job>, sched: seq<Step>, ms: seq<map<string, Entry>>) {
    && |ms| == |sched| + 1 && ms[0] == map[]
    && forall k :: 0 <= k < |sched| ==> sched[k].job < |jobs| && Effect(jobs[sched[k].job], sched[k].op, ms[k], ms[k + 1])
  }

  // ---------- submissions do not affect each other ----------

  /** The calls made for one job, in order. */
  function OpsOf(sched: seq<Step>, j: nat): seq<Op> {
    if sched == [] then []
    else
      var last := sched[|sched| - 1];
      OpsOf(sched[..|sched| - 1], j) + (if last.job == j then [last.op] else [])
  }

  function Reset(e: Option<Entry>, j: Job, contestantID: string, status: Status): Option<Entry> {
    if e.None? then Some(Entry(j.submissionID, contestantID, status, "", None))
    else Some(e.value.(status := status, contestantID := if contestantID != "" then contestantID else e.value.contestantID))
  }

  /** One call on a job's entry in a tracker that holds nothing else. */
  function SoloStep(e: Option<Entry>, j: Job, op: Op): Option<Entry> {
    match op
    case Queue => Reset(e, j, j.contestantID, Queued)
    case Start => Reset(e, j, "", Running)
    case Fail => Reset(e, j, "", Failed)
    case SetRun => if e.None? then None else Some(e.value.(runID := j.runID))
    case Complete => if e.Some? && e.value.runID == j.runID then Some(e.value.(status := Completed)) else e
    case Score => if e.Some? && e.value.runID == j.runID then Some(e.value.(score := Some(j.score))) else e
  }

  function Solo(j: Job, ops: seq<Op>): Option<Entry> {
    if ops == [] then None else SoloStep(Solo(j, ops[..|ops| - 1]), j, ops[|ops| - 1])
  }

  lemma SoloAppend(j: Job, ops: seq<Op>, op: Op)
    ensures Solo(j, ops + [op]) == SoloStep(Solo(j, ops), j, op)
  {
    assert (ops + [op])[..|ops|] == ops;
  }

  lemma {:induction false} SoloIDs(j: Job, ops: seq<Op>)
    ensures Solo(j, ops).Some? ==>
      Solo(j, ops).value.submissionID == j.submissionID && Solo(j, ops).value.runID in {"", j.runID}
  {
    if ops != [] {
      SoloIDs(j, ops[..|ops| - 1]);
    }
  }

  function Lookup(m: map<string, Entry>, id: string): Option<Entry> {
    if id in m then Some(m[id]) else None
  }

  ghost predicate OnlyJobs(jobs: seq<Job>, m: map<string, Entry>) {
    forall id :: id in m ==> exists j :: 0 <= j < |jobs| && jobs[j].submissionID == id
  }

  /** Each job's entry is what its own calls alone would leave. */
  ghost predicate EachAsAlone(jobs: seq<Job>, sched: seq<Step>, m: map<string, Entry>) {
    forall j :: 0 <= j < |jobs| ==> Lookup(m, jobs[j].submissionID) == Solo(jobs[j], OpsOf(sched, j))
  }

  /** An update by run ID finds the job's own entry, or nothing. */
  lemma FindsOwnEntry(jobs: seq<Job>, sched: seq<Step>, m: map<string, Entry>, j: nat, id: string)
    requires Jobs(jobs) && OnlyJobs(jobs, m) && EachAsAlone(jobs, sched, m) && j < |jobs|
    requires id in m && m[id].runID == jobs[j].runID
    ensures id == jobs[j].submissionID
  {
    var i :| 0 <= i < |jobs| && jobs[i].submissionID == id;
    SoloIDs(jobs[i], OpsOf(sched, i));
    assert Lookup(m, jobs[i].submissionID) == Solo(jobs[i], OpsOf(sched, i));
  }

  lemma {:induction false} StepAsAlone(jobs: seq<Job>, sched: seq<Step>, m: map<string, Entry>, s: Step, m': map<string, Entry>)
    requires Jobs(jobs) && OnlyJobs(jobs, m) && EachAsAlone(jobs, sched, m)
    requires s.job < |jobs| && Effect(jobs[s.job], s.op, m, m')
    ensures OnlyJobs(jobs, m')
    ensures forall id :: id != jobs[s.job].submissionID ==> Lookup(m', id) == Lookup(m, id)
    ensures Lookup(m', jobs[s.job].submissionID) == SoloStep(Lookup(m, jobs[s.job].submissionID), jobs[s.job], s.op)
  {
    var j := jobs[s.job];
    forall x | x in m && m[x].runID == j.runID ensures x == j.submissionID {
      FindsOwnEntry(jobs, sched, m, s.job, x);
    }
    OthersStay(j, m, s.op, m');
    OwnMoves(j, m, s.op, m');
    assert m'.Keys <= m.Keys + {j.submissionID};
  }

  lemma {:induction false} OthersStay(j: Job, m: map<string, Entry>, op: Op, m': map<string, Entry>)
    requires Effect(j, op, m, m') && forall x :: x in m && m[x].runID == j.runID ==> x == j.submissionID
    ensures forall id :: id != j.submissionID ==> Lookup(m', id) == Lookup(m, id)
    ensures m'.Keys <= m.Keys + {j.submissionID}
  {
  }

  lemma {:induction false} OwnMoves(j: Job, m: map<string, Entry>, op: Op, m': map<string, Entry>)
    requires Effect(j, op, m, m') && forall x :: x in m && m[x].runID == j.runID ==> x == j.submissionID
    ensures Lookup(m', j.submissionID) == SoloStep(Lookup(m, j.submissionID), j, op)
  {
    assert HasRun(m, j.runID) <==> j.submissionID in m && m[j.submissionID].runID == j.runID;
  }

  /**
   However the calls of all submissions interleave and repeat, at every moment each
   entry is exactly what its own submission's calls alone would have left.
   */
  lemma {:induction false} RunTracks(jobs: seq<Job>, sched: seq<Step>, ms: seq<map<string, Entry>>, n: nat)
    requires Jobs(jobs) && IsRun(jobs, sched, ms) && n <= |sched|
    ensures OnlyJobs(jobs, ms[n]) && EachAsAlone(jobs, sched[..n], ms[n])
  {
    if n > 0 {
      var p, s := sched[..n - 1], sched[n - 1];
      RunTracks(jobs, sched, ms, n - 1);
      assert sched[..n] == p + [s] && (p + [s])[..|p|] == p;
      StepAsAlone(jobs, p, ms[n - 1], s, ms[n]);
      forall j | 0 <= j < |jobs| ensures Lookup(ms[n], jobs[j].submissionID) == Solo(jobs[j], OpsOf(p + [s], j)) {
        if j == s.job {
          SoloAppend(jobs[j], OpsOf(p, j), s.op);
        } else {
          assert OpsOf(p + [s], j) == OpsOf(p, j);
        }
      }
    }
  }

  // ---------- what a submission's own calls leave ----------

  /** Calls that create a missing entry, and set the status of an existing one. */
  predicate Sets(op: Op) {
    op == Queue || op == Start || op == Fail
  }

  ghost predicate Created(ops: seq<Op>) {
    exists a :: 0 <= a < |ops| && Sets(ops[a])
  }

  /** The run ID was set after the entry was created. */
  ghost predicate RunKnown(ops: seq<Op>) {
    exists b :: 0 <= b < |ops| && ops[b] == SetRun && Created(ops[..b])
  }

  /** A score arrived after the run was known. */
  ghost predicate Scored(ops: seq<Op>) {
    exists k :: 0 <= k < |ops| && ops[k] == Score && RunKnown(ops[..k])
  }

  /** A completion arrived after the run was known, and no call set the status after it. */
  ghost predicate LastCompleted(ops: seq<Op>) {
    exists k :: 0 <= k < |ops| && ops[k] == Complete && RunKnown(ops[..k]) && forall l :: k < l < |ops| ==> !Sets(ops[l])
  }

  /** The call sets the status: it creates or resets the entry, or completes it once its run is known. */
  ghost predicate SetsStatus(ops: seq<Op>, k: nat) {
    k < |ops| && (Sets(ops[k]) || (ops[k] == Complete && RunKnown(ops[..k])))
  }

  /** The last call that sets the status is an `op`. */
  ghost predicate LastSet(ops: seq<Op>, op: Op) {
    exists k: nat :: SetsStatus(ops, k) && ops[k] == op && forall l: nat :: k < l ==> !SetsStatus(ops, l)
  }

  lemma {:induction false} LastSetAppend(p: seq<Op>, o: Op, op: Op)
    ensures LastSet(p + [o], op) <==>
      if Sets(o) || (o == Complete && RunKnown(p)) then o == op else LastSet(p, op)
  {
    var q := p + [o];
    assert q[|p|] == o && q[..|p|] == p;
    forall k: nat | k < |p| ensures SetsStatus(q, k) <==> SetsStatus(p, k) {
      assert q[k] == p[k] && q[..k] == p[..k];
    }
    assert SetsStatus(q, |p|) <==> Sets(o) || (o == Complete && RunKnown(p));
    if LastSet(p, op) && !SetsStatus(q, |p|) {
      var k: nat :| SetsStatus(p, k) && p[k] == op && forall l: nat :: k < l ==> !SetsStatus(p, l);
      assert SetsStatus(q, k) && q[k] == op;
    }
    if LastSet(q, op) && !SetsStatus(q, |p|) {
      var k: nat :| SetsStatus(q, k) && q[k] == op && forall l: nat :: k < l ==> !SetsStatus(q, l);
      assert SetsStatus(p, k) && p[k] == op;
    }
  }

  /** The call that leaves a status. */
  function Cause(status: Status): Op {
    match status
    case Queued => Queue
    case Running => Start
    case Failed => Fail
    case Completed => Complete
  }

  /** An entry's status is that of the last call to set it. */
  lemma {:induction false} StatusIsLastSet(j: Job, ops: seq<Op>)
    requires j.runID != "" && Solo(j, ops).Some?
    ensures LastSet(ops, Cause(Solo(j, ops).value.status))
  {
    var p, o := ops[..|ops| - 1], ops[|ops| - 1];
    assert ops == p + [o];
    SoloMeans(j, p);
    forall op: Op ensures LastSet(ops, op) <==> if Sets(o) || (o == Complete && RunKnown(p)) then o == op else LastSet(p, op) {
      LastSetAppend(p, o, op);
    }
    if Solo(j, p).Some? {
      StatusIsLastSet(j, p);
    }
  }

  lemma {:induction false} CreatedAppend(p: seq<Op>, o: Op)
    ensures Created(p + [o]) <==> Created(p) || Sets(o)
  {
    var q := p + [o];
    assert q[|p|] == o && forall i :: 0 <= i < |p| ==> q[i] == p[i];
  }

  lemma {:induction false} RunKnownAppend(p: seq<Op>, o: Op)
    ensures RunKnown(p + [o]) <==> RunKnown(p) || (o == SetRun && Created(p))
  {
    var q := p + [o];
    assert q[|p|] == o && q[..|p|] == p;
    assert forall i :: 0 <= i < |p| ==> q[i] == p[i] && q[..i] == p[..i];
  }

  lemma {:induction false} ScoredAppend(p: seq<Op>, o: Op)
    ensures Scored(p + [o]) <==> Scored(p) || (o == Score && RunKnown(p))
  {
    var q := p + [o];
    assert q[|p|] == o && q[..|p|] == p;
    assert forall i :: 0 <= i < |p| ==> q[i] == p[i] && q[..i] == p[..i];
  }

  lemma {:induction false} LastCompletedAppend(p: seq<Op>, o: Op)
    ensures LastCompleted(p + [o]) <==> (o == Complete && RunKnown(p)) || (!Sets(o) && LastCompleted(p))
  {
    var q := p + [o];
    assert q[|p|] == o && q[..|p|] == p;
    assert forall i :: 0 <= i < |p| ==> q[i] == p[i] && q[..i] == p[..i];
    if LastCompleted(q) {
      var k :| 0 <= k < |q| && q[k] == Complete && RunKnown(q[..k]) && forall l :: k < l < |q| ==> !Sets(q[l]);
      if k < |p| {
        assert !Sets(q[|p|]);
        assert forall l :: k < l < |p| ==> !Sets(q[l]);
      }
    }
    if !Sets(o) && LastCompleted(p) {
      var k :| 0 <= k < |p| && p[k] == Complete && RunKnown(p[..k]) && forall l :: k < l < |p| ==> !Sets(p[l]);
      assert q[k] == Complete && RunKnown(q[..k]);
    }
  }

  /** The entry read off the calls, without replaying them. */
  lemma {:induction false} SoloMeans(j: Job, ops: seq<Op>)
    requires j.runID != ""
    ensures Solo(j, ops).Some? <==> Created(ops)
    ensures Solo(j, ops).Some? ==> var e := Solo(j, ops).value;
      && e.submissionID == j.submissionID
      && e.contestantID == (if Queue in ops then j.contestantID else "")
      && e.runID == (if RunKnown(ops) then j.runID else "")
      && e.score == (if Scored(ops) then Some(j.score) else None)
      && (e.status == Completed <==> LastCompleted(ops))
    ensures Solo(j, ops).None? ==> Queue !in ops && !RunKnown(ops) && !Scored(ops) && !LastCompleted(ops)
  {
    if ops != [] {
      var p, o := ops[..|ops| - 1], ops[|ops| - 1];
      assert ops == p + [o];
      SoloMeans(j, p);
      CreatedAppend(p, o);
      RunKnownAppend(p, o);
      ScoredAppend(p, o);
      LastCompletedAppend(p, o);
    }
  }

  /** The entry every submission should end with. */
  function Expected(j: Job): Entry {
    Entry(j.submissionID, j.contestantID, Completed, j.runID, Some(j.score))
  }

  /**
   In every interleaving and under redelivery, a submission ends completed with its
   own run, score and contestant if and only if, among its own calls, it was
   queued, a score arrived after its run was known, and a completion arrived after
   its run was known with no later call that queues, starts or fails it.
   */
  lemma EndsAsExpectedIff(jobs: seq<Job>, sched: seq<Step>, ms: seq<map<string, Entry>>, j: nat)
    requires Jobs(jobs) && IsRun(jobs, sched, ms) && j < |jobs|
    ensures Lookup(ms[|sched|], jobs[j].submissionID) == Some(Expected(jobs[j])) <==>
      var ops := OpsOf(sched, j); (Queue in ops || jobs[j].contestantID == "") && Scored(ops) && LastCompleted(ops)
  {
    RunTracks(jobs, sched, ms, |sched|);
    assert sched[..|sched|] == sched;
    SoloMeans(jobs[j], OpsOf(sched, j));
    if Scored(OpsOf(sched, j)) { ScoredIsKnown(OpsOf(sched, j)); }
  }

  lemma ScoredIsKnown(ops: seq<Op>)
    requires Scored(ops)
    ensures RunKnown(ops) && Created(ops)
  {
    var k :| 0 <= k < |ops| && ops[k] == Score && RunKnown(ops[..k]);
    var b :| 0 <= b < k && ops[..k][b] == SetRun && Created(ops[..k][..b]);
    assert ops[..k][..b] == ops[..b];
    var a :| 0 <= a < b && Sets(ops[..b][a]);
    assert Sets(ops[a]);
  }

  // ---------- the orders that can occur ----------

  /** As the pipeline means it: queued, started, then completed and scored in either order. */
  predicate Intended(ops: seq<Op>) {
    ops == [Queue, Start, SetRun, Complete, Score] || ops == [Queue, Start, SetRun, Score, Complete]
  }

  lemma IntendedIsEnough(ops: seq<Op>)
    requires Intended(ops)
    ensures Queue in ops && Scored(ops) && LastCompleted(ops)
  {
    assert ops[0] == Queue;
    assert forall k :: 3 <= k < 5 ==> RunKnown(ops[..k]) by {
      forall k | 3 <= k < 5 ensures RunKnown(ops[..k]) {
        assert ops[..k][2] == SetRun && Sets(ops[..k][..2][0]);
      }
    }
    var s, c := if ops[3] == Score then 3 else 4, if ops[3] == Complete then 3 else 4;
    assert ops[s] == Score && ops[c] == Complete;
  }

  /** In the intended order all submissions end as expected, in every interleaving, and nothing else is tracked. */
  lemma IntendedOrderConverges(jobs: seq<Job>, sched: seq<Step>, ms: seq<map<string, Entry>>)
    requires Jobs(jobs) && IsRun(jobs, sched, ms)
    requires forall j :: 0 <= j < |jobs| ==> Intended(OpsOf(sched, j))
    ensures ms[|sched|].Keys == set j | 0 <= j < |jobs| :: jobs[j].submissionID
    ensures forall j :: 0 <= j < |jobs| ==> Lookup(ms[|sched|], jobs[j].submissionID) == Some(Expected(jobs[j]))
  {
    forall j | 0 <= j < |jobs| ensures Lookup(ms[|sched|], jobs[j].submissionID) == Some(Expected(jobs[j])) {
      IntendedIsEnough(OpsOf(sched, j));
      EndsAsExpectedIff(jobs, sched, ms, j);
    }
    RunTracks(jobs, sched, ms, |sched|);
  }

  /** The contents after each call when there is only one job. */
  function SoloContents(j: Job, ops: seq<Op>): map<string, Entry> {
    var e := Solo(j, ops);
    if e.Some? then map[j.submissionID := e.value] else map[]
  }

  function SoloSchedule(ops: seq<Op>): seq<Step> {
    seq(|ops|, i requires 0 <= i < |ops| => Step(0, ops[i]))
  }

  /** Every sequence of calls of one job is a run. */
  lemma {:induction false} SoloIsRun(j: Job, ops: seq<Op>) returns (ms: seq<map<string, Entry>>)
    ensures IsRun([j], SoloSchedule(ops), ms) && ms[|ops|] == SoloContents(j, ops)
  {
    ms := seq(|ops| + 1, i requires 0 <= i <= |ops| => SoloContents(j, ops[..i]));
    forall k | 0 <= k < |ops| ensures Effect(j, ops[k], ms[k], ms[k + 1]) {
      assert ops[..k + 1] == ops[..k] + [ops[k]];
      SoloAppend(j, ops[..k], ops[k]);
      SoloIDs(j, ops[..k]);
      OneEntryEffect(j, Solo(j, ops[..k]), ops[k]);
    }
    assert ops[..|ops|] == ops;
  }

  lemma {:induction false} OneEntryEffect(j: Job, e: Option<Entry>, op: Op)
    requires e.Some? ==> e.value.submissionID == j.submissionID
    ensures var m := if e.Some? then map[j.submissionID := e.value] else map[];
            var e' := SoloStep(e, j, op);
            Effect(j, op, m, if e'.Some? then map[j.submissionID := e'.value] else map[])
  {
    var m: map<string, Entry> := if e.Some? then map[j.submissionID := e.value] else map[];
    assert e.Some? ==> j.submissionID in m;
    assert HasRun(m, j.runID) <==> e.Some? && e.value.runID == j.runID;
  }

  /**
   The upload handler publishes before it queues. When the whole pipeline overtakes
   it, the finished submission ends as merely queued.
   */
  lemma LateQueueLosesCompletion(j: Job) returns (ms: seq<map<string, Entry>>)
    requires j.runID != ""
    ensures var sched := SoloSchedule([Start, SetRun, Complete, Score, Queue]);
      && IsRun([j], sched, ms)
      && Lookup(ms[|sched|], j.submissionID) == Some(Entry(j.submissionID, j.contestantID, Queued, j.runID, Some(j.score)))
  {
    ms := SoloIsRun(j, [Start, SetRun, Complete, Score, Queue]);
    SoloAppend(j, [], Start);
    SoloAppend(j, [Start], SetRun);
    SoloAppend(j, [Start, SetRun], Complete);
    SoloAppend(j, [Start, SetRun, Complete], Score);
    SoloAppend(j, [Start, SetRun, Complete, Score], Queue);
    assert [] + [Start] == [Start] && [Start] + [SetRun] == [Start, SetRun];
    assert [Start, SetRun] + [Complete] == [Start, SetRun, Complete];
    assert [Start, SetRun, Complete] + [Score] == [Start, SetRun, Complete, Score];
    assert [Start, SetRun, Complete, Score] + [Queue] == [Start, SetRun, Complete, Score, Queue];
  }

  /** A run.started message delivered again at the end sets a completed submission back to running. */
  lemma RedeliveredStartRegresses(j: Job, ops: seq<Op>)
    requires Solo(j, ops) == Some(Expected(j))
    ensures Solo(j, ops + [Start] + [SetRun]) == Some(Expected(j).(status := Running))
  {
    SoloAppend(j, ops, Start);
    SoloAppend(j, ops + [Start], SetRun);
  }

  /** Completions and scores delivered again change nothing. */
  lemma RedeliveredResultsHarmless(j: Job, ops: seq<Op>, op: Op)
    requires Solo(j, ops) == Some(Expected(j)) && (op == Complete || op == Score)
    ensures Solo(j, ops + [op]) == Solo(j, ops)
  {
    SoloAppend(j, ops, op);
  }
}
