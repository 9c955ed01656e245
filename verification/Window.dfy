/**
 Run windows (apps/ingester/internal/window/window.go): the values they hold,
 the objects that hold them, and the manager's operations taken one at a time.
 WindowProtocol.dfy interleaves the same operations at their lock steps.
 */
module Windows {
  import opened Validation
  import opened Ties

  const NS_PER_SEC := 1_000_000_000
  const GRACE_SECS := 2

  datatype TelemetryEvent = TelemetryEvent(
    runID: string, botID: string, orderID: string, sentAtNs: int, ackAtNs: int, correctFill: bool,
    orderType: string, rejected: bool, symbol: string, side: string, price: real, quantity: int)

  function ToFill(e: TelemetryEvent): FillEvent {
    FillEvent(e.orderID, e.symbol, e.side, e.orderType, e.quantity, e.price, e.sentAtNs, e.correctFill)
  }

  /** The contents of a window; the histogram is the multiset of recorded latencies. */
  datatype Window = Window(contestantID: string, latencies: multiset<int>, orderCount: int, startTimeNs: int,
                           lastEventNs: int, durationSecs: int, createdAt: int, events: seq<FillEvent>)

  function Opened(contestantID: string, sentAtNs: int, durationSecs: int, now: int): Window {
    Window(contestantID, multiset{}, 0, sentAtNs, 0, durationSecs, now, [])
  }

  function Record(w: Window, e: TelemetryEvent): Window {
    w.(orderCount := w.orderCount + 1,
       events := if e.rejected then w.events else w.events + [ToFill(e)],
       latencies := if e.ackAtNs > e.sentAtNs then w.latencies + multiset{e.ackAtNs - e.sentAtNs} else w.latencies,
       startTimeNs := if e.sentAtNs < w.startTimeNs then e.sentAtNs else w.startTimeNs,
       lastEventNs := if e.ackAtNs > w.lastEventNs then e.ackAtNs else w.lastEventNs)
  }

  predicate Complete(w: Window, now: int) {
    w.orderCount != 0 && now - w.createdAt >= (w.durationSecs + GRACE_SECS) * NS_PER_SEC
  }

  datatype RunSnapshot = RunSnapshot(runID: string, contestantID: string, latencies: multiset<int>,
                                     maxTPS: int, correctness: real)

  /** Orders per second, rounded down; zero when no time elapsed. */
  function MaxTPS(orderCount: int, elapsedNs: int): int {
    if elapsedNs > 0 && orderCount >= 0 then orderCount * NS_PER_SEC / elapsedNs else 0
  }

  /** `ratio` is the verdict on the events in some order sorted by send time. */
  ghost predicate IsVerdict(events: seq<FillEvent>, ratio: real) {
    exists es :: IsVerdictOn(events, es, ratio)
  }

  ghost predicate IsVerdictOn(events: seq<FillEvent>, es: seq<FillEvent>, ratio: real) {
    multiset(es) == multiset(events) && SortedBySent(es) && ratio == Ratio(Correct([], es), Total(es))
  }

  ghost predicate IsSnapshotOf(snap: RunSnapshot, runID: string, w: Window) {
    && snap.runID == runID
    && snap.contestantID == w.contestantID
    && snap.latencies == w.latencies
    && snap.maxTPS == MaxTPS(w.orderCount, w.lastEventNs - w.startTimeNs)
    && IsVerdict(w.events, snap.correctness)
  }

  /** The reported rate is the exact quotient rounded down, and zero when the clock did not advance. */
  lemma MaxTPSIsFloor(orderCount: int, elapsedNs: int)
    requires orderCount >= 0
    ensures elapsedNs > 0 ==>
      && MaxTPS(orderCount, elapsedNs) * elapsedNs <= orderCount * 1_000_000_000
      && orderCount * 1_000_000_000 < (MaxTPS(orderCount, elapsedNs) + 1) * elapsedNs
    ensures elapsedNs <= 0 ==> MaxTPS(orderCount, elapsedNs) == 0
  {
    if elapsedNs > 0 {
      var n := orderCount * NS_PER_SEC;
      assert n == n / elapsedNs * elapsedNs + n % elapsedNs;
    }
  }

  /** A snapshot's correctness is a fraction, as the scorer assumes. */
  lemma VerdictInUnit(events: seq<FillEvent>, ratio: real)
    requires IsVerdict(events, ratio)
    ensures 0.0 <= ratio <= 1.0
  {
    var es :| IsVerdictOn(events, es, ratio);
    RatioInUnit([], es);
  }

  // ---------- a window after any sequence of events ----------

  function RecordAll(w: Window, es: seq<TelemetryEvent>): Window {
    if es == [] then w else Record(RecordAll(w, es[..|es| - 1]), es[|es| - 1])
  }

  lemma RecordAllAppend(w: Window, es: seq<TelemetryEvent>, e: TelemetryEvent)
    ensures RecordAll(w, es + [e]) == Record(RecordAll(w, es), e)
  {
    assert (es + [e])[..|es|] == es;
  }

  /** Recording never touches the contestant, the duration or the creation time, and counts every event. */
  lemma {:induction false} RecordAllKeeps(w: Window, es: seq<TelemetryEvent>, contestantID: string)
    ensures var r := RecordAll(w, es);
      && r.contestantID == w.contestantID && r.durationSecs == w.durationSecs && r.createdAt == w.createdAt
      && r.orderCount == w.orderCount + |es|
      && RecordAll(w.(contestantID := contestantID), es) == r.(contestantID := contestantID)
  {
    if es != [] {
      RecordAllKeeps(w, es[..|es| - 1], contestantID);
    }
  }

  /** The totals of a batch; combining them commutes, so order cannot matter. */
  datatype Summary = Summary(count: nat, latencies: multiset<int>, fills: multiset<FillEvent>)

  function One(e: TelemetryEvent): Summary {
    Summary(1,
            if e.ackAtNs > e.sentAtNs then multiset{e.ackAtNs - e.sentAtNs} else multiset{},
            if e.rejected then multiset{} else multiset{ToFill(e)})
  }

  function Plus(a: Summary, b: Summary): Summary {
    Summary(a.count + b.count, a.latencies + b.latencies, a.fills + b.fills)
  }

  function Summarise(es: seq<TelemetryEvent>): Summary {
    if es == [] then Summary(0, multiset{}, multiset{})
    else Plus(Summarise(es[..|es| - 1]), One(es[|es| - 1]))
  }

  lemma {:induction false} SummariseAppend(es: seq<TelemetryEvent>, e: TelemetryEvent)
    ensures Summarise(es + [e]) == Plus(Summarise(es), One(e))
  {
    assert (es + [e])[..|es|] == es;
  }

  lemma PlusAssociates(a: Summary, b: Summary, c: Summary)
    ensures Plus(Plus(a, b), c) == Plus(a, Plus(b, c))
  {
  }

  lemma PlusCommutes(a: Summary, b: Summary)
    ensures Plus(a, b) == Plus(b, a)
  {
  }

  lemma {:induction false} SummariseConcat(a: seq<TelemetryEvent>, b: seq<TelemetryEvent>)
    ensures Summarise(a + b) == Plus(Summarise(a), Summarise(b))
  {
    if b == [] {
      assert a + b == a;
      PlusNothing(Summarise(a));
    } else {
      var p, e := b[..|b| - 1], b[|b| - 1];
      assert b == p + [e];
      SummariseConcat(a, p);
      ConcatStep(a, p, e);
    }
  }

  lemma PlusNothing(a: Summary)
    ensures Plus(a, Summary(0, multiset{}, multiset{})) == a
  {
  }

  lemma {:induction false} SummariseLonger(a: seq<TelemetryEvent>, p: seq<TelemetryEvent>, e: TelemetryEvent)
    ensures Summarise(a + (p + [e])) == Plus(Summarise(a + p), One(e))
  {
    assert a + (p + [e]) == (a + p) + [e];
    SummariseAppend(a + p, e);
  }

  lemma {:induction false} ConcatStep(a: seq<TelemetryEvent>, p: seq<TelemetryEvent>, e: TelemetryEvent)
    requires Summarise(a + p) == Plus(Summarise(a), Summarise(p))
    ensures Summarise(a + (p + [e])) == Plus(Summarise(a), Summarise(p + [e]))
  {
    SummariseLonger(a, p, e);
    SummariseAppend(p, e);
    PlusAssociates(Summarise(a), Summarise(p), One(e));
  }

  /** Taking one event out of a batch takes exactly its share out of the summary. */
  lemma {:induction false} SummariseWithout(b: seq<TelemetryEvent>, i: nat)
    requires i < |b|
    ensures Summarise(b) == Plus(Summarise(b[..i] + b[i + 1..]), One(b[i]))
  {
    var x, y, e := b[..i], b[i + 1..], b[i];
    assert b == (x + [e]) + y;
    MoveToEnd(x, e, y);
  }

  lemma {:induction false} MoveToEnd(x: seq<TelemetryEvent>, e: TelemetryEvent, y: seq<TelemetryEvent>)
    ensures Summarise((x + [e]) + y) == Plus(Summarise(x + y), One(e))
  {
    SummariseConcat(x + [e], y);
    SummariseAppend(x, e);
    SummariseConcat(x, y);
    PlusExchange(Summarise(x), One(e), Summarise(y));
  }

  lemma PlusExchange(a: Summary, b: Summary, c: Summary)
    ensures Plus(Plus(a, b), c) == Plus(Plus(a, c), b)
  {
    PlusAssociates(a, b, c);
    PlusCommutes(b, c);
    PlusAssociates(a, c, b);
  }

  lemma {:induction false} WithoutIsPermutation(p: seq<TelemetryEvent>, e: TelemetryEvent, b: seq<TelemetryEvent>) returns (i: nat)
    requires multiset(p + [e]) == multiset(b)
    ensures i < |b| && b[i] == e && multiset(p) == multiset(b[..i] + b[i + 1..])
  {
    assert e in multiset(b);
    i :| 0 <= i < |b| && b[i] == e;
    assert b == b[..i] + ([e] + b[i + 1..]);
    assert multiset(p) == multiset(p + [e]) - multiset{e};
  }

  lemma {:induction false} SummaryIgnoresOrder(a: seq<TelemetryEvent>, b: seq<TelemetryEvent>)
    requires multiset(a) == multiset(b)
    ensures Summarise(a) == Summarise(b)
    decreases |a|
  {
    if a == [] {
      SameLength(a, b);
    } else {
      var p, e := a[..|a| - 1], a[|a| - 1];
      assert a == p + [e];
      var i := WithoutIsPermutation(p, e, b);
      SummaryIgnoresOrder(p, b[..i] + b[i + 1..]);
      SummariseWithout(b, i);
    }
  }

  /** First order sent: at or below every send time, and one of them. */
  ghost predicate IsFirstSent(es: seq<TelemetryEvent>, t: int) {
    && (forall e :: e in es ==> t <= e.sentAtNs)
    && (exists e :: e in es && e.sentAtNs == t)
  }

  /** Last acknowledgement, counting from time zero. */
  ghost predicate IsLastAck(es: seq<TelemetryEvent>, t: int) {
    && (forall e :: e in es ==> e.ackAtNs <= t)
    && t >= 0
    && (t == 0 || exists e :: e in es && e.ackAtNs == t)
  }

  function SummaryOf(w: Window): Summary {
    Summary(if w.orderCount >= 0 then w.orderCount else 0, w.latencies, multiset(w.events))
  }

  /** What `es` must leave in a window that its first event opened. */
  ghost predicate Accumulated(w: Window, es: seq<TelemetryEvent>) {
    && SummaryOf(w) == Summarise(es) && w.orderCount == |es|
    && IsLastAck(es, w.lastEventNs)
    && (es != [] ==> IsFirstSent(es, w.startTimeNs))
  }

  lemma RecordSummary(w: Window, e: TelemetryEvent)
    requires w.orderCount >= 0
    ensures SummaryOf(Record(w, e)) == Plus(SummaryOf(w), One(e))
  {
  }

  lemma {:induction false} LastAckAppend(es: seq<TelemetryEvent>, t: int, e: TelemetryEvent)
    requires IsLastAck(es, t)
    ensures IsLastAck(es + [e], if e.ackAtNs > t then e.ackAtNs else t)
  {
    assert e in es + [e];
    assert forall x :: x in es ==> x in es + [e];
  }

  lemma {:induction false} FirstSentAppend(es: seq<TelemetryEvent>, t: int, e: TelemetryEvent)
    requires if es == [] then t == e.sentAtNs else IsFirstSent(es, t)
    ensures IsFirstSent(es + [e], if e.sentAtNs < t then e.sentAtNs else t)
  {
    assert e in es + [e];
    assert forall x :: x in es ==> x in es + [e];
  }

  lemma {:induction false} RecordAccumulates(w: Window, es: seq<TelemetryEvent>, e: TelemetryEvent)
    requires Accumulated(w, es)
    requires es == [] ==> w.startTimeNs == e.sentAtNs
    ensures Accumulated(Record(w, e), es + [e])
  {
    RecordSummary(w, e);
    SummariseAppend(es, e);
    LastAckAppend(es, w.lastEventNs, e);
    FirstSentAppend(es, w.startTimeNs, e);
  }

  /** Recording a batch into the window its first event opened accumulates exactly that batch. */
  lemma {:induction false} RecordAllAccumulates(contestantID: string, durationSecs: int, now: int, es: seq<TelemetryEvent>)
    requires es != []
    ensures Accumulated(RecordAll(Opened(contestantID, es[0].sentAtNs, durationSecs, now), es), es)
    decreases |es|
  {
    var w := Opened(contestantID, es[0].sentAtNs, durationSecs, now);
    var p, e := es[..|es| - 1], es[|es| - 1];
    assert es == p + [e];
    if p == [] {
      assert RecordAll(w, p) == w;
    } else {
      RecordAllAccumulates(contestantID, durationSecs, now, p);
    }
    RecordAccumulates(RecordAll(w, p), p, e);
  }

  lemma LastAckUnique(a: seq<TelemetryEvent>, b: seq<TelemetryEvent>, s: int, t: int)
    requires forall e :: e in a <==> e in b
    requires IsLastAck(a, s) && IsLastAck(b, t)
    ensures s == t
  {
  }

  lemma FirstSentUnique(a: seq<TelemetryEvent>, b: seq<TelemetryEvent>, s: int, t: int)
    requires forall e :: e in a <==> e in b
    requires IsFirstSent(a, s) && IsFirstSent(b, t)
    ensures s == t
  {
  }

  lemma {:induction false} VerdictUnique(a: seq<FillEvent>, b: seq<FillEvent>, r: real, q: real)
    requires multiset(a) == multiset(b) && TiesHarmless(multiset(a))
    requires IsVerdict(a, r) && IsVerdict(b, q)
    ensures r == q
  {
    var es :| IsVerdictOn(a, es, r);
    var fs :| IsVerdictOn(b, fs, q);
    OrderDoesNotMatter([], es, fs);
  }

  /**
   The metrics of a run depend only on which events it received: two windows that
   accumulated the same events, in any two orders, have the same snapshots.
   */
  lemma {:induction false} SnapshotIgnoresOrder(runID: string, w1: Window, w2: Window, a: seq<TelemetryEvent>, b: seq<TelemetryEvent>,
                             s1: RunSnapshot, s2: RunSnapshot)
    requires a != [] && multiset(a) == multiset(b)
    requires Accumulated(w1, a) && Accumulated(w2, b) && w1.contestantID == w2.contestantID
    requires TiesHarmless(Summarise(a).fills)
    requires IsSnapshotOf(s1, runID, w1) && IsSnapshotOf(s2, runID, w2)
    ensures s1 == s2
  {
    assert SummaryOf(w1) == SummaryOf(w2) by { SummaryIgnoresOrder(a, b); }
    SameLength(a, b);
    SameMembers(a, b);
    LastAckUnique(a, b, w1.lastEventNs, w2.lastEventNs);
    FirstSentUnique(a, b, w1.startTimeNs, w2.startTimeNs);
    VerdictUnique(w1.events, w2.events, s1.correctness, s2.correctness);
  }

  lemma SameMembers(a: seq<TelemetryEvent>, b: seq<TelemetryEvent>)
    requires multiset(a) == multiset(b)
    ensures forall e :: e in a <==> e in b
  {
    assert forall e :: e in a <==> e in multiset(a);
    assert forall e :: e in b <==> e in multiset(b);
  }

  // ---------- the objects ----------

  /** A fresh validator over the window's slice, which it leaves sorted. */
  method JudgeBatch(events: seq<FillEvent>) returns (ratio: real, sorted: seq<FillEvent>)
    ensures IsVerdictOn(events, sorted, ratio)
  {
    var v := new Validator();
    var batch := new FillEvent[|events|](i requires 0 <= i < |events| => events[i]);
    assert batch[..] == events;
    ratio := v.Validate(batch);
    sorted := batch[..];
    assert [] + sorted == sorted;
  }

  /** The fill event `f` says what the telemetry event `e` says. */
  predicate Carries(f: FillEvent, e: TelemetryEvent) {
    && f.orderID == e.orderID && f.symbol == e.symbol && f.side == e.side && f.orderType == e.orderType
    && f.quantity == e.quantity && f.price == e.price && f.sentAtNs == e.sentAtNs && f.filled == e.correctFill
  }

  class RunWindow {
    var contestantID: string
    var latencies: multiset<int>
    var orderCount: int
    var startTimeNs: int
    var lastEventNs: int
    const durationSecs: int
    const createdAt: int
    var events: seq<FillEvent>
    ghost const runID: string // the run this window was opened for

    ghost function Value(): Window
      reads this
    {
      Window(contestantID, latencies, orderCount, startTimeNs, lastEventNs, durationSecs, createdAt, events)
    }

    constructor (ghost runID: string, contestantID: string, sentAtNs: int, durationSecs: int, now: int)
      ensures this.runID == runID && Value() == Opened(contestantID, sentAtNs, durationSecs, now)
    {
      this.runID := runID;
      this.contestantID, this.durationSecs, this.createdAt := contestantID, durationSecs, now;
      latencies, orderCount, startTimeNs, lastEventNs, events := multiset{}, 0, sentAtNs, 0, [];
    }

    /** The critical section of `AddEvent` under the window's lock. */
    method RecordEvent(e: TelemetryEvent)
      modifies this
      ensures Value() == Record(old(Value()), e)
      ensures contestantID == old(contestantID) && orderCount == old(orderCount) + 1
      ensures e.rejected ==> events == old(events)
      ensures !e.rejected ==>
        && |events| == |old(events)| + 1 && events[..|old(events)|] == old(events)
        && Carries(events[|old(events)|], e)
      ensures latencies == old(latencies) + (if e.ackAtNs > e.sentAtNs then multiset{e.ackAtNs - e.sentAtNs} else multiset{})
      ensures startTimeNs <= e.sentAtNs && startTimeNs in {old(startTimeNs), e.sentAtNs} && startTimeNs <= old(startTimeNs)
      ensures lastEventNs >= e.ackAtNs && lastEventNs in {old(lastEventNs), e.ackAtNs} && lastEventNs >= old(lastEventNs)
    {
      ghost var before := Value();
      orderCount := orderCount + 1;
      if !e.rejected {
        events := events + [ToFill(e)];
      }
      var latencyNs := e.ackAtNs - e.sentAtNs;
      if latencyNs > 0 {
        latencies := latencies + multiset{latencyNs};
      }
      if e.sentAtNs < startTimeNs {
        startTimeNs := e.sentAtNs;
      }
      if e.ackAtNs > lastEventNs {
        lastEventNs := e.ackAtNs;
      }
      assert events == Record(before, e).events && latencies == Record(before, e).latencies;
    }

    method IsComplete(now: int) returns (r: bool)
      ensures r <==> Complete(Value(), now)
      ensures r <==> orderCount != 0 && now - createdAt >= (durationSecs + 2) * 1_000_000_000
    {
      if orderCount == 0 {
        return false;
      }
      return now - createdAt >= (durationSecs + GRACE_SECS) * NS_PER_SEC;
    }

    /** Computes the metrics; validation leaves the events sorted. */
    method Snapshot(runID: string) returns (snap: RunSnapshot)
      requires orderCount >= 0
      modifies this
      ensures IsSnapshotOf(snap, runID, old(Value()))
      ensures multiset(events) == multiset(old(events)) && SortedBySent(events)
      ensures Value() == old(Value()).(events := events)
    {
      var elapsedNs := lastEventNs - startTimeNs;
      var maxTPS := 0;
      if elapsedNs > 0 {
        maxTPS := orderCount * NS_PER_SEC / elapsedNs;
      }
      var ratio, sorted := JudgeBatch(events);
      events := sorted;
      snap := RunSnapshot(runID, contestantID, latencies, maxTPS, ratio);
    }
  }

  /**
   Manager operations, each run to completion. `now` is the clock reading the
   operation takes; the completion check takes one per window.
   */
  class Manager {
    var windows: map<string, RunWindow>
    var contestantIDs: map<string, string>
    const defaultDurationSec: int
    ghost var Repr: set<RunWindow>

    ghost predicate Valid()
      reads this, Repr
    {
      forall r :: r in windows ==> windows[r] in Repr && windows[r].runID == r && windows[r].orderCount >= 0
    }

    ghost function Contents(): map<string, Window>
      requires Valid()
      reads this, Repr
    {
      map r | r in windows :: windows[r].Value()
    }

    constructor (defaultDurationSec: int)
      ensures Valid() && this.defaultDurationSec == defaultDurationSec
      ensures Contents() == map[] && contestantIDs == map[] && Repr == {}
    {
      this.defaultDurationSec := defaultDurationSec;
      windows, contestantIDs, Repr := map[], map[], {};
    }

    method AddEvent(e: TelemetryEvent, now: int)
      requires Valid()
      modifies this, Repr
      ensures Valid() && fresh(Repr - old(Repr))
      ensures contestantIDs == old(contestantIDs)
      ensures Contents() == AfterAdd(old(Contents()), contestantIDs, defaultDurationSec, e, now)
    {
      var w := WindowFor(e.runID, e.sentAtNs, now);
      ghost var looked := Contents();
      w.RecordEvent(e);
      ContentsAre(looked[e.runID := Record(looked[e.runID], e)]);
    }

    lemma ContentsAre(m: map<string, Window>)
      requires Valid() && windows.Keys == m.Keys
      requires forall r :: r in windows ==> windows[r].Value() == m[r]
      ensures Contents() == m
    {
    }

    /** The critical section of `AddEvent` under the manager's lock. */
    method WindowFor(runID: string, sentAtNs: int, now: int) returns (w: RunWindow)
      requires Valid()
      modifies this
      ensures Valid() && fresh(Repr - old(Repr)) && old(Repr) <= Repr
      ensures contestantIDs == old(contestantIDs)
      ensures runID in windows && windows[runID] == w
      ensures Contents() == AfterLookup(old(Contents()), contestantIDs, defaultDurationSec, runID, sentAtNs, now)
    {
      if runID !in windows {
        var contestantID := if runID in contestantIDs then contestantIDs[runID] else "";
        var created := new RunWindow(runID, contestantID, sentAtNs, defaultDurationSec, now);
        windows := windows[runID := created];
        Repr := Repr + {created};
      }
      w := windows[runID];
    }

    method SetContestantID(runID: string, contestantID: string)
      requires Valid()
      modifies this, Repr
      ensures Valid() && Repr == old(Repr)
      ensures contestantIDs == old(contestantIDs)[runID := contestantID]
      ensures Contents() == AfterSet(old(Contents()), runID, contestantID)
    {
      contestantIDs := contestantIDs[runID := contestantID];
      if runID in windows {
        var w := windows[runID];
        w.contestantID := contestantID;
      }
    }

    /** Scans the windows in an arbitrary order, as ranging over a Go map does. */
    method CheckCompleted(clock: map<string, int>) returns (completed: seq<RunSnapshot>)
      requires Valid() && windows.Keys <= clock.Keys
      modifies this, Repr
      ensures Valid() && Repr == old(Repr)
      ensures Contents() == Unfinished(old(Contents()), {}, clock)
      ensures contestantIDs == old(contestantIDs) - Finished(old(Contents()), {}, clock)
      ensures forall r :: r in old(Contents()) ==> var w := old(Contents())[r];
        r !in Contents() <==> w.orderCount != 0 && clock[r] - w.createdAt >= (w.durationSecs + 2) * 1_000_000_000
      ensures forall r :: r in contestantIDs <==> r in old(contestantIDs) && !(r in old(Contents()) && r !in Contents())
      ensures forall r :: r in contestantIDs ==> contestantIDs[r] == old(contestantIDs)[r]
      ensures OneSnapshotEach(completed, old(Contents()), Finished(old(Contents()), {}, clock))
    {
      completed := [];
      var todo := windows.Keys;
      ghost var before, ids := Contents(), contestantIDs;
      assert Finished(before, todo, clock) == {};
      while todo != {}
        invariant Valid() && Repr == old(Repr)
        invariant todo <= before.Keys <= clock.Keys
        invariant Contents() == Unfinished(before, todo, clock)
        invariant contestantIDs == ids - Finished(before, todo, clock)
        invariant OneSnapshotEach(completed, before, Finished(before, todo, clock))
        decreases todo
      {
        var runID :| runID in todo;
        assert runID in Unfinished(before, todo, clock);
        var complete, snap := CheckWindow(runID, clock[runID]);
        ScanStep(before, todo, runID, clock, ids, completed, snap);
        if complete {
          completed := completed + [snap];
        }
        todo := todo - {runID};
      }
    }

    /** The body of the scan for one window, under its lock. */
    method CheckWindow(runID: string, now: int) returns (complete: bool, snap: RunSnapshot)
      requires Valid() && runID in windows
      modifies this, Repr
      ensures Valid() && Repr == old(Repr)
      ensures complete <==> Complete(old(Contents())[runID], now)
      ensures complete ==> IsSnapshotOf(snap, runID, old(Contents())[runID])
      ensures Contents() == if complete then old(Contents()) - {runID} else old(Contents())
      ensures contestantIDs == if complete then old(contestantIDs) - {runID} else old(contestantIDs)
    {
      var w := windows[runID];
      complete := w.IsComplete(now);
      snap := RunSnapshot("", "", multiset{}, 0, 1.0);
      if complete {
        snap := w.Snapshot(runID);
        windows := windows - {runID};
        contestantIDs := contestantIDs - {runID};
        assert forall r :: r in windows ==> windows[r] == old(windows)[r] && windows[r] != w;
      }
    }
  }

  /** The snapshots are one for each of these runs, computed from that run's window. */
  ghost predicate OneSnapshotEach(completed: seq<RunSnapshot>, m: map<string, Window>, runs: set<string>)
    requires runs <= m.Keys
  {
    && |completed| == |runs|
    && forall r :: r in runs ==> HasSnapshot(completed, r, m[r])
  }

  ghost predicate HasSnapshot(completed: seq<RunSnapshot>, runID: string, w: Window) {
    exists i :: 0 <= i < |completed| && IsSnapshotOf(completed[i], runID, w)
  }

  lemma AnotherSnapshot(completed: seq<RunSnapshot>, m: map<string, Window>, runs: set<string>, runID: string, snap: RunSnapshot)
    requires runs <= m.Keys && runID in m && runID !in runs
    requires OneSnapshotEach(completed, m, runs) && IsSnapshotOf(snap, runID, m[runID])
    ensures OneSnapshotEach(completed + [snap], m, runs + {runID})
  {
    var longer := completed + [snap];
    forall r | r in runs + {runID} ensures HasSnapshot(longer, r, m[r]) {
      if r in runs {
        assert HasSnapshot(completed, r, m[r]);
        var i :| 0 <= i < |completed| && IsSnapshotOf(completed[i], r, m[r]);
        assert longer[i] == completed[i];
      } else {
        assert longer[|completed|] == snap;
      }
    }
  }

  /** What one turn of the scan's loop changes. */
  lemma {:induction false} ScanStep(m: map<string, Window>, todo: set<string>, runID: string, clock: map<string, int>, ids: map<string, string>,
                                    completed: seq<RunSnapshot>, snap: RunSnapshot)
    requires runID in todo && todo <= m.Keys <= clock.Keys && OneSnapshotEach(completed, m, Finished(m, todo, clock))
    requires Complete(m[runID], clock[runID]) ==> IsSnapshotOf(snap, runID, m[runID])
    ensures Unfinished(m, todo - {runID}, clock) ==
            if Complete(m[runID], clock[runID]) then Unfinished(m, todo, clock) - {runID} else Unfinished(m, todo, clock)
    ensures ids - Finished(m, todo - {runID}, clock) ==
            if Complete(m[runID], clock[runID]) then ids - Finished(m, todo, clock) - {runID} else ids - Finished(m, todo, clock)
    ensures OneSnapshotEach(if Complete(m[runID], clock[runID]) then completed + [snap] else completed,
                            m, Finished(m, todo - {runID}, clock))
  {
    FinishedGrows(m, todo, runID, clock);
    if Complete(m[runID], clock[runID]) {
      RemoveOneMore(ids, Finished(m, todo, clock), runID);
      AnotherSnapshot(completed, m, Finished(m, todo, clock), runID, snap);
    }
  }

  lemma RemoveOneMore(ids: map<string, string>, runs: set<string>, runID: string)
    ensures ids - (runs + {runID}) == ids - runs - {runID}
  {
  }

  lemma FinishedGrows(m: map<string, Window>, todo: set<string>, runID: string, clock: map<string, int>)
    requires runID in todo && todo <= m.Keys <= clock.Keys
    ensures Finished(m, todo - {runID}, clock) ==
            if Complete(m[runID], clock[runID]) then Finished(m, todo, clock) + {runID} else Finished(m, todo, clock)
    ensures Unfinished(m, todo - {runID}, clock) ==
            if Complete(m[runID], clock[runID]) then Unfinished(m, todo, clock) - {runID} else Unfinished(m, todo, clock)
  {
  }

  function AfterLookup(m: map<string, Window>, ids: map<string, string>, durationSecs: int,
                       runID: string, sentAtNs: int, now: int): map<string, Window>
  {
    if runID in m then m
    else m[runID := Opened(if runID in ids then ids[runID] else "", sentAtNs, durationSecs, now)]
  }

  function AfterAdd(m: map<string, Window>, ids: map<string, string>, durationSecs: int, e: TelemetryEvent, now: int)
    : map<string, Window>
  {
    var looked := AfterLookup(m, ids, durationSecs, e.runID, e.sentAtNs, now);
    looked[e.runID := Record(looked[e.runID], e)]
  }

  function AfterSet(m: map<string, Window>, runID: string, contestantID: string): map<string, Window> {
    if runID in m then m[runID := m[runID].(contestantID := contestantID)] else m
  }

  /** The runs with a complete window, each by its own clock reading, that are no longer `todo`. */
  function Finished(m: map<string, Window>, todo: set<string>, clock: map<string, int>): set<string>
    requires m.Keys <= clock.Keys
  {
    set r | r in m && r !in todo && Complete(m[r], clock[r])
  }

  /** The windows left when all but `todo` have been checked. */
  function Unfinished(m: map<string, Window>, todo: set<string>, clock: map<string, int>): map<string, Window>
    requires m.Keys <= clock.Keys
  {
    map r | r in m && (r in todo || !Complete(m[r], clock[r])) :: m[r]
  }
}
