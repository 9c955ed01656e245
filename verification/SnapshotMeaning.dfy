/**
 What a run's snapshot reports, on the telemetry the run received
 (apps/ingester/internal/window/window.go:93-118 and 175-193).
 */
module SnapshotMeaning {
  import opened Validation
  import opened ReplayMeaning
  import opened Windows

  /** The events the sandbox accepted, in order of arrival. */
  function Accepted(hist: seq<TelemetryEvent>): seq<TelemetryEvent> {
    if hist == [] then []
    else
      var last := hist[|hist| - 1];
      Accepted(hist[..|hist| - 1]) + (if last.rejected then [] else [last])
  }

  /** An arrangement of the accepted events by send time. */
  ghost predicate InSendOrder(ts: seq<TelemetryEvent>, hist: seq<TelemetryEvent>) {
    && multiset(ts) == multiset(Accepted(hist))
    && forall i, j :: 0 <= i < j < |ts| ==> ts[i].sentAtNs <= ts[j].sentAtNs
  }

  // ---------- verdicts on telemetry ----------

  /** The limit order sent at position `i` rests on the side: none of `ts` after it cancels its ID on its symbol. */
  ghost predicate OrderRests(ts: seq<TelemetryEvent>, i: nat, symbol: string, buy: bool) {
    && i < |ts|
    && ts[i].symbol == symbol && ts[i].orderType == "limit" && (ts[i].side == "buy") == buy
    && forall j :: i < j < |ts| ==>
      !(ts[j].orderType == "cancel" && ts[j].symbol == ts[i].symbol && ts[j].orderID == ts[i].orderID)
  }

  /** Some order of the past rests on the side. */
  ghost predicate Opposed(past: seq<TelemetryEvent>, symbol: string, buy: bool) {
    exists i: nat :: OrderRests(past, i, symbol, buy)
  }

  /** One of them is at a price at least as good as that of `e`. */
  ghost predicate Crossed(past: seq<TelemetryEvent>, e: TelemetryEvent, buy: bool) {
    exists i: nat :: OrderRests(past, i, e.symbol, buy) &&
      (if e.side == "buy" then past[i].price <= e.price else e.price <= past[i].price)
  }

  /** What the sandbox reported of `e` is right, given what was sent before. */
  ghost predicate Right(past: seq<TelemetryEvent>, e: TelemetryEvent) {
    var opposite := e.side != "buy";
    if e.orderType == "market" then e.correctFill <==> Opposed(past, e.symbol, opposite)
    else e.orderType == "limit" && e.correctFill && Crossed(past, e, opposite)
  }

  ghost function RightOnes(ts: seq<TelemetryEvent>): set<nat> {
    set k: nat | k < |ts| && Right(ts[..k], ts[k])
  }

  /** Market orders, and limit orders reported filled. */
  function Judged(ts: seq<TelemetryEvent>): set<nat> {
    set k: nat | k < |ts| && (ts[k].orderType == "market" || (ts[k].orderType == "limit" && ts[k].correctFill))
  }

  /** No cancel comes while two limit orders of its ID rest on one side of its symbol. */
  ghost predicate CancelsClear(ts: seq<TelemetryEvent>) {
    forall k: nat, i: nat, j: nat, buy: bool ::
      k < |ts| && ts[k].orderType == "cancel" && i < j &&
      OrderRests(ts[..k], i, ts[k].symbol, buy) && OrderRests(ts[..k], j, ts[k].symbol, buy) ==>
        !(ts[i].orderID == ts[k].orderID && ts[j].orderID == ts[k].orderID)
  }

  /** The correctness is the share of right ones among the judged, in some order by send time. */
  ghost predicate IsCorrectness(c: real, hist: seq<TelemetryEvent>) {
    exists ts :: IsCorrectnessOn(c, hist, ts)
  }

  ghost predicate IsCorrectnessOn(c: real, hist: seq<TelemetryEvent>, ts: seq<TelemetryEvent>) {
    InSendOrder(ts, hist) && (CancelsClear(ts) ==> IsShare(c, RightOnes(ts), Judged(ts)))
  }

  // ---------- the fill events a window keeps ----------

  function Fills(ts: seq<TelemetryEvent>): (fs: seq<FillEvent>)
    ensures |fs| == |ts| && forall i :: 0 <= i < |ts| ==> fs[i] == ToFill(ts[i])
  {
    seq(|ts|, i requires 0 <= i < |ts| => ToFill(ts[i]))
  }

  lemma FillsPrefix(ts: seq<TelemetryEvent>, k: nat)
    requires k <= |ts|
    ensures Fills(ts)[..k] == Fills(ts[..k])
  {
  }

  lemma {:induction false} WindowKeepsFills(w: Window, hist: seq<TelemetryEvent>)
    ensures RecordAll(w, hist).events == w.events + Fills(Accepted(hist))
  {
    if hist != [] {
      var p, e := hist[..|hist| - 1], hist[|hist| - 1];
      WindowKeepsFills(w, p);
      if !e.rejected {
        assert Fills(Accepted(p) + [e]) == Fills(Accepted(p)) + [ToFill(e)];
      }
    }
  }

  lemma {:induction false} RestsAlike(ts: seq<TelemetryEvent>, i: nat, symbol: string, buy: bool)
    ensures OrderRests(ts, i, symbol, buy) <==> RestsAt(Fills(ts), i, symbol, buy)
  {
    var fs := Fills(ts);
    if i < |ts| {
      assert forall j :: i < j < |ts| ==>
        (IsCancelOf(fs[j], fs[i]) <==> ts[j].orderType == "cancel" && ts[j].symbol == ts[i].symbol && ts[j].orderID == ts[i].orderID);
    }
  }

  lemma {:induction false} RightAlike(past: seq<TelemetryEvent>, e: TelemetryEvent)
    ensures Right(past, e) <==> DeclaredHit(Fills(past), ToFill(e))
  {
    var h, f, opposite := Fills(past), ToFill(e), e.side != "buy";
    forall i: nat ensures OrderRests(past, i, e.symbol, opposite) <==> RestsAt(h, i, e.symbol, opposite) {
      RestsAlike(past, i, e.symbol, opposite);
    }
    assert SomeRests(h, f.symbol, opposite) <==> Opposed(past, e.symbol, opposite);
    CrossedAlike(past, e, opposite);
  }

  lemma {:induction false} CrossedAlike(past: seq<TelemetryEvent>, e: TelemetryEvent, buy: bool)
    requires forall i: nat :: OrderRests(past, i, e.symbol, buy) <==> RestsAt(Fills(past), i, e.symbol, buy)
    ensures SomeCrosses(Fills(past), ToFill(e), buy) <==> Crossed(past, e, buy)
  {
  }

  lemma {:induction false} SharesAlike(ts: seq<TelemetryEvent>)
    ensures RightPositions([], Fills(ts)) == RightOnes(ts)
    ensures CountedPositions(Fills(ts)) == Judged(ts)
  {
    forall k: nat | k < |ts| ensures Right(ts[..k], ts[k]) <==> RightAt([], Fills(ts), k) {
      RightAlike(ts[..k], ts[k]);
      FillsPrefix(ts, k);
      assert [] + Fills(ts)[..k] == Fills(ts)[..k];
    }
  }

  lemma {:induction false} ClearIsUnambiguous(ts: seq<TelemetryEvent>)
    requires CancelsClear(ts)
    ensures Unambiguous(Fills(ts))
  {
    var fs := Fills(ts);
    forall k: nat, buy: bool | k < |fs| && fs[k].orderType == "cancel" ensures OneRests(fs[..k], fs[k].symbol, buy, fs[k].orderID) {
      var h := fs[..k];
      FillsPrefix(ts, k);
      forall i: nat, j: nat | i < j && RestsAt(h, i, fs[k].symbol, buy) && RestsAt(h, j, fs[k].symbol, buy) && h[i].orderID == fs[k].orderID
        ensures h[j].orderID != fs[k].orderID
      {
        RestsAlike(ts[..k], i, ts[k].symbol, buy);
        RestsAlike(ts[..k], j, ts[k].symbol, buy);
      }
    }
  }

  /** An arrangement of the fills comes from an arrangement of the telemetry. */
  lemma {:induction false} Unfill(a: seq<TelemetryEvent>, fs: seq<FillEvent>) returns (ts: seq<TelemetryEvent>)
    requires multiset(Fills(a)) == multiset(fs)
    ensures multiset(ts) == multiset(a) && Fills(ts) == fs
    decreases |fs|
  {
    SameLength(Fills(a), fs);
    if fs == [] {
      ts := [];
    } else {
      var i := FindFill(a, fs);
      var rest := a[..i] + a[i + 1..];
      assert multiset(Fills(rest)) == multiset(fs[1..]) by {
        TakeOut(a, i);
        DropFirst(fs);
      }
      var us := Unfill(rest, fs[1..]);
      ts := [a[i]] + us;
      assert multiset(ts) == multiset(a) by {
        TakeOut(a, i);
        PutFirst(a[i], us);
      }
      assert Fills(ts) == fs by {
        PutFirst(a[i], us);
        assert fs == [fs[0]] + fs[1..];
      }
    }
  }

  lemma {:induction false} FindFill(a: seq<TelemetryEvent>, fs: seq<FillEvent>) returns (i: nat)
    requires multiset(Fills(a)) == multiset(fs) && fs != []
    ensures i < |a| && ToFill(a[i]) == fs[0]
  {
    assert fs[0] in multiset(Fills(a));
    i :| 0 <= i < |a| && Fills(a)[i] == fs[0];
  }

  lemma DropFirst(fs: seq<FillEvent>)
    requires fs != []
    ensures multiset(fs[1..]) == multiset(fs) - multiset{fs[0]}
  {
    assert fs == [fs[0]] + fs[1..];
  }

  lemma PutFirst(e: TelemetryEvent, ts: seq<TelemetryEvent>)
    ensures multiset([e] + ts) == multiset{e} + multiset(ts)
    ensures Fills([e] + ts) == [ToFill(e)] + Fills(ts)
  {
  }

  lemma {:induction false} TakeOut(a: seq<TelemetryEvent>, i: nat)
    requires i < |a|
    ensures var rest := a[..i] + a[i + 1..];
      && multiset(a) == multiset{a[i]} + multiset(rest)
      && multiset(Fills(rest)) == multiset(Fills(a)) - multiset{ToFill(a[i])}
  {
    var rest := a[..i] + a[i + 1..];
    assert a == a[..i] + ([a[i]] + a[i + 1..]);
    var fs := Fills(a);
    assert Fills(rest) == fs[..i] + fs[i + 1..];
    assert fs == fs[..i] + ([fs[i]] + fs[i + 1..]);
  }

  lemma {:induction false} VerdictOnTelemetry(w: Window, hist: seq<TelemetryEvent>, c: real)
    requires w.events == Fills(Accepted(hist)) && IsVerdict(w.events, c)
    ensures IsCorrectness(c, hist)
  {
    var fs: seq<FillEvent> :| IsVerdictOn(w.events, fs, c);
    var ts := Unfill(Accepted(hist), fs);
    forall i, j | 0 <= i < j < |ts| ensures ts[i].sentAtNs <= ts[j].sentAtNs {
      assert fs[i].sentAtNs <= fs[j].sentAtNs;
    }
    if CancelsClear(ts) {
      ClearIsUnambiguous(ts);
      FreshRatioIsFair(fs);
      SharesAlike(ts);
    }
    assert IsCorrectnessOn(c, hist, ts);
  }

  // ---------- the other metrics ----------

  function WithLatency(hist: seq<TelemetryEvent>, ns: int): set<nat> {
    set k: nat | k < |hist| && hist[k].ackAtNs - hist[k].sentAtNs == ns
  }

  /** The recorded latencies are the positive ones of all events, rejected or not. */
  ghost predicate AreLatencies(m: multiset<int>, hist: seq<TelemetryEvent>) {
    forall ns: int :: m[ns] == if ns > 0 then |WithLatency(hist, ns)| else 0
  }

  lemma {:induction false} WindowKeepsLatencies(w: Window, hist: seq<TelemetryEvent>)
    requires w.latencies == multiset{}
    ensures AreLatencies(RecordAll(w, hist).latencies, hist)
  {
    if hist == [] {
      assert forall ns :: WithLatency(hist, ns) == {};
    } else {
      var p, e := hist[..|hist| - 1], hist[|hist| - 1];
      assert hist == p + [e];
      WindowKeepsLatencies(w, p);
      forall ns: int ensures |WithLatency(hist, ns)| == |WithLatency(p, ns)| + (if e.ackAtNs - e.sentAtNs == ns then 1 else 0) {
        OneMoreLatency(p, e, ns);
      }
    }
  }

  lemma {:induction false} OneMoreLatency(p: seq<TelemetryEvent>, e: TelemetryEvent, ns: int)
    ensures |WithLatency(p + [e], ns)| == |WithLatency(p, ns)| + (if e.ackAtNs - e.sentAtNs == ns then 1 else 0)
  {
    var before := WithLatency(p, ns);
    assert |p| !in before;
    assert WithLatency(p + [e], ns) == (if e.ackAtNs - e.sentAtNs == ns then before + {|p|} else before);
  }

  /** Orders per second between the first send and the last acknowledgement, rounded down. */
  ghost predicate IsRate(maxTPS: int, hist: seq<TelemetryEvent>) {
    exists first: int, last: int :: IsFirstSent(hist, first) && IsLastAck(hist, last) && IsRateOver(maxTPS, |hist|, last - first)
  }

  predicate IsRateOver(maxTPS: int, orders: nat, elapsedNs: int) {
    if elapsedNs > 0 then maxTPS * elapsedNs <= orders * 1_000_000_000 < (maxTPS + 1) * elapsedNs else maxTPS == 0
  }

  /** The snapshot reports what the run's telemetry says. */
  ghost predicate ReportsRun(snap: RunSnapshot, hist: seq<TelemetryEvent>) {
    AreLatencies(snap.latencies, hist) && IsRate(snap.maxTPS, hist) && IsCorrectness(snap.correctness, hist)
  }

  /**
   The snapshot of a window that recorded `hist` from its first event on reports
   its latencies, its rate and its correctness as an independent reader of the
   telemetry would compute them.
   */
  lemma {:induction false} SnapshotReportsRun(snap: RunSnapshot, runID: string, contestantID: string, durationSecs: int, now: int,
                                              hist: seq<TelemetryEvent>)
    requires hist != []
    requires IsSnapshotOf(snap, runID, RecordAll(Opened(contestantID, hist[0].sentAtNs, durationSecs, now), hist))
    ensures ReportsRun(snap, hist) && snap.contestantID == contestantID && snap.runID == runID
  {
    var start := Opened(contestantID, hist[0].sentAtNs, durationSecs, now);
    var w := RecordAll(start, hist);
    assert AreLatencies(snap.latencies, hist) by { WindowKeepsLatencies(start, hist); }
    assert IsRate(snap.maxTPS, hist) by {
      RecordAllAccumulates(contestantID, durationSecs, now, hist);
      RateOfWindow(w, hist);
    }
    assert IsCorrectness(snap.correctness, hist) by {
      WindowKeepsFills(start, hist);
      NothingBefore(Fills(Accepted(hist)));
      VerdictOnTelemetry(w, hist, snap.correctness);
    }
    RecordAllKeeps(start, hist, "");
  }

  lemma NothingBefore(fs: seq<FillEvent>)
    ensures [] + fs == fs
  {
  }

  lemma {:induction false} RateOfWindow(w: Window, hist: seq<TelemetryEvent>)
    requires hist != [] && Accumulated(w, hist)
    ensures IsRate(MaxTPS(w.orderCount, w.lastEventNs - w.startTimeNs), hist)
  {
    MaxTPSIsFloor(w.orderCount, w.lastEventNs - w.startTimeNs);
    assert IsRateOver(MaxTPS(w.orderCount, w.lastEventNs - w.startTimeNs), |hist|, w.lastEventNs - w.startTimeNs);
  }
}
