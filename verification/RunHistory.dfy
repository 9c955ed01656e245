/**
 What the window manager's goroutines do to a run, over every interleaving: its
 events are conserved, its snapshots come in time, report its telemetry and carry
 its contestant (apps/ingester/internal/window/window.go:72-194).
 */
module RunHistory {
  import opened SnapshotMeaning
  import opened Ties
  import opened WindowProtocol
  import opened Windows

  // ---------- events are conserved ----------

  /**
   However the threads interleave, every finished add is in a snapshot, in the
   live window, or late, counted once; and each snapshot strands at most one.
   */
  lemma EventsConserved(s: State, run: string)
    requires Reachable(s)
    ensures OfRun(s.finished, run) == Snapshotted(s.snaps, run) + InWindow(s, run) + OfRun(s.late, run)
    ensures |OfRun(s.late, run)| <= SnapCount(s.snaps, run)
  {
    ReachableInv(s);
    assert ConservedFor(s, run);
  }

  // ---------- which adds are late ----------

  /**
   The add of `e` has got no further than recording, and `n` snapshots of its run
   had been taken when it held the manager's lock to look its window up.
   */
  ghost predicate Underway(s: State, e: TelemetryEvent, n: nat) {
    match s.adder
    case AIdle => true
    case AWaitManager(_) => false
    case AHoldManager(f) => f == e && SnapCount(s.snaps, e.runID) == n
    case AWaitWindow(f, c) => f == e && Standing(s, e.runID, c, n)
    case AHoldWindow(f, c) => f == e && Standing(s, e.runID, c, n)
  }

  /** The window is gone from the map exactly when one more snapshot has been taken. */
  ghost predicate Standing(s: State, run: string, c: nat, n: nat) {
    if LiveCell(s, run, c) then SnapCount(s.snaps, run) == n
    else run !in s.windows && SnapCount(s.snaps, run) == n + 1
  }

  lemma {:induction false} UnderwayKept(s: State, a: Action, e: TelemetryEvent, n: nat)
    requires PointerInv(s) && LockInv(s) && Underway(s, e, n) && Enabled(s, a) && !a.Arrive?
    ensures Underway(Do(s, a), e, n)
  {
    if a.Go? {
      match a.thread
      case Adder => UnderwayByAdder(s, e, n);
      case Setter => SetterFrame(s);
      case Checker => UnderwayByChecker(s, a.pick, e, n);
    }
  }

  lemma {:induction false} UnderwayByAdder(s: State, e: TelemetryEvent, n: nat)
    requires Underway(s, e, n) && CanGo(s, Adder, "")
    ensures Underway(AdderStep(s), e, n)
  {
  }

  lemma {:induction false} UnderwayByChecker(s: State, pick: string, e: TelemetryEvent, n: nat)
    requires PointerInv(s) && LockInv(s) && Underway(s, e, n) && CanGo(s, Checker, pick)
    ensures Underway(CheckerStep(s, pick), e, n)
  {
    if TakesSnapshot(s, Go(Checker, pick)) {
      SnapshottedAppend(s.snaps, NewSnapshot(s), e.runID);
    }
  }

  lemma {:induction false} StaysUnderway(s: State, acts: seq<Action>, e: TelemetryEvent, n: nat)
    requires Inv(s) && Underway(s, e, n) && Legal(s, acts) && forall a :: a in acts ==> !a.Arrive?
    ensures Underway(Exec(s, acts), e, n)
    decreases |acts|
  {
    if acts != [] {
      StepKeepsInv(s, acts[0]);
      UnderwayKept(s, acts[0], e, n);
      StaysUnderway(Do(s, acts[0]), acts[1..], e, n);
    }
  }

  /**
   An add is late if and only if a snapshot of its run was taken after the add
   looked its window up. From the moment it holds the manager's lock (`s`) to the
   moment it is about to record (`t`), at most one can be.
   */
  lemma LateIff(s: State, acts: seq<Action>, e: TelemetryEvent)
    requires Reachable(s) && s.adder == AHoldManager(e)
    requires Legal(s, acts) && (forall a :: a in acts ==> !a.Arrive?) && Exec(s, acts).adder.AHoldWindow?
    ensures var t := Exec(s, acts); var c := t.adder.cell;
      && t.adder.e == e && Enabled(t, Go(Adder, ""))
      && SnapCount(s.snaps, e.runID) <= SnapCount(t.snaps, e.runID) <= SnapCount(s.snaps, e.runID) + 1
      && (Do(t, Go(Adder, "")).late == t.late + [e] <==> SnapCount(t.snaps, e.runID) == SnapCount(s.snaps, e.runID) + 1)
      && (Do(t, Go(Adder, "")).late == t.late <==> SnapCount(t.snaps, e.runID) == SnapCount(s.snaps, e.runID))
  {
    ReachableInv(s);
    StaysUnderway(s, acts, e, SnapCount(s.snaps, e.runID));
    ExecKeepsInv(s, acts);
    var t := Exec(s, acts);
    assert |t.late + [e]| != |t.late|;
  }

  lemma {:induction false} ExecAppend(s: State, acts: seq<Action>, a: Action)
    requires Legal(s, acts) && Enabled(Exec(s, acts), a)
    ensures Legal(s, acts + [a]) && Exec(s, acts + [a]) == Do(Exec(s, acts), a)
    decreases |acts|
  {
    if acts == [] {
      assert [] + [a] == [a] && [a][1..] == [];
    } else {
      ExecAppend(Do(s, acts[0]), acts[1..], a);
      assert (acts + [a])[1..] == acts[1..] + [a];
    }
  }

  lemma {:induction false} Then(s: State, a: Action)
    requires Reachable(s) && Enabled(s, a)
    ensures Reachable(Do(s, a))
  {
    var durationSecs, now, acts :| Legal(Init(durationSecs, now), acts) && s == Exec(Init(durationSecs, now), acts);
    ExecAppend(Init(durationSecs, now), acts, a);
  }

  /** An add on its own up to where it lets the manager's lock go. */
  lemma {:induction false} LooksUp(s: State, e: TelemetryEvent) returns (t: State)
    requires Reachable(s) && s.adder == AIdle && s.manager == Nobody
    ensures Reachable(t) && t == Lookup(s, e)
  {
    var go := Go(Adder, "");
    Then(s, Arrive(e));
    t := Do(s, Arrive(e));
    Then(t, go);
    t := Do(t, go);
    Then(t, go);
    t := Do(t, go);
    assert t == Lookup(s, e);
  }

  /** And from there to its end. */
  lemma {:induction false} Records(s: State, e: TelemetryEvent, c: nat) returns (t: State)
    requires Reachable(s) && s.adder == AWaitWindow(e, c) && c < |s.cells| && s.cells[c].owner == Nobody
    ensures Reachable(t) && t == RecordAt(s, e, c)
  {
    var go := Go(Adder, "");
    Then(s, go);
    t := Do(s, go);
    Then(t, go);
    t := Do(t, go);
    assert t.cells == RecordAt(s, e, c).cells;
  }

  /** A first add has opened the run's window and a second one has just looked it up. */
  lemma {:induction false} SecondAddWaits(e: TelemetryEvent, durationSecs: nat) returns (s: State)
    ensures Reachable(s) && s == State(durationSecs, 0, map[e.runID := 0], map[],
      [Cell(e.runID, Record(Opened("", e.sentAtNs, durationSecs, 0), e), [e], Nobody)],
      Nobody, AWaitWindow(e, 0), SIdle, CIdle, [e], [], {}, {}, [])
  {
    s := Init(durationSecs, 0);
    assert Legal(s, []) && Exec(s, []) == s;
    s := LooksUp(s, e);
    var w := Opened("", e.sentAtNs, durationSecs, 0);
    assert s.cells == [Cell(e.runID, w, [], Nobody)] && s.windows == map[e.runID := 0];
    s := Records(s, e, 0);
    assert [] + [e] == [e];
    assert s.cells[0] == Cell(e.runID, Record(w, e), [e], Nobody);
    assert s.cells == [Cell(e.runID, Record(w, e), [e], Nobody)] && s.finished == [e];
    s := LooksUp(s, e);
  }

  /** Meanwhile the run's time is up and the checker snapshots and removes its window. */
  lemma {:induction false} CheckerOvertakes(s: State, run: string) returns (t: State)
    requires Reachable(s) && s.checker == CIdle && s.manager == Nobody && s.windows == map[run := 0] && |s.cells| == 1
    requires s.cells[0].owner == Nobody && s.cells[0].window.orderCount != 0 && s.cells[0].window.createdAt == s.now == 0
    requires s.cells[0].window.durationSecs == s.durationSecs >= 0
    ensures Reachable(t) && t.windows == map[] && t.cells == s.cells && t.adder == s.adder && t.late == s.late && t.finished == s.finished
  {
    var go := Go(Checker, run);
    var wait: nat := (s.durationSecs + GRACE_SECS) * NS_PER_SEC;
    Then(s, Tick(wait));
    t := Do(s, Tick(wait));
    Then(t, Check);
    t := Do(t, Check);
    Then(t, go);
    t := Do(t, go);
    assert t.checker.todo == {run};
    Then(t, go);
    t := Do(t, go);
    Then(t, go);
    t := Do(t, go);
    Then(t, go);
    t := Do(t, go);
    assert t.windows == map[];
    assert t.cells == s.cells;
  }

  /** So the second event is recorded in a window nothing will ever report again. */
  lemma {:induction false} AddCanBeLate(e: TelemetryEvent, durationSecs: nat) returns (s: State)
    ensures Reachable(s) && s.finished == [e, e] && s.late == [e]
    ensures OfRun(s.finished, e.runID) != Snapshotted(s.snaps, e.runID) + InWindow(s, e.runID)
  {
    s := SecondAddWaits(e, durationSecs);
    s := CheckerOvertakes(s, e.runID);
    s := Records(s, e, 0);
    EventsConserved(s, e.runID);
    OfRunAppend([], e, e.runID);
    assert [] + [e] == [e];
    var kept := Snapshotted(s.snaps, e.runID) + InWindow(s, e.runID);
    assert |kept + OfRun(s.late, e.runID)| == |kept| + 1;
  }

  // ---------- every run that is due is reported ----------

  /** The window has existed for the run's duration and two seconds. */
  predicate Due(s: State, cell: Cell) {
    s.now - cell.window.createdAt >= (s.durationSecs + 2) * 1_000_000_000
  }

  lemma {:induction false} CompleteIsDue(s: State, c: nat)
    requires c < |s.cells| && CellInv(s, c)
    ensures Complete(s.cells[c].window, s.now) <==> s.cells[c].hist != [] && Due(s, s.cells[c])
  {
    var w, h := s.cells[c].window, s.cells[c].hist;
    FaithfulCounts(w, h, s.durationSecs);
    RecordAllKeeps(Opened(w.contestantID, FirstSent(w, h), s.durationSecs, w.createdAt), h, "");
  }

  /**
   Looking at a window, the checker reports and removes its run exactly when the run
   has an order and the window's time is up. A window without an order has an add
   about to record in it, and stays.
   */
  lemma CheckerDecides(s: State, pick: string)
    requires Reachable(s) && s.checker.CHoldWindow? && CanGo(s, Checker, pick)
    ensures var run := s.checker.run; var c := s.windows[run]; var cell := s.cells[c]; var t := Do(s, Go(Checker, pick));
      && (cell.hist == [] ==> (s.adder.AWaitWindow? || s.adder.AHoldWindow?) && s.adder.cell == c)
      && (if cell.hist != [] && s.now - cell.window.createdAt >= (s.durationSecs + 2) * 1_000_000_000
          then t.snaps == s.snaps + [Emitted(run, cell.window, cell.hist, s.now)] && t.windows == s.windows - {run}
          else t.snaps == s.snaps && t.windows == s.windows)
  {
    ReachableInv(s);
    var c := s.windows[s.checker.run];
    assert CellInv(s, c);
    CompleteIsDue(s, c);
  }

  /** The run has been snapshotted since, or its window still stands with its age and its first order. */
  ghost predicate Stands(s: State, run: string, c: nat, n: nat, openedAt: int, orders: nat) {
    || SnapCount(s.snaps, run) > n
    || (&& c < |s.cells| && LiveCell(s, run, c) && s.cells[c].window.createdAt == openedAt
        && (s.cells[c].hist != [] || (ReachedWindow(s.adder) && s.adder.cell == c && |s.finished| == orders)))
  }

  predicate ReachedWindow(pc: AdderPC) {
    pc.AWaitWindow? || pc.AHoldWindow?
  }

  lemma {:induction false} StandsKept(s: State, a: Action, run: string, c: nat, n: nat, openedAt: int, orders: nat)
    requires PointerInv(s) && LockInv(s) && Stands(s, run, c, n, openedAt, orders) && Enabled(s, a)
    requires SnapCount(s.snaps, run) >= n
    ensures Stands(Do(s, a), run, c, n, openedAt, orders)
  {
    CountGrows(s, a, run);
    if a.Go? {
      match a.thread
      case Adder => StandsByAdder(s, run, c, n, openedAt, orders);
      case Setter => SetterFrame(s); AgesBySetter(s);
      case Checker => StandsByChecker(s, a.pick, run, c, n, openedAt, orders);
    }
  }

  lemma {:induction false} CountGrows(s: State, a: Action, run: string)
    requires Enabled(s, a)
    ensures SnapCount(Do(s, a).snaps, run) >= SnapCount(s.snaps, run)
  {
    if TakesSnapshot(s, a) {
      SnapshottedAppend(s.snaps, NewSnapshot(s), run);
    }
  }

  lemma {:induction false} StandsByAdder(s: State, run: string, c: nat, n: nat, openedAt: int, orders: nat)
    requires PointerInv(s) && LockInv(s) && Stands(s, run, c, n, openedAt, orders) && CanGo(s, Adder, "")
    ensures Stands(AdderStep(s), run, c, n, openedAt, orders)
  {
  }

  lemma {:induction false} StandsByChecker(s: State, pick: string, run: string, c: nat, n: nat, openedAt: int, orders: nat)
    requires Stands(s, run, c, n, openedAt, orders) && CanGo(s, Checker, pick)
    requires SnapCount(s.snaps, run) >= n
    ensures Stands(CheckerStep(s, pick), run, c, n, openedAt, orders)
  {
    CheckerFrame(s, pick);
    if TakesSnapshot(s, Go(Checker, pick)) {
      SnapshottedAppend(s.snaps, NewSnapshot(s), run);
    }
    StandsSame(s, CheckerStep(s, pick), run, c, n, openedAt, orders);
  }

  /** The checker touches no event and no age, and the map and the snapshots only when it takes one. */
  lemma {:induction false} CheckerFrame(s: State, pick: string)
    requires CanGo(s, Checker, pick)
    ensures var t := CheckerStep(s, pick);
      && t.adder == s.adder && t.finished == s.finished && |t.cells| == |s.cells|
      && (forall i :: 0 <= i < |s.cells| ==>
            t.cells[i].hist == s.cells[i].hist && t.cells[i].window == s.cells[i].window && t.cells[i].run == s.cells[i].run)
      && (if TakesSnapshot(s, Go(Checker, pick))
          then t.windows == s.windows - {s.checker.run} && t.snaps == s.snaps + [NewSnapshot(s)]
          else t.windows == s.windows && t.snaps == s.snaps)
  {
  }

  lemma {:induction false} StandsSame(s: State, t: State, run: string, c: nat, n: nat, openedAt: int, orders: nat)
    requires Stands(s, run, c, n, openedAt, orders)
    requires t.adder == s.adder && t.finished == s.finished && |t.cells| == |s.cells|
    requires forall i :: 0 <= i < |s.cells| ==> t.cells[i].hist == s.cells[i].hist && t.cells[i].window == s.cells[i].window
    requires SnapCount(t.snaps, run) >= SnapCount(s.snaps, run)
    requires LiveCell(s, run, c) ==> LiveCell(t, run, c) || SnapCount(t.snaps, run) > n
    ensures Stands(t, run, c, n, openedAt, orders)
  {
  }

  /** A check under way has yet to look at the run's window, which is due, or has reported it. */
  ghost predicate WillReport(s: State, run: string, c: nat, n: nat) {
    || SnapCount(s.snaps, run) > n
    || (&& SnapCount(s.snaps, run) == n && c < |s.cells| && LiveCell(s, run, c)
        && s.cells[c].hist != [] && Due(s, s.cells[c])
        && s.checker != CIdle && run in Remaining(s))
  }

  lemma {:induction false} WillReportKept(s: State, a: Action, run: string, c: nat, n: nat)
    requires Inv(s) && WillReport(s, run, c, n) && Enabled(s, a) && a != Check
    ensures WillReport(Do(s, a), run, c, n)
  {
    CountGrows(s, a, run);
    if a.Go? {
      match a.thread
      case Adder => WillReportByAdder(s, run, c, n);
      case Setter => SetterFrame(s); AgesBySetter(s);
      case Checker => WillReportByChecker(s, a.pick, run, c, n);
    }
  }

  lemma {:induction false} WillReportByAdder(s: State, run: string, c: nat, n: nat)
    requires PointerInv(s) && LockInv(s) && WillReport(s, run, c, n) && CanGo(s, Adder, "")
    ensures WillReport(AdderStep(s), run, c, n)
  {
  }

  lemma {:induction false} WillReportByChecker(s: State, pick: string, run: string, c: nat, n: nat)
    requires PointerInv(s) && LockInv(s) && DataInv(s) && WillReport(s, run, c, n) && CanGo(s, Checker, pick)
    ensures WillReport(CheckerStep(s, pick), run, c, n)
  {
    CheckerFrame(s, pick);
    if TakesSnapshot(s, Go(Checker, pick)) {
      SnapshottedAppend(s.snaps, NewSnapshot(s), run);
    }
    if s.checker.CHoldWindow? && s.checker.run == run {
      var d := s.windows[run];
      assert CellInv(s, d);
      CompleteIsDue(s, d);
    } else if run in Remaining(s) && run in s.windows {
      RemainsToDo(s, pick, run);
    }
  }

  /** A run not being looked at stays to be done, and in the map. */
  lemma {:induction false} RemainsToDo(s: State, pick: string, run: string)
    requires PointerInv(s) && CanGo(s, Checker, pick) && run in Remaining(s) && run in s.windows
    requires !(s.checker.CHoldWindow? && s.checker.run == run)
    ensures var t := CheckerStep(s, pick);
      run in Remaining(t) && t.checker != CIdle && run in t.windows && t.windows[run] == s.windows[run] && t.now == s.now
      && t.durationSecs == s.durationSecs
  {
  }

  lemma {:induction false} CheckReports(s: State, acts: seq<Action>, run: string, c: nat, n: nat)
    requires Inv(s) && WillReport(s, run, c, n) && Legal(s, acts) && Check !in acts
    requires Exec(s, acts).checker == CIdle
    ensures SnapCount(Exec(s, acts).snaps, run) > n
    decreases |acts|
  {
    if acts != [] {
      StepKeepsInv(s, acts[0]);
      WillReportKept(s, acts[0], run, c, n);
      CheckReports(Do(s, acts[0]), acts[1..], run, c, n);
    }
  }

  lemma {:induction false} StillStands(s: State, acts: seq<Action>, run: string, c: nat, n: nat, openedAt: int, orders: nat)
    requires Inv(s) && Stands(s, run, c, n, openedAt, orders) && SnapCount(s.snaps, run) >= n && Legal(s, acts)
    ensures Inv(Exec(s, acts)) && Stands(Exec(s, acts), run, c, n, openedAt, orders)
    ensures SnapCount(Exec(s, acts).snaps, run) >= n && Exec(s, acts).durationSecs == s.durationSecs
    decreases |acts|
  {
    if acts != [] {
      StepKeepsInv(s, acts[0]);
      CountGrows(s, acts[0], run);
      StandsKept(s, acts[0], run, c, n, openedAt, orders);
      AgesStep(s, acts[0]);
      StillStands(Do(s, acts[0]), acts[1..], run, c, n, openedAt, orders);
    }
  }

  /**
   Every run is reported on time. In `s` an add holds the manager's lock and opens
   the run's window; later, in `t`, that add has finished, the run's duration and
   two seconds have passed since `s`, and no check is under way. Then whatever
   check starts next has taken a snapshot of the run by its end, whatever the other
   threads do meanwhile.
   */
  lemma RunIsReported(s: State, e: TelemetryEvent, before: seq<Action>, during: seq<Action>)
    requires Reachable(s) && s.adder == AHoldManager(e) && e.runID !in s.windows
    requires Legal(AdderStep(s), before)
    requires var t := Exec(AdderStep(s), before);
      && |t.finished| > |s.finished| && t.now - s.now >= (s.durationSecs + 2) * 1_000_000_000
      && t.checker == CIdle && Legal(Do(t, Check), during) && Check !in during && Exec(Do(t, Check), during).checker == CIdle
    ensures SnapCount(Exec(Do(Exec(AdderStep(s), before), Check), during).snaps, e.runID) > SnapCount(s.snaps, e.runID)
  {
    ReachableInv(s);
    var run, c, n := e.runID, |s.cells|, SnapCount(s.snaps, e.runID);
    var u := AdderStep(s);
    assert u == Do(s, Go(Adder, ""));
    StepKeepsInv(s, Go(Adder, ""));
    assert Stands(u, run, c, n, s.now, |s.finished|);
    StillStands(u, before, run, c, n, s.now, |s.finished|);
    var t := Exec(u, before);
    CheckStarts(t, run, c, n);
    StepKeepsInv(t, Check);
    CheckReports(Do(t, Check), during, run, c, n);
  }

  lemma {:induction false} CheckStarts(t: State, run: string, c: nat, n: nat)
    requires t.checker == CIdle && SnapCount(t.snaps, run) >= n
    requires SnapCount(t.snaps, run) > n || (c < |t.cells| && LiveCell(t, run, c) && t.cells[c].hist != [] && Due(t, t.cells[c]))
    ensures WillReport(Do(t, Check), run, c, n)
  {
  }

  /** What a snapshot reports is what the telemetry of its run says. */
  lemma SnapshotsReportTelemetry(s: State, k: nat, snap: RunSnapshot)
    requires Reachable(s) && k < |s.snaps| && IsSnapshotOf(snap, s.snaps[k].run, s.snaps[k].window)
    ensures ReportsRun(snap, s.snaps[k].hist)
  {
    ReachableInv(s);
    var taken := s.snaps[k];
    SnapshotReportsRun(snap, taken.run, taken.window.contestantID, s.durationSecs, taken.window.createdAt, taken.hist);
  }

  // ---------- nothing that starts is forgotten ----------

  /** The events of the adds started, in order. */
  function Arrivals(acts: seq<Action>): seq<TelemetryEvent> {
    if acts == [] then [] else ArrivalOf(acts[0]) + Arrivals(acts[1..])
  }

  function InHand(pc: AdderPC): seq<TelemetryEvent> {
    if pc == AIdle then [] else [pc.e]
  }

  /** The adds finished and the one under way. */
  function Taken(s: State): seq<TelemetryEvent> {
    s.finished + InHand(s.adder)
  }

  function ArrivalOf(a: Action): seq<TelemetryEvent> {
    if a.Arrive? then [a.e] else []
  }

  /** Every add that started has finished, in order, but for the one under way. */
  lemma {:induction false} AddsFinishInOrder(s: State, acts: seq<Action>)
    requires Legal(s, acts)
    ensures Taken(Exec(s, acts)) == Taken(s) + Arrivals(acts)
    decreases |acts|
  {
    if acts != [] {
      OneAddStep(s, acts[0]);
      AddsFinishInOrder(Do(s, acts[0]), acts[1..]);
      Regroup(Taken(s), ArrivalOf(acts[0]), Arrivals(acts[1..]));
    }
  }

  lemma Regroup(a: seq<TelemetryEvent>, b: seq<TelemetryEvent>, c: seq<TelemetryEvent>)
    ensures a + (b + c) == (a + b) + c
  {
  }

  lemma {:induction false} OneAddStep(s: State, a: Action)
    requires Enabled(s, a)
    ensures Taken(Do(s, a)) == Taken(s) + ArrivalOf(a)
  {
  }

  /** Every announcement made has returned, but for the one under way. */
  lemma {:induction false} AnnouncementsReturn(s: State)
    requires Reachable(s)
    ensures s.announced == s.returned + (if s.setter == SIdle then {} else {(s.setter.run, s.setter.contestant)})
  {
    var durationSecs, now, acts :| Legal(Init(durationSecs, now), acts) && s == Exec(Init(durationSecs, now), acts);
    AnnouncementsAlong(Init(durationSecs, now), acts);
  }

  ghost predicate AnnouncedOrReturned(s: State) {
    s.announced == s.returned + (if s.setter == SIdle then {} else {(s.setter.run, s.setter.contestant)})
  }

  lemma {:induction false} AnnouncementsAlong(s: State, acts: seq<Action>)
    requires AnnouncedOrReturned(s) && Legal(s, acts)
    ensures AnnouncedOrReturned(Exec(s, acts))
    decreases |acts|
  {
    if acts != [] {
      AnnouncementStep(s, acts[0]);
      AnnouncementsAlong(Do(s, acts[0]), acts[1..]);
    }
  }

  lemma {:induction false} AnnouncementStep(s: State, a: Action)
    requires AnnouncedOrReturned(s) && Enabled(s, a)
    ensures AnnouncedOrReturned(Do(s, a))
  {
  }

  function SnapOrders(snaps: seq<Emitted>, run: string): int {
    if snaps == [] then 0
    else
      var last := snaps[|snaps| - 1];
      SnapOrders(snaps[..|snaps| - 1], run) + (if last.run == run then last.window.orderCount else 0)
  }

  function LiveOrders(s: State, run: string): int {
    if run in s.windows && s.windows[run] < |s.cells| then s.cells[s.windows[run]].window.orderCount else 0
  }

  lemma {:induction false} SnapOrdersCount(snaps: seq<Emitted>, run: string)
    requires forall k :: 0 <= k < |snaps| ==> snaps[k].window.orderCount == |snaps[k].hist|
    ensures SnapOrders(snaps, run) == |Snapshotted(snaps, run)|
  {
    if snaps != [] {
      SnapOrdersCount(snaps[..|snaps| - 1], run);
    }
  }

  /** The same in the numbers the snapshots report. */
  lemma OrderCountsConserved(s: State, run: string)
    requires Reachable(s)
    ensures |OfRun(s.finished, run)| ==
            SnapOrders(s.snaps, run) + LiveOrders(s, run) + |OfRun(s.late, run)|
  {
    ReachableInv(s);
    assert ConservedFor(s, run);
    forall k | 0 <= k < |s.snaps| ensures s.snaps[k].window.orderCount == |s.snaps[k].hist| {
      FaithfulCounts(s.snaps[k].window, s.snaps[k].hist, s.durationSecs);
    }
    SnapOrdersCount(s.snaps, run);
    if run in s.windows {
      var c := s.windows[run];
      assert CellInv(s, c);
      FaithfulCounts(s.cells[c].window, s.cells[c].hist, s.durationSecs);
    }
  }

  /** Every snapshot reports at least one order, and has accumulated exactly its events. */
  lemma SnapshotsAccumulate(s: State, k: nat)
    requires Reachable(s) && k < |s.snaps|
    ensures s.snaps[k].window.orderCount >= 1
    ensures s.snaps[k].hist != [] && Accumulated(s.snaps[k].window, s.snaps[k].hist)
  {
    ReachableInv(s);
    var snap := s.snaps[k];
    FaithfulCounts(snap.window, snap.hist, s.durationSecs);
    RecordAllAccumulates(snap.window.contestantID, s.durationSecs, snap.window.createdAt, snap.hist);
  }

  /**
   A run's metrics do not depend on the interleaving: wherever two snapshots hold
   the same events for the same contestant, in any orders, they report the same.
   */
  lemma MetricsIgnoreInterleaving(s: State, k: nat, t: State, l: nat, r1: RunSnapshot, r2: RunSnapshot)
    requires Reachable(s) && k < |s.snaps| && Reachable(t) && l < |t.snaps|
    requires multiset(s.snaps[k].hist) == multiset(t.snaps[l].hist) && TiesHarmless(Summarise(s.snaps[k].hist).fills)
    requires s.snaps[k].run == t.snaps[l].run && s.snaps[k].window.contestantID == t.snaps[l].window.contestantID
    requires IsSnapshotOf(r1, s.snaps[k].run, s.snaps[k].window) && IsSnapshotOf(r2, t.snaps[l].run, t.snaps[l].window)
    ensures r1 == r2
  {
    SnapshotsAccumulate(s, k);
    SnapshotsAccumulate(t, l);
    SnapshotIgnoresOrder(s.snaps[k].run, s.snaps[k].window, t.snaps[l].window, s.snaps[k].hist, t.snaps[l].hist, r1, r2);
  }

  /** Two snapshots of one run are at least the run duration and the grace period apart. */
  lemma SnapshotsAreSpaced(s: State, j: nat, k: nat)
    requires Reachable(s) && j < k < |s.snaps| && s.snaps[j].run == s.snaps[k].run
    ensures s.snaps[k].at - s.snaps[j].at >= (s.durationSecs + 2) * 1_000_000_000
  {
    ReachableInv(s);
  }

  /** A contestant in a snapshot was announced for that run. */
  lemma SnapshotContestantAnnounced(s: State, k: nat)
    requires Reachable(s) && k < |s.snaps| && s.snaps[k].window.contestantID != ""
    ensures (s.snaps[k].run, s.snaps[k].window.contestantID) in s.announced
  {
    ReachableInv(s);
    assert Announced(s, s.snaps[k].run, s.snaps[k].window.contestantID);
  }

  /**
   If naming the contestant had returned before the run's first snapshot, and no
   other name was announced for the run, the first snapshot carries that name.
   */
  lemma FirstSnapshotNamesContestant(s: State, a: Action, run: string, contestant: string)
    requires Reachable(s) && TakesSnapshot(s, a) && s.checker.run == run && NoSnapshotYet(s, run)
    requires (run, contestant) in s.returned && OnlyAnnounced(s, run, contestant)
    ensures Enabled(s, a) && Do(s, a).snaps == s.snaps + [NewSnapshot(s)]
    ensures NewSnapshot(s).run == run && NewSnapshot(s).window.contestantID == contestant
  {
    ReachableInv(s);
    assert InForce(s, run, contestant);
  }
}
