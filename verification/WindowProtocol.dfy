/**
 The window manager under its three goroutines
 (apps/ingester/internal/window/window.go with internal/consumer/kafka.go:52-92
 and 134-164): the telemetry loop that adds events, the ticker that checks for
 completed runs, and the run.started loop that names contestants.

 Each operation is cut at its lock boundaries. `AddEvent` and `SetContestantID`
 release the manager's lock before they take the window's, so a window can be
 snapshotted and removed in between; `CheckCompleted` holds the manager's lock
 throughout and takes each window's lock in turn. This file holds the machine and
 its invariants; RunHistory.dfy, ManagerProgress.dfy and ManagerAlone.dfy say what
 follows from them.
 */
module WindowProtocol {
  import opened Windows

  datatype Thread = Adder | Setter | Checker
  datatype Owner = Nobody | Held(holder: Thread)

  datatype AdderPC =
    | AIdle
    | AWaitManager(e: TelemetryEvent)
    | AHoldManager(e: TelemetryEvent)
    | AWaitWindow(e: TelemetryEvent, cell: nat)
    | AHoldWindow(e: TelemetryEvent, cell: nat)

  datatype SetterPC =
    | SIdle
    | SWaitManager(run: string, contestant: string)
    | SHoldManager(run: string, contestant: string)
    | SWaitWindow(run: string, contestant: string, cell: nat)
    | SHoldWindow(run: string, contestant: string, cell: nat)

  datatype CheckerPC =
    | CIdle
    | CWaitManager
    | CScan(todo: set<string>)
    | CWaitWindow(run: string, todo: set<string>)
    | CHoldWindow(run: string, todo: set<string>)

  /** A window object. It outlives its entry in the manager's map. */
  datatype Cell = Cell(run: string, window: Window, hist: seq<TelemetryEvent>, owner: Owner)

  datatype Emitted = Emitted(run: string, window: Window, hist: seq<TelemetryEvent>, at: int)

  /**
   The variables of the program, then a record of what happened: adds that
   finished, those of them that reached a window already removed, announcements
   made and completed, and snapshots taken.
   */
  datatype State = State(
    durationSecs: int, now: int,
    windows: map<string, nat>, contestants: map<string, string>, cells: seq<Cell>,
    manager: Owner, adder: AdderPC, setter: SetterPC, checker: CheckerPC,
    finished: seq<TelemetryEvent>, late: seq<TelemetryEvent>,
    announced: set<(string, string)>, returned: set<(string, string)>, snaps: seq<Emitted>)

  function Init(durationSecs: int, now: int): State {
    State(durationSecs, now, map[], map[], [], Nobody, AIdle, SIdle, CIdle, [], [], {}, {}, [])
  }

  datatype Action =
    | Tick(ns: nat)
    | Arrive(e: TelemetryEvent)
    | Announce(run: string, contestant: string)
    | Check
    | Go(thread: Thread, pick: string) // one internal step; `pick` resolves the map iteration order

  function LiveCell(s: State, run: string, cell: nat): bool {
    run in s.windows && s.windows[run] == cell
  }

  // ---------- the steps ----------

  predicate CanGo(s: State, t: Thread, pick: string) {
    match t
    case Adder => (match s.adder
      case AIdle => false
      case AWaitManager(_) => s.manager == Nobody
      case AHoldManager(_) => true
      case AWaitWindow(_, c) => c < |s.cells| && s.cells[c].owner == Nobody
      case AHoldWindow(_, c) => c < |s.cells|)
    case Setter => (match s.setter
      case SIdle => false
      case SWaitManager(_, _) => s.manager == Nobody
      case SHoldManager(_, _) => true
      case SWaitWindow(_, _, c) => c < |s.cells| && s.cells[c].owner == Nobody
      case SHoldWindow(_, _, c) => c < |s.cells|)
    case Checker => (match s.checker
      case CIdle => false
      case CWaitManager => s.manager == Nobody
      case CScan(todo) => todo == {} || pick in todo
      case CWaitWindow(r, _) => r in s.windows && s.windows[r] < |s.cells| && s.cells[s.windows[r]].owner == Nobody
      case CHoldWindow(r, _) => r in s.windows && s.windows[r] < |s.cells|)
  }

  predicate Enabled(s: State, a: Action) {
    match a
    case Tick(_) => true
    case Arrive(_) => s.adder == AIdle
    case Announce(_, _) => s.setter == SIdle
    case Check => s.checker == CIdle
    case Go(t, pick) => CanGo(s, t, pick)
  }

  function Do(s: State, a: Action): State
    requires Enabled(s, a)
  {
    match a
    case Tick(ns) => s.(now := s.now + ns)
    case Arrive(e) => s.(adder := AWaitManager(e))
    case Announce(r, c) => s.(setter := SWaitManager(r, c), announced := s.announced + {(r, c)})
    case Check => s.(checker := CWaitManager)
    case Go(t, pick) =>
      match t
      case Adder => AdderStep(s)
      case Setter => SetterStep(s)
      case Checker => CheckerStep(s, pick)
  }

  function SetOwner(s: State, c: nat, o: Owner): seq<Cell>
    requires c < |s.cells|
  {
    s.cells[c := s.cells[c].(owner := o)]
  }

  function AdderStep(s: State): State
    requires CanGo(s, Adder, "")
  {
    match s.adder
    case AWaitManager(e) => s.(manager := Held(Adder), adder := AHoldManager(e))
    case AHoldManager(e) => Lookup(s, e)
    case AWaitWindow(e, c) => s.(cells := SetOwner(s, c, Held(Adder)), adder := AHoldWindow(e, c))
    case AHoldWindow(e, c) => RecordAt(s, e, c)
  }

  /** Find or create the window, then release the manager's lock. */
  function Lookup(s: State, e: TelemetryEvent): State {
    if e.runID in s.windows then
      s.(manager := Nobody, adder := AWaitWindow(e, s.windows[e.runID]))
    else
      var contestant := if e.runID in s.contestants then s.contestants[e.runID] else "";
      var cell := Cell(e.runID, Opened(contestant, e.sentAtNs, s.durationSecs, s.now), [], Nobody);
      s.(manager := Nobody, windows := s.windows[e.runID := |s.cells|], cells := s.cells + [cell],
         adder := AWaitWindow(e, |s.cells|))
  }

  /** Record the event in the window it found, then release the window's lock. */
  function RecordAt(s: State, e: TelemetryEvent, c: nat): State
    requires c < |s.cells|
  {
    var cell := s.cells[c];
    s.(cells := s.cells[c := Cell(cell.run, Record(cell.window, e), cell.hist + [e], Nobody)],
       adder := AIdle,
       finished := s.finished + [e],
       late := if LiveCell(s, e.runID, c) then s.late else s.late + [e])
  }

  function SetterStep(s: State): State
    requires CanGo(s, Setter, "")
  {
    match s.setter
    case SWaitManager(r, c) => s.(manager := Held(Setter), setter := SHoldManager(r, c))
    case SHoldManager(r, c) => StoreContestant(s, r, c)
    case SWaitWindow(r, c, w) => s.(cells := SetOwner(s, w, Held(Setter)), setter := SHoldWindow(r, c, w))
    case SHoldWindow(r, c, w) =>
      var cell := s.cells[w];
      s.(cells := s.cells[w := cell.(window := cell.window.(contestantID := c), owner := Nobody)],
         setter := SIdle, returned := s.returned + {(r, c)})
  }

  function StoreContestant(s: State, r: string, c: string): State {
    var t := s.(manager := Nobody, contestants := s.contestants[r := c]);
    if r in s.windows then t.(setter := SWaitWindow(r, c, s.windows[r]))
    else t.(setter := SIdle, returned := s.returned + {(r, c)})
  }

  function CheckerStep(s: State, pick: string): State
    requires CanGo(s, Checker, pick)
  {
    match s.checker
    case CWaitManager => s.(manager := Held(Checker), checker := CScan(s.windows.Keys))
    case CScan(todo) =>
      if todo == {} then s.(manager := Nobody, checker := CIdle)
      else s.(checker := CWaitWindow(pick, todo - {pick}))
    case CWaitWindow(r, todo) =>
      s.(cells := SetOwner(s, s.windows[r], Held(Checker)), checker := CHoldWindow(r, todo))
    case CHoldWindow(r, todo) =>
      var cell := s.cells[s.windows[r]];
      var t := s.(cells := SetOwner(s, s.windows[r], Nobody), checker := CScan(todo));
      if Complete(cell.window, s.now) then
        t.(snaps := s.snaps + [Emitted(r, cell.window, cell.hist, s.now)],
           windows := s.windows - {r}, contestants := s.contestants - {r})
      else t
  }

  // ---------- runs ----------

  predicate Legal(s: State, acts: seq<Action>)
    decreases |acts|
  {
    acts == [] || (Enabled(s, acts[0]) && Legal(Do(s, acts[0]), acts[1..]))
  }

  function Exec(s: State, acts: seq<Action>): State
    requires Legal(s, acts)
    decreases |acts|
  {
    if acts == [] then s else Exec(Do(s, acts[0]), acts[1..])
  }

  /** `s` is a state the program can be in. */
  ghost predicate Reachable(s: State) {
    exists durationSecs: int, now: int, acts: seq<Action> ::
      Legal(Init(durationSecs, now), acts) && s == Exec(Init(durationSecs, now), acts)
  }

  // ---------- invariants ----------

  /** Who holds which lock follows from where each thread is. */
  ghost predicate LockInv(s: State) {
    && ManagerInv(s)
    && (forall i :: 0 <= i < |s.cells| ==> OwnerInv(s, i))
  }

  ghost predicate OwnerInv(s: State, i: nat)
    requires i < |s.cells|
  {
    var o := s.cells[i].owner;
    && (o == Held(Adder) <==> s.adder.AHoldWindow? && s.adder.cell == i)
    && (o == Held(Setter) <==> s.setter.SHoldWindow? && s.setter.cell == i)
    && (o == Held(Checker) <==> s.checker.CHoldWindow? && LiveCell(s, s.checker.run, i))
  }

  /** Pointers lead to windows of the right run. */
  ghost predicate PointerInv(s: State) {
    && (forall r :: r in s.windows ==> s.windows[r] < |s.cells| && s.cells[s.windows[r]].run == r)
    && (s.adder.AWaitWindow? || s.adder.AHoldWindow? ==>
          s.adder.cell < |s.cells| && s.cells[s.adder.cell].run == s.adder.e.runID)
    && (s.setter.SWaitWindow? || s.setter.SHoldWindow? ==>
          s.setter.cell < |s.cells| && s.cells[s.setter.cell].run == s.setter.run)
    && (s.checker.CScan? || s.checker.CWaitWindow? || s.checker.CHoldWindow? ==> s.checker.todo <= s.windows.Keys)
    && (s.checker.CWaitWindow? || s.checker.CHoldWindow? ==>
          s.checker.run in s.windows && s.checker.run !in s.checker.todo)
  }

  function FirstSent(window: Window, hist: seq<TelemetryEvent>): int {
    if hist == [] then window.startTimeNs else hist[0].sentAtNs
  }

  /** The window is what recording `hist`, from its first event on, makes of a new window. */
  ghost predicate Faithful(window: Window, hist: seq<TelemetryEvent>, durationSecs: int) {
    window == RecordAll(Opened(window.contestantID, FirstSent(window, hist), durationSecs, window.createdAt), hist)
  }

  /** Every window has recorded exactly its history; only the one being filled may be empty. */
  ghost predicate CellInv(s: State, i: nat)
    requires i < |s.cells|
  {
    var cell := s.cells[i];
    && Faithful(cell.window, cell.hist, s.durationSecs)
    && cell.window.createdAt <= s.now
    && (forall e :: e in cell.hist ==> e.runID == cell.run)
    && (cell.hist == [] ==>
          && (s.adder.AWaitWindow? || s.adder.AHoldWindow?)
          && s.adder.cell == i && s.adder.e.sentAtNs == cell.window.startTimeNs
          && LiveCell(s, cell.run, i))
  }

  ghost predicate DataInv(s: State) {
    && (forall i :: 0 <= i < |s.cells| ==> CellInv(s, i))
    && (forall k :: 0 <= k < |s.snaps| ==> s.snaps[k].hist != [] && Faithful(s.snaps[k].window, s.snaps[k].hist, s.durationSecs))
  }

  function OfRun(es: seq<TelemetryEvent>, run: string): multiset<TelemetryEvent> {
    if es == [] then multiset{}
    else if es[|es| - 1].runID == run then OfRun(es[..|es| - 1], run) + multiset{es[|es| - 1]}
    else OfRun(es[..|es| - 1], run)
  }

  /** All events in the snapshots of a run. */
  function Snapshotted(snaps: seq<Emitted>, run: string): multiset<TelemetryEvent> {
    if snaps == [] then multiset{}
    else
      var last := snaps[|snaps| - 1];
      if last.run == run then Snapshotted(snaps[..|snaps| - 1], run) + multiset(last.hist)
      else Snapshotted(snaps[..|snaps| - 1], run)
  }

  function SnapCount(snaps: seq<Emitted>, run: string): nat {
    if snaps == [] then 0
    else SnapCount(snaps[..|snaps| - 1], run) + (if snaps[|snaps| - 1].run == run then 1 else 0)
  }

  /** The events in the run's current window. */
  function InWindow(s: State, run: string): multiset<TelemetryEvent> {
    if run in s.windows && s.windows[run] < |s.cells| then multiset(s.cells[s.windows[run]].hist) else multiset{}
  }

  /** An add is about to record in a window that was already removed. */
  function Stranded(s: State, run: string): nat {
    if (s.adder.AWaitWindow? || s.adder.AHoldWindow?) && s.adder.e.runID == run && !LiveCell(s, run, s.adder.cell)
    then 1 else 0
  }

  ghost predicate ConservedFor(s: State, run: string) {
    && OfRun(s.finished, run) == Snapshotted(s.snaps, run) + InWindow(s, run) + OfRun(s.late, run)
    && |OfRun(s.late, run)| + Stranded(s, run) <= SnapCount(s.snaps, run)
  }

  ghost predicate ConservationInv(s: State) {
    forall run :: ConservedFor(s, run)
  }

  function MinAge(s: State): int {
    (s.durationSecs + GRACE_SECS) * NS_PER_SEC
  }

  ghost predicate SpacingInv(s: State) {
    && (forall k :: 0 <= k < |s.snaps| ==> s.snaps[k].at <= s.now)
    && (forall j, k :: 0 <= j < k < |s.snaps| && s.snaps[j].run == s.snaps[k].run ==>
          s.snaps[k].at - s.snaps[j].at >= MinAge(s))
    && (forall k :: 0 <= k < |s.snaps| && s.snaps[k].run in s.windows ==>
          s.windows[s.snaps[k].run] < |s.cells| && s.snaps[k].at <= s.cells[s.windows[s.snaps[k].run]].window.createdAt)
  }

  /** No contestant appears anywhere that was not announced for that run. */
  ghost predicate ProvenanceInv(s: State) {
    && (forall r :: r in s.contestants ==> (r, s.contestants[r]) in s.announced)
    && (forall i :: 0 <= i < |s.cells| ==> Announced(s, s.cells[i].run, s.cells[i].window.contestantID))
    && (forall k :: 0 <= k < |s.snaps| ==> Announced(s, s.snaps[k].run, s.snaps[k].window.contestantID))
    && (!s.setter.SIdle? ==> (s.setter.run, s.setter.contestant) in s.announced)
  }

  ghost predicate Announced(s: State, run: string, contestant: string) {
    contestant == "" || (run, contestant) in s.announced
  }

  ghost predicate OnlyAnnounced(s: State, run: string, contestant: string) {
    forall c :: (run, c) in s.announced ==> c == contestant
  }

  ghost predicate NoSnapshotYet(s: State, run: string) {
    forall k :: 0 <= k < |s.snaps| ==> s.snaps[k].run != run
  }

  /** A completed announcement is in force until the run's first snapshot. */
  ghost predicate AttributionInv(s: State) {
    && s.returned <= s.announced
    && PendingInv(s)
    && forall run, contestant :: (run, contestant) in s.returned && NoSnapshotYet(s, run) && OnlyAnnounced(s, run, contestant) ==>
         InForce(s, run, contestant)
  }

  /** An announcement under way has been stored and points at the run's window, until a snapshot removes both. */
  ghost predicate PendingInv(s: State) {
    (s.setter.SWaitWindow? || s.setter.SHoldWindow?) && NoSnapshotYet(s, s.setter.run) ==>
      && s.setter.run in s.contestants && s.contestants[s.setter.run] == s.setter.contestant
      && LiveCell(s, s.setter.run, s.setter.cell)
  }

  ghost predicate InForce(s: State, run: string, contestant: string) {
    && run in s.contestants && s.contestants[run] == contestant
    && (run in s.windows ==> s.windows[run] < |s.cells| && s.cells[s.windows[run]].window.contestantID == contestant)
  }

  // ---------- each invariant is kept by each step ----------

  ghost predicate Inv(s: State) {
    LockInv(s) && PointerInv(s) && DataInv(s) && ConservationInv(s) && SpacingInv(s) && ProvenanceInv(s) && AttributionInv(s)
  }

  lemma InitInv(durationSecs: int, now: int)
    ensures Inv(Init(durationSecs, now))
  {
  }

  lemma {:induction false} PointersKept(s: State, a: Action)
    requires PointerInv(s) && LockInv(s) && Enabled(s, a)
    ensures PointerInv(Do(s, a))
  {
    match a
    case Tick(_) =>
    case Arrive(_) =>
    case Announce(_, _) =>
    case Check =>
    case Go(t, pick) =>
      match t
      case Adder => PointersKeptByAdder(s);
      case Setter => PointersKeptBySetter(s);
      case Checker => PointersKeptByChecker(s, pick);
  }

  lemma {:induction false} PointersKeptByAdder(s: State)
    requires PointerInv(s) && LockInv(s) && CanGo(s, Adder, "")
    ensures PointerInv(AdderStep(s))
  {
  }

  lemma {:induction false} PointersKeptBySetter(s: State)
    requires PointerInv(s) && LockInv(s) && CanGo(s, Setter, "")
    ensures PointerInv(SetterStep(s))
  {
  }

  lemma {:induction false} PointersKeptByChecker(s: State, pick: string)
    requires PointerInv(s) && LockInv(s) && CanGo(s, Checker, pick)
    ensures PointerInv(CheckerStep(s, pick))
  {
  }

  lemma {:induction false} LocksKept(s: State, a: Action)
    requires PointerInv(s) && LockInv(s) && Enabled(s, a)
    ensures LockInv(Do(s, a))
  {
    var t := Do(s, a);
    forall i | 0 <= i < |t.cells| ensures OwnerInv(t, i) {
      OwnerKept(s, a, i);
    }
    ManagerKept(s, a);
  }

  ghost predicate ManagerInv(s: State) {
    && (s.manager == Held(Adder) <==> s.adder.AHoldManager?)
    && (s.manager == Held(Setter) <==> s.setter.SHoldManager?)
    && (s.manager == Held(Checker) <==> s.checker.CScan? || s.checker.CWaitWindow? || s.checker.CHoldWindow?)
  }

  lemma {:induction false} ManagerKept(s: State, a: Action)
    requires ManagerInv(s) && Enabled(s, a)
    ensures ManagerInv(Do(s, a))
  {
  }

  lemma {:induction false} OwnerKept(s: State, a: Action, i: nat)
    requires PointerInv(s) && LockInv(s) && Enabled(s, a) && i < |Do(s, a).cells|
    ensures OwnerInv(Do(s, a), i)
  {
    if i < |s.cells| { assert OwnerInv(s, i); }
    if a.Go? {
      match a.thread
      case Adder => OwnerKeptByAdder(s, i);
      case Setter => OwnerKeptBySetter(s, i);
      case Checker => OwnerKeptByChecker(s, a.pick, i);
    }
  }

  lemma {:induction false} OwnerKeptByAdder(s: State, i: nat)
    requires PointerInv(s) && LockInv(s) && CanGo(s, Adder, "") && i < |AdderStep(s).cells|
    ensures OwnerInv(AdderStep(s), i)
  {
    if i < |s.cells| { assert OwnerInv(s, i); }
  }

  lemma {:induction false} OwnerKeptBySetter(s: State, i: nat)
    requires PointerInv(s) && LockInv(s) && CanGo(s, Setter, "") && i < |SetterStep(s).cells|
    ensures OwnerInv(SetterStep(s), i)
  {
    if i < |s.cells| { assert OwnerInv(s, i); }
  }

  lemma {:induction false} OwnerKeptByChecker(s: State, pick: string, i: nat)
    requires PointerInv(s) && LockInv(s) && CanGo(s, Checker, pick) && i < |CheckerStep(s, pick).cells|
    ensures OwnerInv(CheckerStep(s, pick), i)
  {
    if i < |s.cells| { assert OwnerInv(s, i); }
  }

  lemma {:induction false} DataKept(s: State, a: Action)
    requires PointerInv(s) && LockInv(s) && DataInv(s) && Enabled(s, a)
    ensures DataInv(Do(s, a))
  {
    var t := Do(s, a);
    forall i | 0 <= i < |t.cells| ensures CellInv(t, i) {
      CellKept(s, a, i);
    }
    SnapshotTaken(s, a);
    AgesStep(s, a);
    if TakesSnapshot(s, a) {
      SnapshotsFaithful(s, t, NewSnapshot(s));
    }
  }

  lemma {:induction false} SnapshotsFaithful(s: State, t: State, snap: Emitted)
    requires DataInv(s) && t.durationSecs == s.durationSecs && t.snaps == s.snaps + [snap]
    requires snap.hist != [] && Faithful(snap.window, snap.hist, s.durationSecs)
    ensures forall k :: 0 <= k < |t.snaps| ==> t.snaps[k].hist != [] && Faithful(t.snaps[k].window, t.snaps[k].hist, t.durationSecs)
  {
  }

  /** A step takes at most one snapshot, of a window that holds at least one order. */
  lemma {:induction false} SnapshotTaken(s: State, a: Action)
    requires PointerInv(s) && DataInv(s) && Enabled(s, a)
    ensures Do(s, a).snaps == s.snaps || TakesSnapshot(s, a)
    ensures TakesSnapshot(s, a) ==>
      var snap := s.snaps + [NewSnapshot(s)];
      Do(s, a).snaps == snap && NewSnapshot(s).hist != [] && Faithful(NewSnapshot(s).window, NewSnapshot(s).hist, s.durationSecs)
  {
    if TakesSnapshot(s, a) {
      var c := s.windows[s.checker.run];
      assert CellInv(s, c);
      FaithfulCounts(s.cells[c].window, s.cells[c].hist, s.durationSecs);
    }
  }

  predicate TakesSnapshot(s: State, a: Action) {
    && a.Go? && a.thread == Checker && s.checker.CHoldWindow? && CanGo(s, Checker, a.pick)
    && Complete(s.cells[s.windows[s.checker.run]].window, s.now)
  }

  function NewSnapshot(s: State): Emitted
    requires s.checker.CHoldWindow? && CanGo(s, Checker, "")
  {
    var cell := s.cells[s.windows[s.checker.run]];
    Emitted(s.checker.run, cell.window, cell.hist, s.now)
  }

  lemma {:induction false} CellKept(s: State, a: Action, i: nat)
    requires PointerInv(s) && LockInv(s) && DataInv(s) && Enabled(s, a) && i < |Do(s, a).cells|
    ensures CellInv(Do(s, a), i)
  {
    if i < |s.cells| { assert CellInv(s, i); }
    if a.Go? {
      match a.thread
      case Adder => CellKeptByAdder(s, i);
      case Setter => CellKeptBySetter(s, i);
      case Checker => CellKeptByChecker(s, a.pick, i);
    }
  }

  lemma {:induction false} FaithfulCounts(window: Window, hist: seq<TelemetryEvent>, durationSecs: int)
    requires Faithful(window, hist, durationSecs)
    ensures window.orderCount == |hist|
  {
    RecordAllKeeps(Opened(window.contestantID, FirstSent(window, hist), durationSecs, window.createdAt), hist, "");
  }

  lemma {:induction false} FaithfulRecord(window: Window, hist: seq<TelemetryEvent>, durationSecs: int, e: TelemetryEvent)
    requires Faithful(window, hist, durationSecs)
    requires hist == [] ==> window.startTimeNs == e.sentAtNs
    ensures Faithful(Record(window, e), hist + [e], durationSecs)
  {
    RecordAllAppend(Opened(window.contestantID, FirstSent(window, hist), durationSecs, window.createdAt), hist, e);
  }

  lemma {:induction false} FaithfulRename(window: Window, hist: seq<TelemetryEvent>, durationSecs: int, contestant: string)
    requires Faithful(window, hist, durationSecs)
    ensures Faithful(window.(contestantID := contestant), hist, durationSecs)
  {
    RecordAllKeeps(Opened(window.contestantID, FirstSent(window, hist), durationSecs, window.createdAt), hist, contestant);
  }

  lemma {:induction false} CellKeptByAdder(s: State, i: nat)
    requires PointerInv(s) && LockInv(s) && CanGo(s, Adder, "") && i < |AdderStep(s).cells|
    requires i < |s.cells| ==> CellInv(s, i)
    ensures CellInv(AdderStep(s), i)
  {
    if s.adder.AHoldWindow? && s.adder.cell == i {
      FaithfulRecord(s.cells[i].window, s.cells[i].hist, s.durationSecs, s.adder.e);
    }
  }

  /** A window whose contents and standing did not change. */
  lemma {:induction false} CellSame(s: State, t: State, i: nat)
    requires i < |s.cells| && i < |t.cells| && CellInv(s, i)
    requires t.cells[i].window == s.cells[i].window && t.cells[i].hist == s.cells[i].hist && t.cells[i].run == s.cells[i].run
    requires t.durationSecs == s.durationSecs && t.now == s.now && t.adder == s.adder
    requires s.cells[i].hist == [] ==> LiveCell(t, s.cells[i].run, i)
    ensures CellInv(t, i)
  {
  }

  lemma {:induction false} CellKeptBySetter(s: State, i: nat)
    requires PointerInv(s) && LockInv(s) && CanGo(s, Setter, "") && i < |s.cells| && CellInv(s, i)
    ensures CellInv(SetterStep(s), i)
  {
    if s.setter.SHoldWindow? && s.setter.cell == i {
      FaithfulRename(s.cells[i].window, s.cells[i].hist, s.durationSecs, s.setter.contestant);
    } else {
      CellSame(s, SetterStep(s), i);
    }
  }

  lemma {:induction false} CellKeptByChecker(s: State, pick: string, i: nat)
    requires PointerInv(s) && LockInv(s) && CanGo(s, Checker, pick) && i < |s.cells| && CellInv(s, i)
    ensures CellInv(CheckerStep(s, pick), i)
  {
    FaithfulCounts(s.cells[i].window, s.cells[i].hist, s.durationSecs);
    CheckerKeepsEmpty(s, pick, i);
    CellSame(s, CheckerStep(s, pick), i);
  }

  /** The checker removes only windows with orders. */
  lemma {:induction false} CheckerKeepsEmpty(s: State, pick: string, i: nat)
    requires PointerInv(s) && CanGo(s, Checker, pick) && i < |s.cells|
    requires s.cells[i].window.orderCount == |s.cells[i].hist|
    ensures s.cells[i].hist == [] && LiveCell(s, s.cells[i].run, i) ==> LiveCell(CheckerStep(s, pick), s.cells[i].run, i)
  {
  }

  lemma OfRunAppend(es: seq<TelemetryEvent>, e: TelemetryEvent, run: string)
    ensures OfRun(es + [e], run) == if e.runID == run then OfRun(es, run) + multiset{e} else OfRun(es, run)
  {
    assert (es + [e])[..|es|] == es;
  }

  lemma SnapshottedAppend(snaps: seq<Emitted>, snap: Emitted, run: string)
    ensures Snapshotted(snaps + [snap], run) ==
            if snap.run == run then Snapshotted(snaps, run) + multiset(snap.hist) else Snapshotted(snaps, run)
    ensures SnapCount(snaps + [snap], run) == SnapCount(snaps, run) + (if snap.run == run then 1 else 0)
  {
    assert (snaps + [snap])[..|snaps|] == snaps;
  }

  lemma {:induction false} ConservationKept(s: State, a: Action, run: string)
    requires PointerInv(s) && LockInv(s) && ConservedFor(s, run) && Enabled(s, a)
    ensures ConservedFor(Do(s, a), run)
  {
    if a.Go? {
      match a.thread
      case Adder => ConservedByAdder(s, run);
      case Setter => ConservedBySetter(s, run);
      case Checker => ConservedByChecker(s, a.pick, run);
    }
  }

  lemma {:induction false} ConservedByAdder(s: State, run: string)
    requires PointerInv(s) && LockInv(s) && ConservedFor(s, run) && CanGo(s, Adder, "")
    ensures ConservedFor(AdderStep(s), run)
  {
    match s.adder
    case AWaitManager(e) => ConservedSame(s, AdderStep(s), run);
    case AHoldManager(e) => ConservedByLookup(s, e, run);
    case AWaitWindow(e, c) =>
      SameHistories(s, AdderStep(s), run);
      ConservedSame(s, AdderStep(s), run);
    case AHoldWindow(e, c) => ConservedByRecord(s, e, c, run);
  }

  lemma {:induction false} ConservedByLookup(s: State, e: TelemetryEvent, run: string)
    requires PointerInv(s) && ConservedFor(s, run) && s.adder == AHoldManager(e)
    ensures ConservedFor(Lookup(s, e), run)
  {
    var t := Lookup(s, e);
    assert InWindow(t, run) == InWindow(s, run);
    assert Stranded(t, run) == 0 == Stranded(s, run);
    ConservedSame(s, t, run);
  }

  lemma {:induction false} RecordEffects(s: State, e: TelemetryEvent, c: nat, run: string)
    requires PointerInv(s) && s.adder == AHoldWindow(e, c)
    ensures var t := RecordAt(s, e, c);
      && Stranded(t, run) == 0
      && Stranded(s, run) == (if e.runID == run && !LiveCell(s, run, c) then 1 else 0)
      && InWindow(t, run) == InWindow(s, run) + (if e.runID == run && LiveCell(s, run, c) then multiset{e} else multiset{})
  {
  }

  lemma {:induction false} ConservedByRecord(s: State, e: TelemetryEvent, c: nat, run: string)
    requires PointerInv(s) && ConservedFor(s, run) && s.adder == AHoldWindow(e, c)
    ensures ConservedFor(RecordAt(s, e, c), run)
  {
    var t := RecordAt(s, e, c);
    RecordEffects(s, e, c, run);
    assert OfRun(t.finished, run) == OfRun(s.finished, run) + (if e.runID == run then multiset{e} else multiset{}) by {
      OfRunAppend(s.finished, e, run);
    }
    assert OfRun(t.late, run) == OfRun(s.late, run) +
        (if e.runID == run && !LiveCell(s, run, c) then multiset{e} else multiset{}) by {
      OfRunAppend(s.late, e, run);
    }
    Shuffle(Snapshotted(s.snaps, run), InWindow(s, run), OfRun(s.late, run), multiset{e});
  }

  lemma Shuffle(a: multiset<TelemetryEvent>, b: multiset<TelemetryEvent>, c: multiset<TelemetryEvent>, x: multiset<TelemetryEvent>)
    ensures a + b + c + x == a + (b + x) + c
    ensures a + b + c + x == a + b + (c + x)
    ensures a + multiset{} == a && b + multiset{} == b && c + multiset{} == c
    ensures (a + b + c) + multiset{} == a + b + c
  {
  }

  /** Nothing that conservation counts has changed. */
  lemma {:induction false} ConservedSame(s: State, t: State, run: string)
    requires ConservedFor(s, run)
    requires t.finished == s.finished && t.late == s.late && t.snaps == s.snaps
    requires InWindow(t, run) == InWindow(s, run) && Stranded(t, run) == Stranded(s, run)
    ensures ConservedFor(t, run)
  {
  }

  lemma {:induction false} SameHistories(s: State, t: State, run: string)
    requires t.windows == s.windows && |t.cells| == |s.cells|
    requires forall i :: 0 <= i < |s.cells| ==> t.cells[i].hist == s.cells[i].hist
    ensures InWindow(t, run) == InWindow(s, run)
  {
  }

  lemma {:induction false} ConservedBySetter(s: State, run: string)
    requires PointerInv(s) && LockInv(s) && ConservedFor(s, run) && CanGo(s, Setter, "")
    ensures ConservedFor(SetterStep(s), run)
  {
    SetterFrame(s);
    SameHistories(s, SetterStep(s), run);
    ConservedSame(s, SetterStep(s), run);
  }

  /** The setter touches no event, snapshot or map entry. */
  lemma {:induction false} SetterFrame(s: State)
    requires CanGo(s, Setter, "")
    ensures var t := SetterStep(s);
      && t.windows == s.windows && t.adder == s.adder
      && t.finished == s.finished && t.late == s.late && t.snaps == s.snaps
      && |t.cells| == |s.cells| && forall i :: 0 <= i < |s.cells| ==> t.cells[i].hist == s.cells[i].hist
  {
  }

  lemma {:induction false} ConservedByChecker(s: State, pick: string, run: string)
    requires PointerInv(s) && LockInv(s) && ConservedFor(s, run) && CanGo(s, Checker, pick)
    ensures ConservedFor(CheckerStep(s, pick), run)
  {
    var t := CheckerStep(s, pick);
    if TakesSnapshot(s, Go(Checker, pick)) {
      SnapshottedAppend(s.snaps, NewSnapshot(s), run);
      SnapshotEffects(s, pick, run);
    } else {
      SameHistories(s, t, run);
      ConservedSame(s, t, run);
    }
  }

  /** A snapshot takes its run's window out, and strands at most the one add under way. */
  lemma {:induction false} SnapshotEffects(s: State, pick: string, run: string)
    requires PointerInv(s) && CanGo(s, Checker, pick) && TakesSnapshot(s, Go(Checker, pick))
    ensures var t := CheckerStep(s, pick);
      && t.finished == s.finished && t.late == s.late && t.snaps == s.snaps + [NewSnapshot(s)]
      && (run == s.checker.run ==> InWindow(t, run) == multiset{} && InWindow(s, run) == multiset(NewSnapshot(s).hist))
      && (run != s.checker.run ==> InWindow(t, run) == InWindow(s, run))
      && Stranded(t, run) <= Stranded(s, run) + (if run == s.checker.run then 1 else 0)
  {
  }

  /** What a step may do to creation times, map entries and snapshots. */
  ghost predicate Ages(s: State, t: State) {
    && |s.cells| <= |t.cells| && t.now >= s.now && t.durationSecs == s.durationSecs
    && (forall i :: 0 <= i < |s.cells| ==> t.cells[i].window.createdAt == s.cells[i].window.createdAt)
    && (forall r :: r in t.windows ==>
          if r in s.windows then t.windows[r] == s.windows[r]
          else t.windows[r] == |s.cells| < |t.cells| && t.cells[|s.cells|].window.createdAt == s.now)
  }

  lemma {:induction false} AgesStep(s: State, a: Action)
    requires PointerInv(s) && Enabled(s, a)
    ensures Ages(s, Do(s, a))
  {
    if a.Go? {
      match a.thread
      case Adder => AgesByAdder(s);
      case Setter => AgesBySetter(s);
      case Checker => AgesByChecker(s, a.pick);
    }
  }

  lemma {:induction false} AgesByAdder(s: State)
    requires PointerInv(s) && CanGo(s, Adder, "")
    ensures Ages(s, AdderStep(s))
  {
  }

  lemma {:induction false} AgesBySetter(s: State)
    requires PointerInv(s) && CanGo(s, Setter, "")
    ensures Ages(s, SetterStep(s))
  {
  }

  lemma {:induction false} AgesByChecker(s: State, pick: string)
    requires PointerInv(s) && CanGo(s, Checker, pick)
    ensures Ages(s, CheckerStep(s, pick))
  {
  }

  lemma {:induction false} SpacingKept(s: State, a: Action)
    requires PointerInv(s) && LockInv(s) && DataInv(s) && SpacingInv(s) && Enabled(s, a)
    ensures SpacingInv(Do(s, a))
  {
    AgesStep(s, a);
    SnapshotTaken(s, a);
    if TakesSnapshot(s, a) {
      SnapshotIsOld(s);
      SpacingAfterSnapshot(s, Do(s, a));
    } else {
      SpacingSame(s, Do(s, a));
    }
  }

  lemma {:induction false} SnapshotIsOld(s: State)
    requires PointerInv(s) && DataInv(s) && s.checker.CHoldWindow? && CanGo(s, Checker, "")
    requires Complete(NewSnapshot(s).window, s.now)
    ensures s.now - NewSnapshot(s).window.createdAt >= MinAge(s)
  {
    var c := s.windows[s.checker.run];
    assert CellInv(s, c);
    var w, h := s.cells[c].window, s.cells[c].hist;
    RecordAllKeeps(Opened(w.contestantID, FirstSent(w, h), s.durationSecs, w.createdAt), h, "");
  }

  lemma {:induction false} SpacingSame(s: State, t: State)
    requires PointerInv(s) && SpacingInv(s) && Ages(s, t) && t.snaps == s.snaps
    ensures SpacingInv(t)
  {
  }

  lemma {:induction false} SpacingAfterSnapshot(s: State, t: State)
    requires PointerInv(s) && SpacingInv(s) && Ages(s, t)
    requires s.checker.CHoldWindow? && CanGo(s, Checker, "")
    requires s.now - NewSnapshot(s).window.createdAt >= MinAge(s)
    requires t.snaps == s.snaps + [NewSnapshot(s)] && s.checker.run !in t.windows && t.windows.Keys <= s.windows.Keys
    ensures SpacingInv(t)
  {
  }

  lemma {:induction false} ProvenanceKept(s: State, a: Action)
    requires PointerInv(s) && ProvenanceInv(s) && Enabled(s, a)
    ensures ProvenanceInv(Do(s, a))
  {
    if a.Go? {
      match a.thread
      case Adder => ProvenanceByAdder(s);
      case Setter => ProvenanceBySetter(s);
      case Checker => ProvenanceByChecker(s, a.pick);
    }
  }

  lemma {:induction false} ProvenanceByAdder(s: State)
    requires PointerInv(s) && ProvenanceInv(s) && CanGo(s, Adder, "")
    ensures ProvenanceInv(AdderStep(s))
  {
    var t := AdderStep(s);
    forall i | 0 <= i < |t.cells| ensures Announced(t, t.cells[i].run, t.cells[i].window.contestantID) {
      NamesKeptByAdder(s, i);
      if i < |s.cells| { assert Announced(s, s.cells[i].run, s.cells[i].window.contestantID); }
    }
  }

  /** An add names a window only from the stored announcements, when it opens it. */
  lemma {:induction false} NamesKeptByAdder(s: State, i: nat)
    requires PointerInv(s) && CanGo(s, Adder, "") && i < |AdderStep(s).cells|
    ensures var t := AdderStep(s); var c := t.cells[i];
      if i < |s.cells| then c.run == s.cells[i].run && c.window.contestantID == s.cells[i].window.contestantID
      else c.window.contestantID == "" || (c.run in s.contestants && s.contestants[c.run] == c.window.contestantID)
  {
  }

  lemma {:induction false} ProvenanceBySetter(s: State)
    requires PointerInv(s) && ProvenanceInv(s) && CanGo(s, Setter, "")
    ensures ProvenanceInv(SetterStep(s))
  {
    var t := SetterStep(s);
    forall i | 0 <= i < |t.cells| ensures Announced(t, t.cells[i].run, t.cells[i].window.contestantID) {
      assert Announced(s, s.cells[i].run, s.cells[i].window.contestantID);
    }
  }

  lemma {:induction false} ProvenanceByChecker(s: State, pick: string)
    requires PointerInv(s) && ProvenanceInv(s) && CanGo(s, Checker, pick)
    ensures ProvenanceInv(CheckerStep(s, pick))
  {
    var t := CheckerStep(s, pick);
    forall i | 0 <= i < |t.cells| ensures Announced(t, t.cells[i].run, t.cells[i].window.contestantID) {
      assert Announced(s, s.cells[i].run, s.cells[i].window.contestantID);
    }
  }

  lemma {:induction false} AttributionKept(s: State, a: Action)
    requires PointerInv(s) && LockInv(s) && ProvenanceInv(s) && AttributionInv(s) && Enabled(s, a)
    ensures AttributionInv(Do(s, a))
  {
    var t := Do(s, a);
    assert t.returned <= t.announced && s.announced <= t.announced;
    PendingKept(s, a);
    forall run, contestant | (run, contestant) in t.returned && NoSnapshotYet(t, run) && OnlyAnnounced(t, run, contestant)
      ensures InForce(t, run, contestant)
    {
      ForceKept(s, a, run, contestant);
    }
  }

  lemma {:induction false} ForceKept(s: State, a: Action, run: string, contestant: string)
    requires PointerInv(s) && ProvenanceInv(s) && AttributionInv(s) && Enabled(s, a)
    requires (run, contestant) in Do(s, a).returned && NoSnapshotYet(Do(s, a), run) && OnlyAnnounced(Do(s, a), run, contestant)
    ensures InForce(Do(s, a), run, contestant)
  {
    SnapshotsGrow(s, a, run);
    assert s.announced <= Do(s, a).announced;
    assert OnlyAnnounced(s, run, contestant);
    if a.Go? {
      match a.thread
      case Adder => ForceByAdder(s, run, contestant);
      case Setter => ForceBySetter(s, run, contestant);
      case Checker => ForceByChecker(s, a.pick, run, contestant);
    }
  }

  lemma {:induction false} PendingKept(s: State, a: Action)
    requires PointerInv(s) && PendingInv(s) && Enabled(s, a)
    ensures PendingInv(Do(s, a))
  {
    var t := Do(s, a);
    if (t.setter.SWaitWindow? || t.setter.SHoldWindow?) && NoSnapshotYet(t, t.setter.run) {
      SnapshotsGrow(s, a, t.setter.run);
      if a.Go? {
        match a.thread
        case Adder => PendingKeptByAdder(s);
        case Setter => PendingKeptBySetter(s);
        case Checker => PendingKeptByChecker(s, a.pick);
      }
    }
  }

  lemma {:induction false} PendingKeptByAdder(s: State)
    requires PointerInv(s) && PendingInv(s) && CanGo(s, Adder, "")
    ensures PendingInv(AdderStep(s))
  {
  }

  lemma {:induction false} PendingKeptBySetter(s: State)
    requires PointerInv(s) && PendingInv(s) && CanGo(s, Setter, "")
    ensures PendingInv(SetterStep(s))
  {
  }

  lemma {:induction false} PendingKeptByChecker(s: State, pick: string)
    requires PointerInv(s) && PendingInv(s) && CanGo(s, Checker, pick) && !s.setter.SIdle?
    requires NoSnapshotYet(CheckerStep(s, pick), s.setter.run) && NoSnapshotYet(s, s.setter.run)
    ensures PendingInv(CheckerStep(s, pick))
  {
    if TakesSnapshot(s, Go(Checker, pick)) {
      assert CheckerStep(s, pick).snaps[|s.snaps|].run == s.checker.run;
    }
  }

  lemma {:induction false} SnapshotsGrow(s: State, a: Action, run: string)
    requires Enabled(s, a) && NoSnapshotYet(Do(s, a), run)
    ensures NoSnapshotYet(s, run)
  {
    var t := Do(s, a);
    assert |s.snaps| <= |t.snaps| && t.snaps[..|s.snaps|] == s.snaps;
    forall k | 0 <= k < |s.snaps| ensures s.snaps[k].run != run {
      assert t.snaps[k] == s.snaps[k];
    }
  }

  lemma {:induction false} ForceByAdder(s: State, run: string, contestant: string)
    requires PointerInv(s) && CanGo(s, Adder, "") && InForce(s, run, contestant)
    ensures InForce(AdderStep(s), run, contestant)
  {
  }

  lemma {:induction false} ForceBySetter(s: State, run: string, contestant: string)
    requires PointerInv(s) && ProvenanceInv(s) && AttributionInv(s) && CanGo(s, Setter, "")
    requires NoSnapshotYet(s, run) && OnlyAnnounced(s, run, contestant)
    requires (run, contestant) in SetterStep(s).returned
    ensures InForce(SetterStep(s), run, contestant)
  {
  }

  lemma {:induction false} ForceByChecker(s: State, pick: string, run: string, contestant: string)
    requires PointerInv(s) && CanGo(s, Checker, pick) && InForce(s, run, contestant)
    requires NoSnapshotYet(CheckerStep(s, pick), run)
    ensures InForce(CheckerStep(s, pick), run, contestant)
  {
    if TakesSnapshot(s, Go(Checker, pick)) {
      assert CheckerStep(s, pick).snaps[|s.snaps|].run == s.checker.run;
    }
  }

  // ---------- every reachable state ----------

  lemma {:induction false} StepKeepsInv(s: State, a: Action)
    requires Inv(s) && Enabled(s, a)
    ensures Inv(Do(s, a))
  {
    PointersKept(s, a);
    LocksKept(s, a);
    DataKept(s, a);
    forall run ensures ConservedFor(Do(s, a), run) {
      ConservationKept(s, a, run);
    }
    SpacingKept(s, a);
    ProvenanceKept(s, a);
    AttributionKept(s, a);
  }

  lemma {:induction false} ExecKeepsInv(s: State, acts: seq<Action>)
    requires Inv(s) && Legal(s, acts)
    ensures Inv(Exec(s, acts))
    decreases |acts|
  {
    if acts != [] {
      StepKeepsInv(s, acts[0]);
      ExecKeepsInv(Do(s, acts[0]), acts[1..]);
    }
  }

  lemma ReachableInv(s: State)
    requires Reachable(s)
    ensures Inv(s)
  {
    var durationSecs, now, acts :| Legal(Init(durationSecs, now), acts) && s == Exec(Init(durationSecs, now), acts);
    InitInv(durationSecs, now);
    ExecKeepsInv(Init(durationSecs, now), acts);
  }

  /** Some thread is inside an operation. */
  predicate Busy(s: State) {
    !s.adder.AIdle? || !s.setter.SIdle? || !s.checker.CIdle?
  }

  /** The runs whose windows a check under way has still to look at. */
  function Remaining(s: State): set<string> {
    match s.checker
    case CIdle => {}
    case CWaitManager => s.windows.Keys
    case CScan(todo) => todo
    case CWaitWindow(r, todo) => todo + {r}
    case CHoldWindow(r, todo) => todo + {r}
  }

  lemma OneOfThree(o: Owner)
    ensures o == Nobody || o == Held(Adder) || o == Held(Setter) || o == Held(Checker)
  {
    if o.Held? {
      match o.holder
      case Adder =>
      case Setter =>
      case Checker =>
    }
  }
}
