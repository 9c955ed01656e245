/**
 The life of the telemetry channels (apps/bots/internal/consumer/kafka.go:95-114,
 orchestrator.go:32-69, publisher/kafka.go:38-58): runs are admitted through a
 semaphore; each has a bounded channel its workers fill, which is closed when
 the last worker is done and which the publisher drains.
 */
module TelemetryChannel {

  const CHANNEL_CAPACITY := 1000

  /**
   A worker's place in its loop. It waits for one of the ticks left before the end
   time, holds the event of an order it sent until the channel takes it, or is done.
   */
  datatype Worker = Ticking(ticksLeft: nat) | Holding(event: Event, ticksLeft: nat) | Done

  /** The telemetry of one order, with the bot that sent it. */
  datatype Event = Event(bot: nat, payload: string)

  /** The run goroutine: the handler waits for the workers, then the channel is closed, then the slot freed. */
  datatype Stage = Running | Returned | Closed | Released

  /** `waitGroup` counts the workers that have not called `Done`; `plan` records how many ticks each had at the start. */
  datatype Run = Run(plan: seq<nat>, workers: seq<Worker>, waitGroup: nat, stage: Stage, buffer: seq<Event>, sent: seq<Event>,
                     consumed: seq<Event>, closes: nat, published: bool)

  datatype State = State(maxConcurrent: nat, runs: map<nat, Run>, slots: nat, cancelled: bool)

  function Init(maxConcurrent: nat): State {
    State(maxConcurrent, map[], 0, false)
  }

  /** A step of one run: of a worker, of the run's goroutine or of its publisher. */
  datatype Move =
    | Tick(w: nat, payload: string) // the worker sends an order and gets its telemetry
    | Send(w: nat)
    | WorkerEnds(w: nat)       // its next tick is past the end time
    | WorkerCancelled(w: nat)
    | HandlerReturns           // the wait group reached zero
    | CloseChannel
    | FreeSlot
    | Take                     // the publisher's loop receives one event
    | PublisherExits           // it saw the channel closed and empty

  datatype Action =
    | Cancel                         // the service's context ends
    | Admit(r: nat, ticks: seq<nat>) // the semaphore has a free slot; one worker per entry
    | Go(r: nat, m: Move)

  predicate Enabled(s: State, a: Action) {
    match a
    case Cancel => true
    case Admit(r, _) => r !in s.runs && s.slots < s.maxConcurrent
    case Go(r, m) => r in s.runs && CanMove(s.runs[r], s.cancelled, m)
  }

  predicate CanMove(run: Run, cancelled: bool, m: Move) {
    match m
    case Tick(w, _) => w < |run.workers| && run.workers[w].Ticking? && run.workers[w].ticksLeft > 0
    case Send(w) => w < |run.workers| && run.workers[w].Holding? && |run.buffer| < CHANNEL_CAPACITY
    case WorkerEnds(w) => w < |run.workers| && run.workers[w] == Ticking(0)
    case WorkerCancelled(w) => cancelled && w < |run.workers| && run.workers[w] != Done
    case HandlerReturns => run.stage == Running && run.waitGroup == 0
    case CloseChannel => run.stage == Returned
    case FreeSlot => run.stage == Closed
    case Take => !run.published && run.buffer != []
    case PublisherExits => !run.published && run.closes > 0 && run.buffer == []
  }

  function Do(s: State, a: Action): State
    requires Enabled(s, a)
  {
    match a
    case Cancel => s.(cancelled := true)
    case Admit(r, ticks) =>
      s.(runs := s.runs[r := Run(ticks, Started(ticks), |ticks|, Running, [], [], [], 0, false)], slots := s.slots + 1)
    case Go(r, m) =>
      s.(runs := s.runs[r := Moved(s.runs[r], s.cancelled, m)],
         slots := if m == FreeSlot && s.slots > 0 then s.slots - 1 else s.slots)
  }

  function Started(ticks: seq<nat>): seq<Worker> {
    seq(|ticks|, i requires 0 <= i < |ticks| => Ticking(ticks[i]))
  }

  function Moved(run: Run, cancelled: bool, m: Move): Run
    requires CanMove(run, cancelled, m)
  {
    match m
    case Tick(w, payload) => run.(workers := run.workers[w := Holding(Event(w, payload), run.workers[w].ticksLeft - 1)])
    case Send(w) =>
      run.(workers := run.workers[w := Ticking(run.workers[w].ticksLeft)],
           buffer := run.buffer + [run.workers[w].event], sent := run.sent + [run.workers[w].event])
    case WorkerEnds(w) => Leave(run, w)
    case WorkerCancelled(w) => Leave(run, w)
    case HandlerReturns => run.(stage := Returned)
    case CloseChannel => run.(stage := Closed, closes := run.closes + 1)
    case FreeSlot => run.(stage := Released)
    case Take => run.(buffer := run.buffer[1..], consumed := run.consumed + [run.buffer[0]])
    case PublisherExits => run.(published := true)
  }

  /** The worker returns, which counts the wait group down. */
  function Leave(run: Run, w: nat): Run
    requires w < |run.workers|
  {
    run.(workers := run.workers[w := Done], waitGroup := if run.waitGroup > 0 then run.waitGroup - 1 else 0)
  }

  predicate Legal(s: State, acts: seq<Action>)
    decreases |acts|
  {
    acts == [] || (Enabled(s, acts[0]) && Legal(Do(s, acts[0]), acts[1..]))
  }

  function Exec(s: State, acts: seq<Action>): State
    requires Legal(s, acts)
    decreases |acts|
  {
    if acts == [] then s else Exec(Do(s, acts[0]), acts[1..])
  }

  ghost predicate Reachable(s: State) {
    exists maxConcurrent: nat, acts: seq<Action> ::
      Legal(Init(maxConcurrent), acts) && s == Exec(Init(maxConcurrent), acts)
  }

  // ---------- invariants ----------

  function Active(workers: seq<Worker>): nat {
    if workers == [] then 0 else (if workers[0] == Done then 0 else 1) + Active(workers[1..])
  }

  lemma {:induction false} ActiveUpdate(workers: seq<Worker>, w: nat, x: Worker)
    requires w < |workers|
    ensures Active(workers[w := x]) ==
            Active(workers) - (if workers[w] == Done then 0 else 1) + (if x == Done then 0 else 1)
  {
    var after := workers[w := x];
    if w == 0 {
      assert after[1..] == workers[1..];
    } else {
      ActiveUpdate(workers[1..], w - 1, x);
      assert after[1..] == workers[1..][w - 1 := x];
    }
  }

  lemma {:induction false} NoneActive(workers: seq<Worker>)
    ensures Active(workers) == 0 <==> forall w :: 0 <= w < |workers| ==> workers[w] == Done
  {
    if workers != [] {
      NoneActive(workers[1..]);
      assert forall w :: 1 <= w < |workers| ==> workers[w] == workers[1..][w - 1];
      assert forall w :: 0 <= w < |workers| - 1 ==> workers[1..][w] == workers[w + 1];
    }
  }

  lemma {:induction false} AllActive(ticks: seq<nat>)
    ensures Active(Started(ticks)) == |ticks|
  {
    if ticks != [] {
      AllActive(ticks[1..]);
      assert Started(ticks)[1..] == Started(ticks[1..]);
    }
  }

  predicate RunInv(run: Run) {
    && run.consumed + run.buffer == run.sent
    && |run.buffer| <= CHANNEL_CAPACITY
    && run.waitGroup == Active(run.workers) && |run.plan| == |run.workers|
    && (forall w :: 0 <= w < |run.workers| && run.workers[w].Holding? ==> run.workers[w].event.bot == w)
    && (run.stage != Running ==> run.waitGroup == 0)
    && run.closes == (if run.stage == Closed || run.stage == Released then 1 else 0)
    && (run.published ==> run.closes == 1 && run.buffer == [])
  }

  function InFlight(s: State): set<nat> {
    set r | r in s.runs && s.runs[r].stage != Released
  }

  ghost predicate Inv(s: State) {
    && (forall r :: r in s.runs ==> RunInv(s.runs[r]))
    && s.slots == |InFlight(s)| <= s.maxConcurrent
  }

  lemma {:induction false} RunKept(run: Run, cancelled: bool, m: Move)
    requires RunInv(run) && CanMove(run, cancelled, m)
    ensures RunInv(Moved(run, cancelled, m))
  {
    NoneActive(run.workers);
    match m
    case Tick(w, p) => ActiveUpdate(run.workers, w, Holding(Event(w, p), run.workers[w].ticksLeft - 1));
    case Send(w) => ActiveUpdate(run.workers, w, Ticking(run.workers[w].ticksLeft));
    case WorkerEnds(w) => ActiveUpdate(run.workers, w, Done);
    case WorkerCancelled(w) => ActiveUpdate(run.workers, w, Done);
    case Take => assert run.buffer == [run.buffer[0]] + run.buffer[1..];
    case _ =>
  }

  lemma {:induction false} StageOf(run: Run, cancelled: bool, m: Move)
    requires CanMove(run, cancelled, m)
    ensures Moved(run, cancelled, m).stage == Released <==> m == FreeSlot || run.stage == Released
    ensures m == FreeSlot ==> run.stage != Released
  {
  }

  lemma {:induction false} InFlightAfter(s: State, r: nat, run: Run)
    requires r in s.runs && (s.runs[r].stage == Released ==> run.stage == Released)
    ensures |InFlight(s.(runs := s.runs[r := run]))| ==
            |InFlight(s)| - (if s.runs[r].stage != Released && run.stage == Released then 1 else 0)
  {
    var t := s.(runs := s.runs[r := run]);
    if s.runs[r].stage != Released && run.stage == Released {
      assert r in InFlight(s) && InFlight(t) == InFlight(s) - {r};
    } else {
      assert InFlight(t) == InFlight(s);
    }
  }

  lemma {:induction false} SlotsKept(s: State, a: Action)
    requires Enabled(s, a) && s.slots == |InFlight(s)| <= s.maxConcurrent
    ensures Do(s, a).slots == |InFlight(Do(s, a))| <= Do(s, a).maxConcurrent
  {
    var t := Do(s, a);
    match a
    case Cancel => assert InFlight(t) == InFlight(s);
    case Admit(r, _) => assert InFlight(t) == InFlight(s) + {r};
    case Go(r, m) =>
      StageOf(s.runs[r], s.cancelled, m);
      InFlightAfter(s, r, Moved(s.runs[r], s.cancelled, m));
      assert InFlight(t) == InFlight(s.(runs := s.runs[r := Moved(s.runs[r], s.cancelled, m)]));
  }

  lemma {:induction false} StepKeepsInv(s: State, a: Action)
    requires Inv(s) && Enabled(s, a)
    ensures Inv(Do(s, a))
  {
    match a {
      case Cancel =>
      case Admit(_, ticks) => AllActive(ticks);
      case Go(r, m) => RunKept(s.runs[r], s.cancelled, m);
    }
    SlotsKept(s, a);
  }

  lemma {:induction false} ExecKeepsInv(s: State, acts: seq<Action>)
    requires Inv(s) && Legal(s, acts)
    ensures Inv(Exec(s, acts))
    decreases |acts|
  {
    if acts != [] {
      StepKeepsInv(s, acts[0]);
      ExecKeepsInv(Do(s, acts[0]), acts[1..]);
    }
  }

  lemma ReachableInv(s: State)
    requires Reachable(s)
    ensures Inv(s)
  {
    var maxConcurrent, acts :| Legal(Init(maxConcurrent), acts) && s == Exec(Init(maxConcurrent), acts);
    assert InFlight(Init(maxConcurrent)) == {};
    ExecKeepsInv(Init(maxConcurrent), acts);
  }

  // ---------- safety ----------

  /** At most `maxConcurrent` runs are in flight, and their slots are never miscounted. */
  lemma ConcurrencyBounded(s: State)
    requires Reachable(s)
    ensures |InFlight(s)| == s.slots <= s.maxConcurrent
  {
    ReachableInv(s);
  }

  /**
   A channel is closed at most once, and never while a worker may still reach a
   send on it: every worker of a closed channel is done.
   */
  lemma NoSendAfterClose(s: State, r: nat)
    requires Reachable(s) && r in s.runs
    ensures s.runs[r].closes <= 1
    ensures s.runs[r].closes == 1 ==> forall w :: 0 <= w < |s.runs[r].workers| ==> s.runs[r].workers[w] == Done
  {
    ReachableInv(s);
    assert RunInv(s.runs[r]);
    NoneActive(s.runs[r].workers);
  }

  /**
   The publisher has consumed a prefix of what was sent, at most a channel behind,
   and everything once its loop ends, after which nothing more is ever sent.
   */
  lemma PublisherDrainsAll(s: State, r: nat)
    requires Reachable(s) && r in s.runs
    ensures s.runs[r].consumed <= s.runs[r].sent && |s.runs[r].sent| <= |s.runs[r].consumed| + 1000
    ensures s.runs[r].published ==>
      s.runs[r].consumed == s.runs[r].sent && forall w: nat :: !Enabled(s, Go(r, Send(w)))
    ensures forall w: nat :: Enabled(s, Go(r, Send(w))) <==>
      && w < |s.runs[r].workers| && s.runs[r].workers[w].Holding?
      && |s.runs[r].sent| < |s.runs[r].consumed| + 1000
  {
    ReachableInv(s);
    assert RunInv(s.runs[r]);
    NoneActive(s.runs[r].workers);
  }

  // ---------- progress ----------

  /** The run is over: its channel is drained and its slot is free. */
  predicate Over(run: Run) {
    run.published && run.stage == Released
  }

  /**
   A run that is not over can step without being cancelled. In particular workers
   blocked on a full channel do not block the publisher that empties it.
   */
  lemma RunNeverStuck(s: State, r: nat) returns (m: Move)
    requires Reachable(s) && r in s.runs && !Over(s.runs[r])
    ensures Enabled(s, Go(r, m)) && !m.WorkerCancelled?
  {
    ReachableInv(s);
    m := NextMove(s.runs[r], s.cancelled);
  }

  lemma {:induction false} NextMove(run: Run, cancelled: bool) returns (m: Move)
    requires RunInv(run) && !Over(run)
    ensures CanMove(run, cancelled, m) && !m.WorkerCancelled?
  {
    NoneActive(run.workers);
    if run.stage == Running && run.waitGroup > 0 {
      var w :| 0 <= w < |run.workers| && run.workers[w] != Done;
      match run.workers[w]
      case Ticking(left) => m := if left > 0 then Tick(w, "") else WorkerEnds(w);
      case Holding(_, _) => m := if |run.buffer| < CHANNEL_CAPACITY then Send(w) else Take;
    } else {
      match run.stage
      case Running => m := HandlerReturns;
      case Returned => m := CloseChannel;
      case Closed => m := FreeSlot;
      case Released => m := if run.buffer != [] then Take else PublisherExits;
    }
  }

  /** Once the service is cancelled every worker can leave at any time, even one blocked on a full channel. */
  lemma {:induction false} CancelFreesWorkers(s: State, acts: seq<Action>, r: nat, w: nat)
    requires Legal(Do(s, Cancel), acts)
    ensures var t := Exec(Do(s, Cancel), acts);
      r in t.runs && w < |t.runs[r].workers| && t.runs[r].workers[w] != Done ==> Enabled(t, Go(r, WorkerCancelled(w)))
  {
    StaysCancelled(Do(s, Cancel), acts);
  }

  lemma {:induction false} StaysCancelled(s: State, acts: seq<Action>)
    requires s.cancelled && Legal(s, acts)
    ensures Exec(s, acts).cancelled
    decreases |acts|
  {
    if acts != [] {
      StaysCancelled(Do(s, acts[0]), acts[1..]);
    }
  }

  function WorkerWork(w: Worker): nat {
    match w
    case Ticking(left) => 3 * left + 1
    case Holding(_, left) => 3 * left + 3
    case Done => 0
  }

  function WorkersWork(workers: seq<Worker>): nat {
    if workers == [] then 0 else WorkerWork(workers[0]) + WorkersWork(workers[1..])
  }

  /** An upper bound on the steps a run has left. */
  function Work(run: Run): nat {
    WorkersWork(run.workers) + |run.buffer| + (if run.published then 0 else 1) +
    (match run.stage case Running => 3 case Returned => 2 case Closed => 1 case Released => 0)
  }

  lemma {:induction false} WorkUpdate(workers: seq<Worker>, w: nat, x: Worker)
    requires w < |workers|
    ensures WorkersWork(workers[w := x]) == WorkersWork(workers) - WorkerWork(workers[w]) + WorkerWork(x)
  {
    var after := workers[w := x];
    if w == 0 {
      assert after[1..] == workers[1..];
    } else {
      WorkUpdate(workers[1..], w - 1, x);
      assert after[1..] == workers[1..][w - 1 := x];
    }
  }

  lemma {:induction false} WorkDecreases(run: Run, cancelled: bool, m: Move)
    requires CanMove(run, cancelled, m)
    ensures Work(Moved(run, cancelled, m)) < Work(run)
  {
    match m
    case Tick(w, p) => WorkUpdate(run.workers, w, Holding(Event(w, p), run.workers[w].ticksLeft - 1));
    case Send(w) => WorkUpdate(run.workers, w, Ticking(run.workers[w].ticksLeft));
    case WorkerEnds(w) => WorkUpdate(run.workers, w, Done);
    case WorkerCancelled(w) => WorkUpdate(run.workers, w, Done);
    case _ =>
  }

  /** How many of the steps belong to run `r`. */
  function StepsOf(acts: seq<Action>, r: nat): nat {
    if acts == [] then 0 else (if acts[0].Go? && acts[0].r == r then 1 else 0) + StepsOf(acts[1..], r)
  }

  /**
   Every run ends. However other runs interleave with it, it takes at most `Work`
   more steps, and when none of its steps but cancellation is left its slot is
   free and the publisher has consumed everything that was sent.
   */
  lemma RunEnds(s: State, acts: seq<Action>, r: nat)
    requires Reachable(s) && r in s.runs && Legal(s, acts)
    ensures StepsOf(acts, r) <= Work(s.runs[r])
    ensures r in Exec(s, acts).runs
    ensures (forall m: Move :: Enabled(Exec(s, acts), Go(r, m)) ==> m.WorkerCancelled?) ==>
      Over(Exec(s, acts).runs[r]) && Exec(s, acts).runs[r].consumed == Exec(s, acts).runs[r].sent
  {
    ReachableInv(s);
    StepsBounded(s, acts, r);
    ExecKeepsInv(s, acts);
    var t := Exec(s, acts);
    assert RunInv(t.runs[r]);
    if !Over(t.runs[r]) {
      var m := NextMove(t.runs[r], t.cancelled);
      assert Enabled(t, Go(r, m));
    }
  }

  lemma {:induction false} StepsBounded(s: State, acts: seq<Action>, r: nat)
    requires r in s.runs && Legal(s, acts)
    ensures r in Exec(s, acts).runs
    ensures StepsOf(acts, r) + Work(Exec(s, acts).runs[r]) <= Work(s.runs[r])
    decreases |acts|
  {
    if acts != [] {
      var a := acts[0];
      if a.Go? && a.r == r {
        WorkDecreases(s.runs[r], s.cancelled, a.m);
      }
      StepsBounded(Do(s, a), acts[1..], r);
    }
  }

  // ---------- every order's telemetry reaches the publisher ----------

  /** The events of the orders the run's workers sent, read off the moves. */
  function Ticked(acts: seq<Action>, r: nat): seq<Event> {
    if acts == [] then [] else TickedIn(acts[0], r) + Ticked(acts[1..], r)
  }

  function TickedIn(a: Action, r: nat): seq<Event> {
    if a.Go? && a.r == r && a.m.Tick? then [Event(a.m.w, a.m.payload)] else []
  }

  /** One bot's events, in order. */
  function FromBot(es: seq<Event>, w: nat): seq<Event> {
    if es == [] then [] else (if es[0].bot == w then [es[0]] else []) + FromBot(es[1..], w)
  }

  lemma {:induction false} FromBotConcat(a: seq<Event>, b: seq<Event>, w: nat)
    ensures FromBot(a + b, w) == FromBot(a, w) + FromBot(b, w)
  {
    if a == [] {
      assert a + b == b;
    } else {
      FromBotConcat(a[1..], b, w);
      assert a + b == [a[0]] + (a[1..] + b);
      Regroup(if a[0].bot == w then [a[0]] else [], FromBot(a[1..], w), FromBot(b, w));
    }
  }

  lemma Regroup(a: seq<Event>, b: seq<Event>, c: seq<Event>)
    ensures a + (b + c) == (a + b) + c
  {
  }

  function HeldIn(run: Run, w: nat): seq<Event> {
    if w < |run.workers| && run.workers[w].Holding? then [run.workers[w].event] else []
  }

  /** The events a worker has passed on, which went through the channel or are in it, and the one it holds. */
  function SentIn(run: Run, w: nat): seq<Event> {
    FromBot(run.consumed + run.buffer, w) + HeldIn(run, w)
  }

  function SentBy(s: State, r: nat, w: nat): seq<Event> {
    if r in s.runs then SentIn(s.runs[r], w) else []
  }

  /** What the worker still held when it was cancelled. */
  function LostBy(s: State, acts: seq<Action>, r: nat, w: nat): seq<Event>
    requires Legal(s, acts)
    decreases |acts|
  {
    if acts == [] then [] else LostIn(s, acts[0], r, w) + LostBy(Do(s, acts[0]), acts[1..], r, w)
  }

  function LostIn(s: State, a: Action, r: nat, w: nat): seq<Event> {
    if r in s.runs && a == Go(r, WorkerCancelled(w)) then HeldIn(s.runs[r], w) else []
  }

  ghost predicate IsDone(s: State, r: nat, w: nat) {
    r in s.runs && w < |s.runs[r].workers| && s.runs[r].workers[w] == Done
  }

  /** A worker that is done sends nothing more. */
  lemma {:induction false} DoneStays(s: State, acts: seq<Action>, r: nat, w: nat)
    requires IsDone(s, r, w) && Legal(s, acts)
    ensures FromBot(Ticked(acts, r), w) == [] && LostBy(s, acts, r, w) == []
    decreases |acts|
  {
    if acts != [] {
      DoneStays(Do(s, acts[0]), acts[1..], r, w);
      FromBotConcat(TickedIn(acts[0], r), Ticked(acts[1..], r), w);
    }
  }

  /** What one step does to a worker's events: takes a new one, passes one on, or loses one. */
  lemma {:induction false} OrderStep(s: State, a: Action, r: nat, w: nat)
    requires Inv(s) && Enabled(s, a)
    ensures SentBy(Do(s, a), r, w) + LostIn(s, a, r, w) == SentBy(s, r, w) + FromBot(TickedIn(a, r), w)
  {
    if a.Go? && a.r == r {
      assert RunInv(s.runs[r]);
      MoveStep(s.runs[r], s.cancelled, a.m, w);
    }
  }

  lemma {:induction false} MoveStep(run: Run, cancelled: bool, m: Move, w: nat)
    requires RunInv(run) && CanMove(run, cancelled, m)
    ensures SentIn(Moved(run, cancelled, m), w) + (if m == WorkerCancelled(w) then HeldIn(run, w) else []) ==
            SentIn(run, w) + (if m.Tick? && m.w == w then [Event(w, m.payload)] else [])
  {
    ChannelStep(run, cancelled, m);
    HandStep(run, cancelled, m, w);
    var channel := run.consumed + run.buffer;
    if m.Send? {
      var e := run.workers[m.w].event;
      FromBotConcat(channel, [e], w);
      assert FromBot([e], w) == if e.bot == w then [e] else [];
    } else {
      assert channel + [] == channel;
    }
  }

  /** Only a send adds to what went through the channel or is in it. */
  lemma {:induction false} ChannelStep(run: Run, cancelled: bool, m: Move)
    requires CanMove(run, cancelled, m)
    ensures var after := Moved(run, cancelled, m);
      after.consumed + after.buffer == run.consumed + run.buffer + (if m.Send? then [run.workers[m.w].event] else [])
  {
    if m.Take? {
      assert (run.consumed + [run.buffer[0]]) + run.buffer[1..] == run.consumed + run.buffer;
    }
  }

  /** What a worker has in hand changes only by its own tick, send or cancellation. */
  lemma {:induction false} HandStep(run: Run, cancelled: bool, m: Move, w: nat)
    requires CanMove(run, cancelled, m)
    ensures var before, after := HeldIn(run, w), HeldIn(Moved(run, cancelled, m), w);
      if m.Tick? && m.w == w then before == [] && after == [Event(w, m.payload)]
      else if m == Send(w) || m == WorkerCancelled(w) then after == []
      else after == before
  {
  }

  /**
   Along every run, and for every worker: the events of the orders it sent are those
   that went into the channel, then the one it holds or lost when it was cancelled,
   in the order it sent them.
   */
  lemma {:induction false} OrdersKept(s: State, acts: seq<Action>, r: nat, w: nat)
    requires Inv(s) && Legal(s, acts)
    ensures SentBy(Exec(s, acts), r, w) + LostBy(s, acts, r, w) == SentBy(s, r, w) + FromBot(Ticked(acts, r), w)
    decreases |acts|
  {
    if acts != [] {
      var a, u := acts[0], Do(s, acts[0]);
      assert Inv(u) by { StepKeepsInv(s, a); }
      OrdersKept(u, acts[1..], r, w);
      OrderStep(s, a, r, w);
      FromBotConcat(TickedIn(a, r), Ticked(acts[1..], r), w);
      if a == Go(r, WorkerCancelled(w)) {
        DoneStays(u, acts[1..], r, w);
        Lasts(SentBy(Exec(s, acts), r, w), SentBy(u, r, w), LostIn(s, a, r, w), SentBy(s, r, w));
      } else {
        Chain(SentBy(Exec(s, acts), r, w), LostBy(u, acts[1..], r, w), SentBy(u, r, w), SentBy(s, r, w),
              FromBot(TickedIn(a, r), w), FromBot(Ticked(acts[1..], r), w));
      }
    }
  }

  lemma Chain(t: seq<Event>, lost: seq<Event>, u: seq<Event>, s: seq<Event>, x: seq<Event>, y: seq<Event>)
    requires t + lost == u + y && u + [] == s + x
    ensures t + ([] + lost) == s + (x + y)
  {
    assert [] + lost == lost && u + [] == u;
    assert s + (x + y) == (s + x) + y;
  }

  lemma Lasts(t: seq<Event>, u: seq<Event>, lost: seq<Event>, s: seq<Event>)
    requires t + [] == u + [] && u + lost == s + []
    ensures t + (lost + []) == s + ([] + [])
  {
    assert t == t + [] && u == u + [] && s == s + [] && lost + [] == lost;
  }

  lemma OrdersAccountedFor(maxConcurrent: nat, acts: seq<Action>, r: nat, w: nat)
    requires Legal(Init(maxConcurrent), acts)
    ensures SentBy(Exec(Init(maxConcurrent), acts), r, w) + LostBy(Init(maxConcurrent), acts, r, w) == FromBot(Ticked(acts, r), w)
  {
    assert InFlight(Init(maxConcurrent)) == {};
    assert SentBy(Init(maxConcurrent), r, w) == [];
    OrdersKept(Init(maxConcurrent), acts, r, w);
  }

  lemma {:induction false} NothingLost(s: State, acts: seq<Action>, r: nat, w: nat)
    requires !s.cancelled && Legal(s, acts) && Cancel !in acts
    ensures LostBy(s, acts, r, w) == [] && !Exec(s, acts).cancelled
    decreases |acts|
  {
    if acts != [] {
      NothingLost(Do(s, acts[0]), acts[1..], r, w);
    }
  }

  function TicksLeft(s: State, r: nat, w: nat): nat
    requires r in s.runs
  {
    if w < |s.runs[r].workers| && s.runs[r].workers[w] != Done then s.runs[r].workers[w].ticksLeft else 0
  }

  /** Without cancellation a worker acts on every tick it has left. */
  lemma {:induction false} TicksUsed(s: State, acts: seq<Action>, r: nat, w: nat)
    requires r in s.runs && !s.cancelled && Legal(s, acts) && Cancel !in acts
    ensures r in Exec(s, acts).runs && Exec(s, acts).runs[r].plan == s.runs[r].plan
    ensures TicksLeft(Exec(s, acts), r, w) + |FromBot(Ticked(acts, r), w)| == TicksLeft(s, r, w)
    ensures forall ticks :: Admit(r, ticks) !in acts
    decreases |acts|
  {
    if acts != [] {
      TicksStep(s, acts[0], r, w);
      TicksUsed(Do(s, acts[0]), acts[1..], r, w);
      FromBotConcat(TickedIn(acts[0], r), Ticked(acts[1..], r), w);
    }
  }

  lemma {:induction false} TicksStep(s: State, a: Action, r: nat, w: nat)
    requires r in s.runs && !s.cancelled && Enabled(s, a) && a != Cancel
    ensures var t := Do(s, a);
      && r in t.runs && !t.cancelled && t.runs[r].plan == s.runs[r].plan
      && TicksLeft(t, r, w) + |FromBot(TickedIn(a, r), w)| == TicksLeft(s, r, w)
      && !(a.Admit? && a.r == r)
  {
  }

  lemma {:induction false} TicksPlanned(s: State, acts: seq<Action>, r: nat, ticks: seq<nat>, w: nat)
    requires !s.cancelled && Legal(s, acts) && Cancel !in acts && Admit(r, ticks) in acts && w < |ticks|
    requires r !in s.runs
    ensures r in Exec(s, acts).runs && Exec(s, acts).runs[r].plan == ticks
    ensures TicksLeft(Exec(s, acts), r, w) + |FromBot(Ticked(acts, r), w)| == ticks[w]
    decreases |acts|
  {
    var u := Do(s, acts[0]);
    FromBotConcat(TickedIn(acts[0], r), Ticked(acts[1..], r), w);
    if acts[0].Admit? && acts[0].r == r {
      TicksUsed(u, acts[1..], r, w);
      assert acts[0] == Admit(r, ticks);
    } else {
      TicksPlanned(u, acts[1..], r, ticks, w);
    }
  }

  lemma {:induction false} CountFromBot(es: seq<Event>, e: Event)
    ensures multiset(es)[e] == multiset(FromBot(es, e.bot))[e]
  {
    if es != [] {
      CountFromBot(es[1..], e);
      assert es == [es[0]] + es[1..];
    }
  }

  /** Sequences with the same events from each bot have the same events. */
  lemma {:induction false} SameFromEachBot(a: seq<Event>, b: seq<Event>)
    requires forall w: nat :: FromBot(a, w) == FromBot(b, w)
    ensures multiset(a) == multiset(b)
  {
    forall e: Event ensures multiset(a)[e] == multiset(b)[e] {
      CountFromBot(a, e);
      CountFromBot(b, e);
    }
  }

  /**
   A run that was not cancelled and is over has published the telemetry of every
   order its workers sent, once each and for each worker in order; and each worker
   sent one order for each of its ticks.
   */
  lemma OverRunPublishedAll(maxConcurrent: nat, acts: seq<Action>, r: nat, ticks: seq<nat>)
    requires Legal(Init(maxConcurrent), acts) && Cancel !in acts && Admit(r, ticks) in acts
    requires r in Exec(Init(maxConcurrent), acts).runs && Over(Exec(Init(maxConcurrent), acts).runs[r])
    ensures var run := Exec(Init(maxConcurrent), acts).runs[r];
      && multiset(run.consumed) == multiset(Ticked(acts, r))
      && (forall w: nat :: FromBot(run.consumed, w) == FromBot(Ticked(acts, r), w))
      && (forall w: nat :: w < |ticks| ==> |FromBot(run.consumed, w)| == ticks[w])
  {
    var s0 := Init(maxConcurrent);
    var t := Exec(s0, acts);
    var run := t.runs[r];
    assert InFlight(s0) == {};
    ExecKeepsInv(s0, acts);
    assert RunInv(run);
    NoneActive(run.workers);
    assert run.consumed + run.buffer == run.consumed;
    forall w: nat ensures FromBot(run.consumed, w) == FromBot(Ticked(acts, r), w) {
      OrdersAccountedFor(maxConcurrent, acts, r, w);
      NothingLost(s0, acts, r, w);
      assert HeldIn(run, w) == [];
    }
    SameFromEachBot(run.consumed, Ticked(acts, r));
    forall w: nat | w < |ticks| ensures |FromBot(run.consumed, w)| == ticks[w] {
      TicksPlanned(s0, acts, r, ticks, w);
    }
  }
}
