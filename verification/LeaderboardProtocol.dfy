/**
 The live leaderboard end to end: the consumer
 (apps/leaderboard/internal/consumer/kafka.go:81-96), the hub's event loop
 (internal/hub/hub.go:49-82) and, per client, the handler with its writer and
 reader goroutines (cmd/main.go:98-148).
 */
module LeaderboardProtocol {
  import opened Boards
  import opened ClientView
  import opened Convergence
  import opened Hubs

  const BROADCAST_CAPACITY := 256

  /** How far the handler is with the snapshot. Positions count the board updates seen. */
  datatype Phase =
    | Joined
    | Reading(k1: nat, top: seq<Scored>, k2: seq<nat>, entries: seq<Entry>)
    | Sent(k1: nat, top: seq<Scored>, k2: seq<nat>, entries: seq<Entry>)
    | Failed

  /** `got` records which broadcasts were put in the queue. */
  datatype Conn = Conn(joinedAt: nat, phase: Phase, queue: seq<Row>, received: seq<Row>, got: seq<nat>, closes: nat,
                       writing: bool, reading: bool)

  /** `log` is what the board has applied, `announced` of them were broadcast, `inHub` of those delivered. */
  datatype State = State(init: Board, log: seq<Row>, announced: nat, inHub: nat,
                         conns: map<nat, Conn>, registered: set<nat>, pending: multiset<nat>)

  function Init(b: Board): State {
    State(b, [], 0, 0, map[], {}, multiset{})
  }

  datatype Action =
    | UpdateBoard(u: Row)
    | Announce
    | HubRegister(c: nat)
    | HubUnregister(c: nat)
    | HubBroadcast
    | ReadScores(c: nat, top: seq<Scored>)
    | ReadMetrics(c: nat)
    | SendSnapshot(c: nat)
    | SnapshotFails(c: nat)
    | Write(c: nat)
    | WriterStops(c: nat)
    | ReaderStops(c: nat)

  ghost predicate Enabled(s: State, a: Action) {
    match a
    case UpdateBoard(_) => s.announced == |s.log|
    case Announce => s.announced < |s.log| && s.announced - s.inHub < BROADCAST_CAPACITY
    case HubRegister(c) => c !in s.conns
    case HubUnregister(c) => s.pending[c] > 0
    case HubBroadcast => s.inHub < s.announced <= |s.log|
    case ReadScores(c, top) => c in s.conns && s.conns[c].phase == Joined && IsTop(top, After(s.init, s.log), TOP)
    case ReadMetrics(c) =>
      c in s.conns && s.conns[c].phase.Reading? && |s.conns[c].phase.entries| < |s.conns[c].phase.top|
    case SendSnapshot(c) =>
      c in s.conns && s.conns[c].phase.Reading? && |s.conns[c].phase.entries| == |s.conns[c].phase.top|
    case SnapshotFails(c) => c in s.conns && (s.conns[c].phase == Joined || s.conns[c].phase.Reading?)
    case Write(c) => c in s.conns && Started(s.conns[c]) && s.conns[c].writing && s.conns[c].queue != []
    case WriterStops(c) => c in s.conns && Started(s.conns[c]) && s.conns[c].writing
    case ReaderStops(c) => c in s.conns && Started(s.conns[c]) && s.conns[c].reading
  }

  /** The handler has dealt with the snapshot and started the two goroutines. */
  predicate Started(k: Conn) {
    k.phase.Sent? || k.phase.Failed?
  }

  ghost function Do(s: State, a: Action): State
    requires Enabled(s, a)
  {
    match a
    case UpdateBoard(u) => s.(log := s.log + [u])
    case Announce => s.(announced := s.announced + 1)
    case HubRegister(c) =>
      s.(conns := s.conns[c := Conn(s.inHub, Joined, [], [], [], 0, true, true)], registered := s.registered + {c})
    case HubUnregister(c) => Unregister(s, c)
    case HubBroadcast => Broadcast(s)
    case ReadScores(c, top) => WithPhase(s, c, Reading(|s.log|, top, [], []))
    case ReadMetrics(c) =>
      var p := s.conns[c].phase;
      var i := |p.entries|;
      WithPhase(s, c, Reading(p.k1, p.top, p.k2 + [|s.log|],
                              p.entries + [ReadEntry(i, p.top[i], After(s.init, s.log))]))
    case SendSnapshot(c) =>
      var p := s.conns[c].phase;
      WithPhase(s, c, Sent(p.k1, p.top, p.k2, p.entries))
    case SnapshotFails(c) => WithPhase(s, c, Failed)
    case Write(c) =>
      var k := s.conns[c];
      s.(conns := s.conns[c := k.(received := k.received + [k.queue[0]], queue := k.queue[1..])])
    case WriterStops(c) => s.(conns := s.conns[c := s.conns[c].(writing := false)])
    case ReaderStops(c) =>
      s.(conns := s.conns[c := s.conns[c].(reading := false)], pending := s.pending + multiset{c})
  }

  function WithPhase(s: State, c: nat, p: Phase): State
    requires c in s.conns
  {
    s.(conns := s.conns[c := s.conns[c].(phase := p)])
  }

  function Unregister(s: State, c: nat): State {
    var t := s.(pending := s.pending - multiset{c});
    if c in s.registered && c in s.conns then
      t.(registered := s.registered - {c}, conns := s.conns[c := s.conns[c].(closes := s.conns[c].closes + 1)])
    else t
  }

  function Delivered(k: Conn, m: Row, position: nat): Conn {
    k.(queue := Offer(k.queue, m), got := if Full(k.queue) then k.got else k.got + [position])
  }

  function Broadcast(s: State): State
    requires s.inHub < |s.log|
  {
    var m := s.log[s.inHub];
    s.(inHub := s.inHub + 1,
       conns := map c | c in s.conns :: if c in s.registered then Delivered(s.conns[c], m, s.inHub) else s.conns[c],
       pending := s.pending + multiset(Slow(s)))
  }

  /** The clients a broadcast finds full; a goroutine is started to unregister each. */
  function Slow(s: State): set<nat> {
    set c | c in s.registered && c in s.conns && Full(s.conns[c].queue)
  }

  ghost predicate Legal(s: State, acts: seq<Action>)
    decreases |acts|
  {
    acts == [] || (Enabled(s, acts[0]) && Legal(Do(s, acts[0]), acts[1..]))
  }

  ghost function Exec(s: State, acts: seq<Action>): State
    requires Legal(s, acts)
    decreases |acts|
  {
    if acts == [] then s else Exec(Do(s, acts[0]), acts[1..])
  }

  ghost predicate Reachable(s: State) {
    exists b: Board, acts: seq<Action> :: Legal(Init(b), acts) && s == Exec(Init(b), acts)
  }

  // ---------- invariants ----------

  ghost predicate GlobalInv(s: State) {
    && s.inHub <= s.announced <= |s.log| <= s.announced + 1
    && s.announced - s.inHub <= BROADCAST_CAPACITY
    && s.registered <= s.conns.Keys
    && (forall c :: c in s.pending ==> c in s.conns)
  }

  /** The queued and received messages are broadcasts, in order, without repetition. */
  ghost predicate StreamInv(k: Conn, log: seq<Row>, inHub: nat) {
    && k.joinedAt <= inHub <= |log|
    && |k.queue| <= SEND_CAPACITY
    && |k.got| == |k.received| + |k.queue|
    && (forall i :: 0 <= i < |k.got| ==> k.joinedAt <= k.got[i] < inHub && (k.received + k.queue)[i] == log[k.got[i]])
    && (forall i, j :: 0 <= i < j < |k.got| ==> k.got[i] < k.got[j])
    && (!Started(k) ==> k.received == [])
  }

  /** Nothing since joining is missing. */
  ghost predicate Gapless(k: Conn, inHub: nat) {
    |k.got| == inHub - k.joinedAt && forall i :: 0 <= i < |k.got| ==> k.got[i] == k.joinedAt + i
  }

  ghost predicate ReadInv(init: Board, log: seq<Row>, joinedAt: nat, k1: nat, top: seq<Scored>, k2: seq<nat>, entries: seq<Entry>) {
    && joinedAt <= k1 <= |log| && |k2| == |entries| <= |top|
    && IsTop(top, After(init, log[..k1]), TOP)
    && (forall i :: 0 <= i < |k2| ==> k1 <= k2[i] <= |log|)
    && (forall i :: 0 <= i < |k2| ==> entries[i] == ReadEntry(i, top[i], After(init, log[..k2[i]])))
  }

  ghost predicate PhaseInv(k: Conn, init: Board, log: seq<Row>) {
    match k.phase
    case Joined => true
    case Failed => true
    case Reading(k1, top, k2, entries) => ReadInv(init, log, k.joinedAt, k1, top, k2, entries)
    case Sent(k1, top, k2, entries) => ReadInv(init, log, k.joinedAt, k1, top, k2, entries) && |entries| == |top|
  }

  ghost predicate ConnInv(s: State, c: nat)
    requires c in s.conns
  {
    var k := s.conns[c];
    && StreamInv(k, s.log, s.inHub)
    && PhaseInv(k, s.init, s.log)
    && k.closes == (if c in s.registered then 0 else 1)
    && (c in s.registered && s.pending[c] == 0 ==> Gapless(k, s.inHub))
  }

  ghost predicate Inv(s: State) {
    GlobalInv(s) && forall c :: c in s.conns ==> ConnInv(s, c)
  }

  // ---------- the invariants are kept ----------

  lemma {:induction false} GlobalKept(s: State, a: Action)
    requires GlobalInv(s) && Enabled(s, a)
    ensures GlobalInv(Do(s, a))
  {
  }

  lemma {:induction false} ReadSurvives(init: Board, log: seq<Row>, u: Row, joinedAt: nat, k1: nat, top: seq<Scored>, k2: seq<nat>,
                                        entries: seq<Entry>)
    requires ReadInv(init, log, joinedAt, k1, top, k2, entries)
    ensures ReadInv(init, log + [u], joinedAt, k1, top, k2, entries)
  {
    assert (log + [u])[..k1] == log[..k1];
    forall i | 0 <= i < |k2| ensures (log + [u])[..k2[i]] == log[..k2[i]] { }
  }

  lemma {:induction false} KeptByUpdate(s: State, u: Row, c: nat)
    requires c in s.conns && ConnInv(s, c)
    ensures ConnInv(s.(log := s.log + [u]), c)
  {
    var k := s.conns[c];
    match k.phase
    case Joined =>
    case Failed =>
    case Reading(k1, top, k2, entries) => ReadSurvives(s.init, s.log, u, k.joinedAt, k1, top, k2, entries);
    case Sent(k1, top, k2, entries) => ReadSurvives(s.init, s.log, u, k.joinedAt, k1, top, k2, entries);
  }

  lemma {:induction false} DeliveredKeepsStream(k: Conn, log: seq<Row>, inHub: nat)
    requires StreamInv(k, log, inHub) && inHub < |log|
    ensures StreamInv(Delivered(k, log[inHub], inHub), log, inHub + 1)
    ensures Gapless(k, inHub) && !Full(k.queue) ==> Gapless(Delivered(k, log[inHub], inHub), inHub + 1)
  {
    if !Full(k.queue) {
      var t := Delivered(k, log[inHub], inHub);
      var before, after := k.received + k.queue, t.received + t.queue;
      assert after == before + [log[inHub]];
      forall i | 0 <= i < |t.got| ensures k.joinedAt <= t.got[i] < inHub + 1 && after[i] == log[t.got[i]] {
        if i < |k.got| { assert t.got[i] == k.got[i] && after[i] == before[i]; }
      }
    }
  }

  lemma {:induction false} KeptByBroadcast(s: State, c: nat)
    requires GlobalInv(s) && s.inHub < |s.log| && c in s.conns && ConnInv(s, c)
    ensures ConnInv(Broadcast(s), c)
  {
    var k, t := s.conns[c], Broadcast(s);
    if c in s.registered {
      assert t.conns[c] == Delivered(k, s.log[s.inHub], s.inHub);
      DeliveredKeepsStream(k, s.log, s.inHub);
      assert c in Slow(s) <==> Full(k.queue);
      assert t.pending[c] == s.pending[c] + (if c in Slow(s) then 1 else 0);
    } else {
      assert t.conns[c] == k;
    }
  }

  lemma {:induction false} KeptByReadMetrics(s: State, c: nat)
    requires c in s.conns && ConnInv(s, c) && Enabled(s, ReadMetrics(c))
    ensures ConnInv(Do(s, ReadMetrics(c)), c)
  {
    var p := s.conns[c].phase;
    OneMoreMetric(s.init, s.log, s.conns[c].joinedAt, p.k1, p.top, p.k2, p.entries);
  }

  lemma {:induction false} OneMoreMetric(init: Board, log: seq<Row>, joinedAt: nat, k1: nat, top: seq<Scored>, k2: seq<nat>,
                                         entries: seq<Entry>)
    requires ReadInv(init, log, joinedAt, k1, top, k2, entries) && |entries| < |top|
    ensures ReadInv(init, log, joinedAt, k1, top, k2 + [|log|],
                    entries + [ReadEntry(|entries|, top[|entries|], After(init, log))])
  {
    assert log[..|log|] == log;
  }

  lemma {:induction false} KeptByWrite(s: State, c: nat)
    requires c in s.conns && ConnInv(s, c) && Enabled(s, Write(c))
    ensures ConnInv(Do(s, Write(c)), c)
  {
    var k := s.conns[c];
    assert (k.received + [k.queue[0]]) + k.queue[1..] == k.received + k.queue;
  }

  lemma {:induction false} KeptByHubQueue(s: State, a: Action, c: nat)
    requires GlobalInv(s) && Enabled(s, a) && c in Do(s, a).conns && (c in s.conns ==> ConnInv(s, c))
    requires a.HubRegister? || a.HubUnregister? || a.ReaderStops? || a.WriterStops? || a.Announce?
    ensures ConnInv(Do(s, a), c)
  {
    if c in s.conns {
      HubQueueEffects(s, a, c);
    }
  }

  /** These steps leave a connection's stream alone, and never cancel an unregistration of a registered client. */
  lemma {:induction false} HubQueueEffects(s: State, a: Action, c: nat)
    requires Enabled(s, a) && c in s.conns && s.registered <= s.conns.Keys
    requires a.HubRegister? || a.HubUnregister? || a.ReaderStops? || a.WriterStops? || a.Announce?
    ensures var t := Do(s, a);
      && c in t.conns && SameStream(t.conns[c], s.conns[c])
      && t.log == s.log && t.inHub == s.inHub && t.init == s.init
      && (c in t.registered ==> c in s.registered && t.pending[c] >= s.pending[c])
      && t.conns[c].closes == s.conns[c].closes + (if c in s.registered && c !in t.registered then 1 else 0)
      && (c in s.registered || c !in t.registered)
  {
  }

  predicate SameStream(k: Conn, l: Conn) {
    k.joinedAt == l.joinedAt && k.phase == l.phase && k.queue == l.queue && k.received == l.received && k.got == l.got
  }

  lemma {:induction false} KeptBySnapshot(s: State, a: Action, c: nat)
    requires Enabled(s, a) && c in s.conns && ConnInv(s, c)
    requires a.ReadScores? || a.SendSnapshot? || a.SnapshotFails?
    ensures ConnInv(Do(s, a), c)
  {
    assert s.log[..|s.log|] == s.log;
  }

  lemma {:induction false} ConnKept(s: State, a: Action, c: nat)
    requires GlobalInv(s) && Enabled(s, a) && c in Do(s, a).conns && (c in s.conns ==> ConnInv(s, c))
    ensures ConnInv(Do(s, a), c)
  {
    match a
    case UpdateBoard(u) => KeptByUpdate(s, u, c);
    case HubBroadcast => KeptByBroadcast(s, c);
    case ReadMetrics(d) => if d == c { KeptByReadMetrics(s, c); }
    case Write(d) => if d == c { KeptByWrite(s, c); }
    case ReadScores(_, _) => KeptBySnapshot(s, a, c);
    case SendSnapshot(_) => KeptBySnapshot(s, a, c);
    case SnapshotFails(_) => KeptBySnapshot(s, a, c);
    case _ => KeptByHubQueue(s, a, c);
  }

  lemma {:induction false} StepKeepsInv(s: State, a: Action)
    requires Inv(s) && Enabled(s, a)
    ensures Inv(Do(s, a))
  {
    GlobalKept(s, a);
    forall c | c in Do(s, a).conns ensures ConnInv(Do(s, a), c) {
      ConnKept(s, a, c);
    }
  }

  lemma {:induction false} ExecKeepsInv(s: State, acts: seq<Action>)
    requires Inv(s) && Legal(s, acts)
    ensures Inv(Exec(s, acts))
    decreases |acts|
  {
    if acts != [] {
      StepKeepsInv(s, acts[0]);
      ExecKeepsInv(Do(s, acts[0]), acts[1..]);
    }
  }

  lemma ReachableInv(s: State)
    requires Reachable(s)
    ensures Inv(s)
  {
    var b, acts :| Legal(Init(b), acts) && s == Exec(Init(b), acts);
    ExecKeepsInv(Init(b), acts);
  }

  // ---------- the delivery stream ----------

  /**
   What a client received and has queued is an in-order, repetition-free selection
   of the broadcasts since it joined, and all of them while it is registered with
   no unregistration under way. The queue never exceeds its capacity.
   */
  lemma StreamIsFaithful(s: State, c: nat)
    requires Reachable(s) && c in s.conns
    ensures var k := s.conns[c]; var stream := k.received + k.queue;
      && |k.queue| <= 256 && |k.got| == |stream|
      && (forall i :: 0 <= i < |stream| ==> k.joinedAt <= k.got[i] < s.inHub <= |s.log| && stream[i] == s.log[k.got[i]])
      && (forall i, j :: 0 <= i < j < |stream| ==> k.got[i] < k.got[j])
      && (c in s.registered && s.pending[c] == 0 ==>
            k.joinedAt <= s.inHub <= |s.log| && stream == s.log[k.joinedAt..s.inHub])
  {
    ReachableInv(s);
    assert ConnInv(s, c);
  }

  /** No channel is closed twice, and no registered client's channel is closed. */
  lemma ChannelsClosedOnce(s: State, c: nat)
    requires Reachable(s) && c in s.conns
    ensures s.conns[c].closes <= 1 && (s.conns[c].closes == 0 <==> c in s.registered)
  {
    ReachableInv(s);
    assert ConnInv(s, c);
  }

  /** A broadcast only ever reaches open channels. */
  lemma NoSendOnClosed(s: State, c: nat)
    requires Reachable(s) && Enabled(s, HubBroadcast) && c in s.conns
    requires Do(s, HubBroadcast).conns[c] != s.conns[c]
    ensures s.conns[c].closes == 0
  {
    ChannelsClosedOnce(s, c);
  }

  /** A client that is gone, or about to be, stays so: it never registers again. */
  ghost predicate Leaving(s: State, c: nat) {
    c in s.conns && (s.pending[c] > 0 || c !in s.registered)
  }

  lemma {:induction false} LeavingKept(s: State, a: Action, c: nat)
    requires Leaving(s, c) && Enabled(s, a)
    ensures Leaving(Do(s, a), c)
  {
    match a
    case HubUnregister(d) => if d != c { assert Do(s, a).pending[c] == s.pending[c]; }
    case HubBroadcast => assert Do(s, a).pending[c] >= s.pending[c];
    case _ =>
  }

  lemma {:induction false} StaysLeaving(s: State, acts: seq<Action>, c: nat)
    requires Leaving(s, c) && Legal(s, acts)
    ensures Leaving(Exec(s, acts), c)
    decreases |acts|
  {
    if acts != [] {
      LeavingKept(s, acts[0], c);
      StaysLeaving(Do(s, acts[0]), acts[1..], c);
    }
  }

  /**
   A client whose queue a broadcast finds full leaves for good: however the run goes
   on, once no unregistration of it is pending it is gone and its channel is closed,
   and that is never undone.
   */
  lemma SlowClientLeaves(s: State, acts: seq<Action>, c: nat)
    requires Reachable(s) && Enabled(s, HubBroadcast) && c in s.registered && c in s.conns && Full(s.conns[c].queue)
    requires Legal(Do(s, HubBroadcast), acts)
    ensures var t := Exec(Do(s, HubBroadcast), acts);
      c in t.conns && (t.pending[c] == 0 ==> c !in t.registered && t.conns[c].closes == 1)
  {
    var u := Do(s, HubBroadcast);
    assert c in Slow(s);
    assert u.pending[c] > 0;
    StaysLeaving(u, acts, c);
    ReachableInv(s);
    StepKeepsInv(s, HubBroadcast);
    ExecKeepsInv(u, acts);
    assert ConnInv(Exec(u, acts), c);
  }

  /**
   A client whose connection is gone leaves for good too: once its reader has stopped
   and nothing is pending for it, it is unregistered and its channel is closed.
   */
  lemma DisconnectedClientLeaves(s: State, acts: seq<Action>, c: nat)
    requires Reachable(s) && Enabled(s, ReaderStops(c)) && Legal(Do(s, ReaderStops(c)), acts)
    ensures var t := Exec(Do(s, ReaderStops(c)), acts);
      c in t.conns && (t.pending[c] == 0 ==> c !in t.registered && t.conns[c].closes == 1)
  {
    var u := Do(s, ReaderStops(c));
    assert u.pending[c] > 0;
    StaysLeaving(u, acts, c);
    ReachableInv(s);
    StepKeepsInv(s, ReaderStops(c));
    ExecKeepsInv(u, acts);
    assert ConnInv(Exec(u, acts), c);
  }

  /**
   A broadcast reaches every registered client with fewer than 256 messages queued,
   and only the others are scheduled for removal.
   */
  lemma BroadcastReaches(s: State, c: nat)
    requires Reachable(s) && Enabled(s, HubBroadcast) && c in s.conns
    ensures var t := Do(s, HubBroadcast); var k := s.conns[c];
      && c in t.conns && s.inHub < |s.log|
      && (if c in s.registered && |k.queue| < 256
          then t.conns[c].queue == k.queue + [s.log[s.inHub]] else t.conns[c].queue == k.queue)
      && t.pending[c] == s.pending[c] + (if c in s.registered && |k.queue| >= 256 then 1 else 0)
  {
    ReachableInv(s);
    assert c in Slow(s) <==> c in s.registered && |s.conns[c].queue| >= 256;
  }

  /** What a client had received when its writer stopped is all it ever receives. */
  lemma {:induction false} StoppedWriterIsSilent(s: State, acts: seq<Action>, c: nat)
    requires Enabled(s, WriterStops(c)) && Legal(Do(s, WriterStops(c)), acts)
    ensures var t := Exec(Do(s, WriterStops(c)), acts); c in t.conns && t.conns[c].received == s.conns[c].received
  {
    SilentAlong(Do(s, WriterStops(c)), acts, c);
  }

  lemma {:induction false} SilentAlong(s: State, acts: seq<Action>, c: nat)
    requires c in s.conns && Started(s.conns[c]) && !s.conns[c].writing && Legal(s, acts)
    ensures c in Exec(s, acts).conns && Exec(s, acts).conns[c].received == s.conns[c].received
    decreases |acts|
  {
    if acts != [] {
      SilentStep(s, acts[0], c);
      SilentAlong(Do(s, acts[0]), acts[1..], c);
    }
  }

  lemma {:induction false} SilentStep(s: State, a: Action, c: nat)
    requires c in s.conns && Started(s.conns[c]) && !s.conns[c].writing && Enabled(s, a)
    ensures var t := Do(s, a);
      c in t.conns && Started(t.conns[c]) && !t.conns[c].writing && t.conns[c].received == s.conns[c].received
  {
  }

  /** A client whose snapshot read failed never gets one, but does get its updates. */
  lemma {:induction false} FailedReadIsFinal(s: State, acts: seq<Action>, c: nat)
    requires Enabled(s, SnapshotFails(c)) && Legal(Do(s, SnapshotFails(c)), acts)
    ensures var t := Exec(Do(s, SnapshotFails(c)), acts);
      && c in t.conns && t.conns[c].phase.Failed?
      && (t.conns[c].writing && t.conns[c].queue != [] ==> Enabled(t, Write(c)))
  {
    StaysFailed(Do(s, SnapshotFails(c)), acts, c);
  }

  lemma {:induction false} StaysFailed(s: State, acts: seq<Action>, c: nat)
    requires c in s.conns && s.conns[c].phase.Failed? && Legal(s, acts)
    ensures c in Exec(s, acts).conns && Exec(s, acts).conns[c].phase.Failed?
    decreases |acts|
  {
    if acts != [] {
      StaysFailed(Do(s, acts[0]), acts[1..], c);
    }
  }

  /**
   The consumer waits for the hub only while the hub is 256 broadcasts behind, and
   then the hub can take one: an update on the board always gets further.
   */
  lemma UpdatesGetThrough(s: State)
    requires Reachable(s) && s.inHub < |s.log|
    ensures Enabled(s, Announce) <==> s.announced < |s.log| && |s.log| - s.inHub <= 256
    ensures Enabled(s, Announce) || Enabled(s, HubBroadcast)
  {
    ReachableInv(s);
  }

  /** The same state with one more request to unregister the client. */
  function Asked(s: State, c: nat): State {
    s.(pending := s.pending + multiset{c})
  }

  lemma {:induction false} AskedStep(s: State, a: Action, c: nat)
    requires Enabled(s, a)
    ensures Enabled(Asked(s, c), a) && Do(Asked(s, c), a) == Asked(Do(s, a), c)
  {
    match a
    case HubUnregister(d) => OneMoreAsked(s.pending, d, c);
    case HubBroadcast => AskedBroadcast(s, c);
    case ReaderStops(d) => SwapAsked(s.pending, d, c);
    case _ =>
  }

  lemma OneMoreAsked(m: multiset<nat>, d: nat, c: nat)
    requires m[d] > 0
    ensures (m + multiset{c}) - multiset{d} == (m - multiset{d}) + multiset{c}
  {
  }

  lemma SwapAsked(m: multiset<nat>, d: nat, c: nat)
    ensures (m + multiset{c}) + multiset{d} == (m + multiset{d}) + multiset{c}
  {
  }

  lemma {:induction false} AskedBroadcast(s: State, c: nat)
    requires s.inHub < |s.log|
    ensures Broadcast(Asked(s, c)) == Asked(Broadcast(s), c)
  {
    assert Slow(Asked(s, c)) == Slow(s);
    assert (s.pending + multiset{c}) + multiset(Slow(s)) == (s.pending + multiset(Slow(s))) + multiset{c};
  }

  lemma {:induction false} AskedRun(s: State, acts: seq<Action>, c: nat)
    requires Legal(s, acts)
    ensures Legal(Asked(s, c), acts) && Exec(Asked(s, c), acts) == Asked(Exec(s, acts), c)
    decreases |acts|
  {
    if acts != [] {
      AskedStep(s, acts[0], c);
      AskedRun(Do(s, acts[0]), acts[1..], c);
    }
  }

  lemma ExecCons(s: State, a: Action, rest: seq<Action>)
    requires Enabled(s, a) && Legal(Do(s, a), rest)
    ensures Legal(s, [a] + rest) && Exec(s, [a] + rest) == Exec(Do(s, a), rest)
  {
    assert ([a] + rest)[1..] == rest;
  }

  lemma ConcatCons(a: seq<Action>, b: seq<Action>)
    requires a != []
    ensures a + b == [a[0]] + (a[1..] + b)
  {
  }

  lemma {:induction false} ExecConcat(s: State, a: seq<Action>, b: seq<Action>)
    requires Legal(s, a) && Legal(Exec(s, a), b)
    ensures Legal(s, a + b) && Exec(s, a + b) == Exec(Exec(s, a), b)
    decreases |a|
  {
    if a == [] {
      assert a + b == b;
    } else {
      var x, rest := a[0], a[1..];
      ConcatCons(a, b);
      ExecConcat(Do(s, x), rest, b);
      ExecCons(s, x, rest + b);
    }
  }

  /**
   A duplicate request to unregister is harmless over whole runs. Take any run from
   `s` in which the client has gone by the end of `before`. With one more request
   made in `s` and served at that point, the run is still possible and ends in the
   same state: same registrations, same closes, same streams.
   */
  lemma DuplicateUnregisterHarmless(s: State, c: nat, before: seq<Action>, after: seq<Action>)
    requires Legal(s, before) && Legal(Exec(s, before), after) && c !in Exec(s, before).registered
    ensures var run := before + ([HubUnregister(c)] + after);
      && Legal(s, before + after) && Legal(Asked(s, c), run)
      && Exec(Asked(s, c), run) == Exec(s, before + after)
  {
    var t := Exec(s, before);
    AskedRun(s, before, c);
    var again := HubUnregister(c);
    assert Enabled(Asked(t, c), again);
    assert (t.pending + multiset{c}) - multiset{c} == t.pending;
    assert Do(Asked(t, c), again) == t;
    assert ([again] + after)[1..] == after;
    ExecConcat(Asked(s, c), before, [again] + after);
    ExecConcat(s, before, after);
  }

  /**
   The pending unregistrations run out after as many steps as there are, one is
   always possible until then, and exactly the clients they named are gone.
   */
  lemma {:induction false} DrainRemovesPending(s: State, acts: seq<Action>)
    requires Inv(s) && Legal(s, acts) && forall a :: a in acts ==> a.HubUnregister?
    ensures |acts| + |Exec(s, acts).pending| == |s.pending|
    ensures s.pending != multiset{} ==> exists c: nat :: Enabled(s, HubUnregister(c))
    ensures Exec(s, acts).pending == multiset{} ==>
      Exec(s, acts).registered == set c | c in s.registered && s.pending[c] == 0
    decreases |acts|
  {
    if s.pending != multiset{} {
      var c :| c in s.pending;
      assert Enabled(s, HubUnregister(c));
    }
    if acts != [] {
      StepKeepsInv(s, acts[0]);
      DrainOne(s, acts[0].c);
      DrainRemovesPending(Do(s, acts[0]), acts[1..]);
    }
  }

  /** One unregistration uses up one request and removes at most its client. */
  lemma {:induction false} DrainOne(s: State, c: nat)
    requires Inv(s) && Enabled(s, HubUnregister(c))
    ensures var t := Do(s, HubUnregister(c));
      && |t.pending| == |s.pending| - 1
      && (set d | d in t.registered && t.pending[d] == 0) == (set d | d in s.registered && s.pending[d] == 0)
  {
    var t := Do(s, HubUnregister(c));
    forall d ensures d in t.registered && t.pending[d] == 0 <==> d in s.registered && s.pending[d] == 0 {
      if d != c { assert t.pending[d] == s.pending[d]; }
    }
  }

  // ---------- end to end ----------

  /** Nothing is in flight to the client. */
  ghost predicate Quiescent(s: State, c: nat) {
    && s.inHub == |s.log|
    && c in s.conns && c in s.registered && s.pending[c] == 0
    && s.conns[c].phase.Sent? && s.conns[c].queue == []
  }

  /** What the browser shows: the snapshot, then each received update in turn. */
  function Shown(k: Conn): seq<Entry>
    requires k.phase.Sent?
  {
    View(k.phase.entries, k.received)
  }

  /**
   In every run, a client that is still registered and has drained its queue shows
   for each listed contestant exactly what the server's board holds, lists every
   contestant updated since it joined, and is sorted and ranked.
   */
  lemma ClientConverges(s: State, c: nat)
    requires Reachable(s) && Quiescent(s, c)
    ensures var k := s.conns[c]; var view := Shown(k); var board := After(s.init, s.log);
      && k.joinedAt <= |s.log|
      && DistinctRows(view) && Descending(view) && Ranked(view)
      && (forall r :: r in Rows(view) ==> OnBoard(board, r))
      && (forall id :: Shows(view, id) <==> ScoredIDs(k.phase.top, id) || Touches(s.log[k.joinedAt..], id))
  {
    var k := s.conns[c];
    CaughtUp(s, c);
    Converges(k.phase.entries, s.init, s.log, k.joinedAt, k.phase.k1, k.phase.k2, k.phase.top);
  }

  lemma CaughtUp(s: State, c: nat)
    requires Reachable(s) && Quiescent(s, c)
    ensures var k := s.conns[c];
      && k.joinedAt <= k.phase.k1 <= |s.log| && k.received == s.log[k.joinedAt..]
      && IsRead(k.phase.entries, s.init, s.log, k.phase.k1, k.phase.k2, k.phase.top)
  {
    ReachableInv(s);
    assert ConnInv(s, c);
    StreamIsFaithful(s, c);
    var k := s.conns[c];
    assert k.received + k.queue == k.received;
    assert s.log[k.joinedAt..s.inHub] == s.log[k.joinedAt..];
  }

  /**
   A client whose snapshot read failed starts from an empty list. When it has caught
   up it lists exactly the contestants updated since it joined, each with the row
   the server's board holds.
   */
  lemma UnsnappedClientConverges(s: State, c: nat)
    requires Reachable(s) && s.inHub == |s.log| && c in s.conns && c in s.registered && s.pending[c] == 0
    requires s.conns[c].phase.Failed? && s.conns[c].queue == []
    ensures var k := s.conns[c]; var view := View([], k.received); var board := After(s.init, s.log);
      && k.joinedAt <= |s.log|
      && DistinctRows(view) && Descending(view) && Ranked(view)
      && (forall r :: r in Rows(view) ==> OnBoard(board, r))
      && (forall id :: Shows(view, id) <==> Touches(s.log[k.joinedAt..], id))
  {
    StreamIsFaithful(s, c);
    var k := s.conns[c];
    assert k.received + k.queue == k.received;
    assert s.log[k.joinedAt..s.inHub] == s.log[k.joinedAt..];
    UpdatesAlone(s.init, s.log, k.joinedAt);
  }

  /** The first 50 shown are the server's Top50 exactly when none of them is unseen by the client. */
  lemma ClientTopAgreesIff(s: State, c: nat, server: seq<Scored>)
    requires Reachable(s) && Quiescent(s, c)
    requires DistinctScores(After(s.init, s.log)) && IsTop(server, After(s.init, s.log), TOP)
    ensures s.conns[c].joinedAt <= |s.log|
    ensures FirstAre(Shown(s.conns[c]), server) <==>
      forall i :: 0 <= i < |server| ==>
        ScoredIDs(s.conns[c].phase.top, server[i].contestantID) || Touches(s.log[s.conns[c].joinedAt..], server[i].contestantID)
  {
    var k := s.conns[c];
    CaughtUp(s, c);
    TopAgreesIff(k.phase.entries, s.init, s.log, k.joinedAt, k.phase.k1, k.phase.k2, k.phase.top, server);
  }

  /** In particular when no update since the score read lowered anyone. */
  lemma ClientTopAgrees(s: State, c: nat, server: seq<Scored>)
    requires Reachable(s) && Quiescent(s, c)
    requires DistinctScores(After(s.init, s.log)) && IsTop(server, After(s.init, s.log), TOP)
    requires NoLowering(s.init, s.log, s.conns[c].phase.k1)
    ensures FirstAre(Shown(s.conns[c]), server)
  {
    var k := s.conns[c];
    CaughtUp(s, c);
    TopAgreesWithoutLowering(k.phase.entries, s.init, s.log, k.joinedAt, k.phase.k1, k.phase.k2, k.phase.top, server);
  }

  // ---------- a run in which the two tops differ ----------

  lemma {:induction false} Then(s: State, a: Action)
    requires Reachable(s) && Enabled(s, a)
    ensures Reachable(Do(s, a))
  {
    var b, acts :| Legal(Init(b), acts) && s == Exec(Init(b), acts);
    assert Legal(s, [a]) && Exec(s, [a]) == Do(s, a) by { ExecCons(s, a, []); assert [a] + [] == [a]; }
    ExecConcat(Init(b), acts, [a]);
  }

  function Name(i: nat): (id: string)
    ensures |id| == i
  {
    seq(i, _ => 'x')
  }

  /** Contestants with scores from 100 downwards, one point apart. */
  function Ladder(n: nat): map<string, real> {
    if n == 0 then map[] else Ladder(n - 1)[Name(n - 1) := 101.0 - n as real]
  }

  lemma {:induction false} LadderRungs(n: nat)
    ensures |Ladder(n)| == n
    ensures forall id :: id in Ladder(n) <==> |id| < n && id == Name(|id|)
    ensures forall id :: id in Ladder(n) ==> Ladder(n)[id] == 100.0 - |id| as real
  {
    if n > 0 {
      LadderRungs(n - 1);
      assert Name(n - 1) !in Ladder(n - 1);
    }
  }

  /** `n` rungs of the ladder. */
  function Rungs(from: nat, n: nat): (top: seq<Scored>)
    ensures |top| == n && forall i :: 0 <= i < n ==> top[i] == Scored(Name(from + i), 100.0 - (from + i) as real)
  {
    seq(n, i requires 0 <= i < n => Scored(Name(from + i), 100.0 - (from + i) as real))
  }

  const FALL := Row(Name(0), 0.0, 0.0, 0.0)

  lemma {:induction false} RungMembers(from: nat, n: nat, id: string)
    ensures ScoredIDs(Rungs(from, n), id) <==> from <= |id| < from + n && id == Name(|id|)
  {
    var top := Rungs(from, n);
    if from <= |id| < from + n && id == Name(|id|) {
      assert top[|id| - from].contestantID == id;
    }
  }

  /** All but the lowest are on top. */
  lemma {:induction false} TopBefore(n: nat)
    ensures IsTop(Rungs(0, n), Board(Ladder(n + 1), map[]), n)
  {
    LadderRungs(n + 1);
    forall id ensures ScoredIDs(Rungs(0, n), id) <==> |id| < n && id == Name(|id|) { RungMembers(0, n, id); }
  }

  /** After the leader falls to zero, all but the leader are. */
  lemma {:induction false} TopAfter(n: nat)
    requires 0 < n <= 99
    ensures var c := Update(Board(Ladder(n + 1), map[]), FALL);
      IsTop(Rungs(1, n), c, n) && DistinctScores(c)
  {
    var b := Board(Ladder(n + 1), map[]);
    var c := Update(b, FALL);
    LadderRungs(n + 1);
    forall id ensures ScoredIDs(Rungs(1, n), id) <==> 1 <= |id| < n + 1 && id == Name(|id|) { RungMembers(1, n, id); }
    assert Name(0) in b.scores;
    SameKeyCount(b.scores, Name(0), 0.0);
  }

  lemma SameKeyCount(m: map<string, real>, id: string, score: real)
    requires id in m
    ensures |m[id := score]| == |m|
  {
    assert m[id := score].Keys == m.Keys;
    assert |m| == |m.Keys| && |m[id := score]| == |m[id := score].Keys|;
  }

  /** The handler reads the metrics one contestant at a time. */
  lemma {:induction false} ReadsAll(s: State, c: nat) returns (t: State)
    requires Reachable(s) && c in s.conns && s.conns[c].phase.Reading? && |s.conns[c].phase.entries| <= |s.conns[c].phase.top|
    ensures Reachable(t) && c in t.conns && t.conns[c].phase.Reading?
    ensures var p := t.conns[c].phase; p.top == s.conns[c].phase.top && |p.entries| == |p.top| && t == WithPhase(s, c, p)
    decreases |s.conns[c].phase.top| - |s.conns[c].phase.entries|
  {
    var p := s.conns[c].phase;
    if |p.entries| == |p.top| {
      t := s;
      assert s.conns[c := s.conns[c]] == s.conns;
    } else {
      Then(s, ReadMetrics(c));
      var u := Do(s, ReadMetrics(c));
      t := ReadsAll(u, c);
      assert s.conns[c := u.conns[c]][c := t.conns[c]] == s.conns[c := t.conns[c]];
    }
  }

  lemma {:induction false} Joins(b: Board) returns (s: State)
    ensures Reachable(s) && s == State(b, [], 0, 0, map[0 := Conn(0, Joined, [], [], [], 0, true, true)], {0}, multiset{})
  {
    s := Init(b);
    assert Legal(s, []) && Exec(s, []) == s;
    Then(s, HubRegister(0));
    s := Do(s, HubRegister(0));
  }

  lemma {:induction false} ReadsSnapshot(s: State, c: nat, top: seq<Scored>) returns (t: State)
    requires Reachable(s) && Enabled(s, ReadScores(c, top))
    ensures Reachable(t) && c in t.conns && t.conns[c].phase.Sent? && t.conns[c].phase.top == top
    ensures t == WithPhase(s, c, t.conns[c].phase)
  {
    Then(s, ReadScores(c, top));
    t := ReadsAll(Do(s, ReadScores(c, top)), c);
    Then(t, SendSnapshot(c));
    t := Do(t, SendSnapshot(c));
    assert t.conns == s.conns[c := t.conns[c]];
  }

  /** A client joins an unchanging board and gets its snapshot. */
  lemma {:induction false} JoinsAndReads(b: Board, top: seq<Scored>) returns (s: State)
    requires IsTop(top, b, TOP)
    ensures Reachable(s) && 0 in s.conns && s.conns[0].phase.Sent? && s.conns[0].phase.top == top
    ensures s == State(b, [], 0, 0, map[0 := Conn(0, s.conns[0].phase, [], [], [], 0, true, true)], {0}, multiset{})
  {
    s := Joins(b);
    assert After(b, []) == b;
    s := ReadsSnapshot(s, 0, top);
  }

  /** One update goes all the way to the client. */
  lemma {:induction false} UpdateArrives(s: State, u: Row) returns (t: State)
    requires Reachable(s) && s.log == [] && s.announced == s.inHub == 0 && s.registered == {0} && s.pending == multiset{}
    requires 0 in s.conns && s.conns[0].phase.Sent? && s.conns[0].writing && s.conns[0].queue == []
    ensures Reachable(t) && Quiescent(t, 0) && t.init == s.init && t.log == [u]
    ensures t.conns[0].phase == s.conns[0].phase && t.conns[0].joinedAt == s.conns[0].joinedAt
  {
    Then(s, UpdateBoard(u));
    t := Do(s, UpdateBoard(u));
    assert t.log == [u];
    Then(t, Announce);
    t := Do(t, Announce);
    assert Slow(t) == {};
    Then(t, HubBroadcast);
    t := Do(t, HubBroadcast);
    assert t.pending == multiset{} && t.conns[0].queue == [u];
    Then(t, Write(0));
    t := Do(t, Write(0));
  }

  /**
   The condition is needed: with 51 contestants, a client that joins before the
   leader falls to the bottom never learns of the one who moves up to place 50.
   */
  lemma {:induction false} TopsCanDiffer() returns (s: State, server: seq<Scored>)
    ensures Reachable(s) && Quiescent(s, 0)
    ensures DistinctScores(After(s.init, s.log)) && IsTop(server, After(s.init, s.log), TOP)
    ensures !FirstAre(Shown(s.conns[0]), server)
  {
    var b := Board(Ladder(TOP + 1), map[]);
    TopBefore(TOP);
    TopAfter(TOP);
    s := JoinsAndReads(b, Rungs(0, TOP));
    s := UpdateArrives(s, FALL);
    server := Rungs(1, TOP);
    AfterOne(b, FALL);
    ClientTopAgreesIff(s, 0, server);
    RungMembers(0, TOP, Name(TOP));
    assert server[TOP - 1].contestantID == Name(TOP);
    OnlyOneTouched(FALL, Name(TOP));
  }

  lemma AfterOne(b: Board, u: Row)
    ensures After(b, [u]) == Update(b, u)
  {
    AfterAppend(b, [], u);
    assert [] + [u] == [u];
  }

  lemma OnlyOneTouched(u: Row, id: string)
    requires u.contestantID != id
    ensures !Touches([u][0..], id)
  {
  }
}
