/**
 A manager operation whose lock steps run without interference does what the
 method of Window.dfy promises (apps/ingester/internal/window/window.go:72-161).
 */
module ManagerAlone {
  import opened WindowProtocol
  import opened Windows

  /** The manager's windows as values. */
  function Contents(s: State): map<string, Window> {
    map r | r in s.windows && s.windows[r] < |s.cells| :: s.cells[s.windows[r]].window
  }

  lemma FreeLocks(s: State)
    requires LockInv(s) && !Busy(s)
    ensures s.manager == Nobody && forall i :: 0 <= i < |s.cells| ==> s.cells[i].owner == Nobody
  {
    forall i | 0 <= i < |s.cells| ensures s.cells[i].owner == Nobody {
      assert OwnerInv(s, i);
      OneOfThree(s.cells[i].owner);
    }
    OneOfThree(s.manager);
  }

  lemma ExecCons(s: State, a: Action, rest: seq<Action>)
    requires Enabled(s, a) && Legal(Do(s, a), rest)
    ensures Legal(s, [a] + rest) && Exec(s, [a] + rest) == Exec(Do(s, a), rest)
  {
    assert ([a] + rest)[1..] == rest;
  }

  /**
   With the other threads idle, the steps of an add change the windows exactly as
   the method `Manager.AddEvent` does.
   */
  lemma {:induction false} AddAlone(s: State, e: TelemetryEvent) returns (acts: seq<Action>)
    requires LockInv(s) && PointerInv(s) && !Busy(s)
    ensures Legal(s, acts)
    ensures Contents(Exec(s, acts)) == AfterAdd(Contents(s), s.contestants, s.durationSecs, e, s.now)
    ensures Exec(s, acts).contestants == s.contestants && !Busy(Exec(s, acts))
  {
    FreeLocks(s);
    var s1 := s.(adder := AHoldManager(e), manager := Held(Adder));
    var s2 := Lookup(s1, e);
    LookupContents(s1, e);
    var go := Go(Adder, "");
    var tail := AddTail(s2);
    ExecCons(s1, go, tail);
    ExecCons(Do(s, Arrive(e)), go, [go] + tail);
    ExecCons(s, Arrive(e), [go] + ([go] + tail));
    acts := [Arrive(e)] + ([go] + ([go] + tail));
  }

  lemma {:induction false} LookupContents(s: State, e: TelemetryEvent)
    requires PointerInv(s) && (forall i :: 0 <= i < |s.cells| ==> s.cells[i].owner == Nobody)
    ensures var t := Lookup(s, e);
      && Contents(t) == AfterLookup(Contents(s), s.contestants, s.durationSecs, e.runID, e.sentAtNs, s.now)
      && t.adder.AWaitWindow? && t.adder.e == e && LiveCell(t, e.runID, t.adder.cell)
      && t.adder.cell < |t.cells| && t.cells[t.adder.cell].owner == Nobody
      && (forall r :: r in t.windows ==> t.windows[r] < |t.cells| && (t.windows[r] == t.adder.cell ==> r == e.runID))
  {
  }

  lemma {:induction false} AddTail(s: State) returns (acts: seq<Action>)
    requires s.adder.AWaitWindow? && s.adder.cell < |s.cells| && s.cells[s.adder.cell].owner == Nobody
    requires LiveCell(s, s.adder.e.runID, s.adder.cell)
    requires forall r :: r in s.windows ==> s.windows[r] < |s.cells| && (s.windows[r] == s.adder.cell ==> r == s.adder.e.runID)
    ensures Legal(s, acts)
    ensures var e := s.adder.e; var t := Exec(s, acts);
      && Contents(t) == Contents(s)[e.runID := Record(Contents(s)[e.runID], e)]
      && t.contestants == s.contestants && t.adder == AIdle && t.setter == s.setter && t.checker == s.checker
  {
    var go := Go(Adder, "");
    var s1 := Do(s, go);
    ExecCons(s1, go, []);
    ExecCons(s, go, [go]);
    acts := [go] + [go];
    assert [go] + [] == [go];
  }

  /** Likewise for `Manager.SetContestantID`. */
  lemma {:induction false} SetAlone(s: State, run: string, contestant: string) returns (acts: seq<Action>)
    requires LockInv(s) && PointerInv(s) && !Busy(s)
    ensures Legal(s, acts)
    ensures Contents(Exec(s, acts)) == AfterSet(Contents(s), run, contestant)
    ensures Exec(s, acts).contestants == s.contestants[run := contestant] && !Busy(Exec(s, acts))
  {
    FreeLocks(s);
    var go := Go(Setter, "");
    var s0 := Do(s, Announce(run, contestant));
    var s1 := Do(s0, go);
    var s2 := Do(s1, go);
    var tail := [];
    if run in s.windows {
      tail := SetTail(s2);
    } else {
      assert Contents(s2) == Contents(s);
    }
    ExecCons(s1, go, tail);
    ExecCons(s0, go, [go] + tail);
    ExecCons(s, Announce(run, contestant), [go] + ([go] + tail));
    acts := [Announce(run, contestant)] + ([go] + ([go] + tail));
  }

  lemma {:induction false} SetTail(s: State) returns (acts: seq<Action>)
    requires s.setter.SWaitWindow? && s.setter.cell < |s.cells| && s.cells[s.setter.cell].owner == Nobody
    requires LiveCell(s, s.setter.run, s.setter.cell)
    requires forall r :: r in s.windows ==> s.windows[r] < |s.cells| && (s.windows[r] == s.setter.cell ==> r == s.setter.run)
    ensures Legal(s, acts)
    ensures var t := Exec(s, acts);
      && Contents(t) == AfterSet(Contents(s), s.setter.run, s.setter.contestant)
      && t.contestants == s.contestants && t.setter == SIdle && t.adder == s.adder && t.checker == s.checker
  {
    var go := Go(Setter, "");
    var s1 := Do(s, go);
    ExecCons(s1, go, []);
    ExecCons(s, go, [go]);
    acts := [go] + [go];
    assert [go] + [] == [go];
  }

  /** The remaining runs whose window is complete when the clock is read under its lock. */
  function Expired(m: map<string, Window>, clock: map<string, int>): set<string> {
    set r | r in m && r in clock && Complete(m[r], clock[r])
  }

  /** One snapshot for each of the expired runs, of that run's window, taken when its clock was read. */
  ghost predicate OneEmittedEach(taken: seq<Emitted>, m: map<string, Window>, clock: map<string, int>) {
    && (forall k :: 0 <= k < |taken| ==> taken[k].run in Expired(m, clock))
    && (forall k :: 0 <= k < |taken| ==> taken[k].window == m[taken[k].run] && taken[k].at == clock[taken[k].run])
    && (forall j, k :: 0 <= j < k < |taken| ==> taken[j].run != taken[k].run)
    && (forall r :: r in Expired(m, clock) ==> exists k :: 0 <= k < |taken| && taken[k].run == r)
  }

  predicate ByChecker(a: Action) {
    a.Tick? || (a.Go? && a.thread == Checker)
  }

  /** From `s`, inside a check, to its end `t`: each remaining window looked at once, the expired ones reported and removed. */
  ghost predicate Checked(s: State, t: State, clock: map<string, int>, taken: seq<Emitted>) {
    var m := Contents(s);
    && clock.Keys == Remaining(s) && s.now <= t.now && (forall r :: r in clock ==> s.now <= clock[r] <= t.now)
    && Contents(t) == m - Expired(m, clock)
    && t.contestants == s.contestants - Expired(m, clock)
    && t.snaps == s.snaps + taken && OneEmittedEach(taken, m, clock)
    && !Busy(t)
  }

  ghost predicate OnlyChecking(s: State) {
    PointerInv(s) && LockInv(s) && s.adder == AIdle && s.setter == SIdle
  }

  /** In any order of the windows and with time passing. */
  lemma {:induction false} CheckRest(s: State, acts: seq<Action>) returns (clock: map<string, int>, taken: seq<Emitted>)
    requires OnlyChecking(s)
    requires Legal(s, acts) && (forall a :: a in acts ==> ByChecker(a)) && Exec(s, acts).checker == CIdle
    ensures Checked(s, Exec(s, acts), clock, taken)
    decreases |acts|
  {
    if acts == [] {
      clock, taken := map[], [];
      assert Contents(s) - Expired(Contents(s), clock) == Contents(s);
    } else {
      var a := acts[0];
      assert ByChecker(a);
      StillChecking(s, a);
      clock, taken := CheckRest(Do(s, a), acts[1..]);
      if s.checker.CHoldWindow? && a.Go? {
        clock, taken := LookedAt(s, a.pick, Exec(s, acts), clock, taken);
      } else {
        CheckedNone(s, a);
        PassedBy(s, Do(s, a), Exec(s, acts), clock, taken);
      }
    }
  }

  lemma {:induction false} StillChecking(s: State, a: Action)
    requires OnlyChecking(s) && Enabled(s, a) && ByChecker(a)
    ensures OnlyChecking(Do(s, a))
  {
    PointersKept(s, a);
    LocksKept(s, a);
  }

  lemma {:induction false} PassedBy(s: State, u: State, t: State, clock: map<string, int>, taken: seq<Emitted>)
    requires Checked(u, t, clock, taken)
    requires Contents(u) == Contents(s) && Remaining(u) == Remaining(s)
    requires u.contestants == s.contestants && u.snaps == s.snaps && u.now >= s.now
    ensures Checked(s, t, clock, taken)
  {
  }

  lemma {:induction false} LookedAt(s: State, pick: string, t: State, clock: map<string, int>, taken: seq<Emitted>)
    returns (clock': map<string, int>, taken': seq<Emitted>)
    requires OnlyChecking(s) && s.checker.CHoldWindow? && CanGo(s, Checker, pick)
    requires Checked(CheckerStep(s, pick), t, clock, taken)
    ensures Checked(s, t, clock', taken')
  {
    var r := s.checker.run;
    CheckedOne(s, pick);
    clock' := clock[r := s.now];
    if Complete(Contents(s)[r], s.now) {
      taken' := [NewSnapshot(s)] + taken;
      TakenOut(s, CheckerStep(s, pick), t, clock, taken, NewSnapshot(s));
    } else {
      taken' := taken;
      LeftIn(s, CheckerStep(s, pick), t, clock, taken, r);
    }
  }

  lemma {:induction false} TakenOut(s: State, u: State, t: State, clock: map<string, int>, taken: seq<Emitted>, snap: Emitted)
    requires Checked(u, t, clock, taken) && u.now == s.now
    requires snap.run in Contents(s) && snap.window == Contents(s)[snap.run] && snap.at == s.now && Complete(snap.window, s.now)
    requires snap.run !in Remaining(u) && Remaining(s) == Remaining(u) + {snap.run}
    requires Contents(u) == Contents(s) - {snap.run} && u.contestants == s.contestants - {snap.run} && u.snaps == s.snaps + [snap]
    ensures Checked(s, t, clock[snap.run := s.now], [snap] + taken)
  {
    var m := Contents(s);
    OneMoreEmitted(taken, m, clock, snap);
    ExpiredMore(m, clock, snap.run, s.now);
    RemovedMore(m, s.contestants, Expired(m - {snap.run}, clock), snap.run);
    assert s.snaps + ([snap] + taken) == s.snaps + [snap] + taken;
  }

  lemma {:induction false} LeftIn(s: State, u: State, t: State, clock: map<string, int>, taken: seq<Emitted>, r: string)
    requires Checked(u, t, clock, taken) && u.now == s.now
    requires r in Contents(s) && !Complete(Contents(s)[r], s.now)
    requires r !in Remaining(u) && Remaining(s) == Remaining(u) + {r}
    requires Contents(u) == Contents(s) && u.contestants == s.contestants && u.snaps == s.snaps
    ensures Checked(s, t, clock[r := s.now], taken)
  {
    ExpiredSame(Contents(s), clock, r, s.now);
    EmittedSame(taken, Contents(s), clock, r, s.now);
  }

  lemma RemovedMore(m: map<string, Window>, ids: map<string, string>, runs: set<string>, r: string)
    ensures m - {r} - runs == m - (runs + {r}) && ids - {r} - runs == ids - (runs + {r})
  {
  }

  /** A step that does not finish with a window changes nothing the check is about. */
  lemma {:induction false} CheckedNone(s: State, a: Action)
    requires PointerInv(s) && LockInv(s) && s.adder == AIdle && s.setter == SIdle
    requires Enabled(s, a) && ByChecker(a) && !(s.checker.CHoldWindow? && a.Go?)
    ensures var t := Do(s, a);
      && Contents(t) == Contents(s) && Remaining(t) == Remaining(s)
      && t.contestants == s.contestants && t.snaps == s.snaps && t.now >= s.now
      && t.adder == AIdle && t.setter == SIdle
  {
  }

  lemma {:induction false} CheckedOne(s: State, pick: string)
    requires PointerInv(s) && LockInv(s) && s.checker.CHoldWindow? && CanGo(s, Checker, pick)
    ensures var t := CheckerStep(s, pick); var r := s.checker.run;
      && r in Contents(s) && r !in Remaining(t) && Remaining(s) == Remaining(t) + {r} && t.now == s.now
      && (Complete(Contents(s)[r], s.now) <==> TakesSnapshot(s, Go(Checker, pick)))
      && (if Complete(Contents(s)[r], s.now)
          then Contents(t) == Contents(s) - {r} && t.contestants == s.contestants - {r} && t.snaps == s.snaps + [NewSnapshot(s)]
          else Contents(t) == Contents(s) && t.contestants == s.contestants && t.snaps == s.snaps)
      && NewSnapshot(s).run == r && NewSnapshot(s).window == Contents(s)[r] && NewSnapshot(s).at == s.now
  {
  }

  lemma {:induction false} ExpiredMore(m: map<string, Window>, clock: map<string, int>, r: string, now: int)
    requires r in m && r !in clock && Complete(m[r], now)
    ensures Expired(m, clock[r := now]) == Expired(m - {r}, clock) + {r}
  {
  }

  lemma {:induction false} ExpiredSame(m: map<string, Window>, clock: map<string, int>, r: string, now: int)
    requires r in m && r !in clock && !Complete(m[r], now)
    ensures Expired(m, clock[r := now]) == Expired(m, clock)
  {
  }

  lemma {:induction false} OneMoreEmitted(taken: seq<Emitted>, m: map<string, Window>, clock: map<string, int>, snap: Emitted)
    requires snap.run in m && snap.run !in clock && Complete(m[snap.run], snap.at) && snap.window == m[snap.run]
    requires OneEmittedEach(taken, m - {snap.run}, clock)
    ensures OneEmittedEach([snap] + taken, m, clock[snap.run := snap.at])
  {
    var longer := [snap] + taken;
    ExpiredMore(m, clock, snap.run, snap.at);
    assert longer[0] == snap && forall k :: 1 <= k < |longer| ==> longer[k] == taken[k - 1];
    forall r | r in Expired(m - {snap.run}, clock) ensures exists k :: 0 <= k < |longer| && longer[k].run == r {
      var k :| 0 <= k < |taken| && taken[k].run == r;
      assert longer[k + 1] == taken[k];
    }
  }

  lemma {:induction false} EmittedSame(taken: seq<Emitted>, m: map<string, Window>, clock: map<string, int>, r: string, now: int)
    requires r in m && r !in clock && !Complete(m[r], now) && OneEmittedEach(taken, m, clock)
    ensures OneEmittedEach(taken, m, clock[r := now])
  {
    ExpiredSame(m, clock, r, now);
  }

  /** Each snapshot is reported by its metrics. */
  ghost predicate Reports(completed: seq<RunSnapshot>, taken: seq<Emitted>) {
    && |completed| == |taken|
    && forall k :: 0 <= k < |taken| ==> IsSnapshotOf(completed[k], taken[k].run, taken[k].window)
  }

  /**
   Likewise for `Manager.CheckCompleted`: in whatever order the windows are
   scanned, and however time passes meanwhile, a check without interference does
   what the method promises for the clock readings it took, one per window.
   */
  lemma {:induction false} CheckAlone(s: State, acts: seq<Action>) returns (clock: map<string, int>, taken: seq<Emitted>)
    requires LockInv(s) && PointerInv(s) && !Busy(s)
    requires Legal(s, [Check] + acts) && (forall a :: a in acts ==> ByChecker(a)) && !Busy(Exec(s, [Check] + acts))
    ensures var t := Exec(s, [Check] + acts); var m := Contents(s);
      && clock.Keys == m.Keys && (forall r :: r in clock ==> s.now <= clock[r] <= t.now)
      && Contents(t) == Unfinished(m, {}, clock)
      && t.contestants == s.contestants - Finished(m, {}, clock)
      && t.snaps == s.snaps + taken
      && (forall r :: r in Finished(m, {}, clock) <==> exists k :: 0 <= k < |taken| && taken[k].run == r)
      && forall completed :: Reports(completed, taken) ==> OneSnapshotEach(completed, m, Finished(m, {}, clock))
  {
    var m := Contents(s);
    var s0 := Do(s, Check);
    assert ([Check] + acts)[1..] == acts;
    PointersKept(s, Check);
    LocksKept(s, Check);
    clock, taken := CheckRest(s0, acts);
    assert Contents(s0) == m && Remaining(s0) == m.Keys;
    assert Expired(m, clock) == Finished(m, {}, clock);
    assert m - Expired(m, clock) == Unfinished(m, {}, clock);
    forall completed | Reports(completed, taken) ensures OneSnapshotEach(completed, m, Finished(m, {}, clock)) {
      ReportsAreOneEach(completed, taken, m, clock);
    }
  }

  function RunsOf(taken: seq<Emitted>): set<string> {
    set k | 0 <= k < |taken| :: taken[k].run
  }

  lemma {:induction false} RunsCount(taken: seq<Emitted>)
    requires forall j, k :: 0 <= j < k < |taken| ==> taken[j].run != taken[k].run
    ensures |RunsOf(taken)| == |taken|
  {
    if taken == [] {
      assert RunsOf(taken) == {};
    } else {
      var p := taken[..|taken| - 1];
      RunsCount(p);
      assert RunsOf(taken) == RunsOf(p) + {taken[|taken| - 1].run};
    }
  }

  lemma {:induction false} ReportsAreOneEach(completed: seq<RunSnapshot>, taken: seq<Emitted>, m: map<string, Window>,
                                             clock: map<string, int>)
    requires OneEmittedEach(taken, m, clock) && Reports(completed, taken)
    ensures OneSnapshotEach(completed, m, Expired(m, clock))
  {
    RunsCount(taken);
    assert RunsOf(taken) == Expired(m, clock);
    forall r | r in Expired(m, clock) ensures HasSnapshot(completed, r, m[r]) {
      var k :| 0 <= k < |taken| && taken[k].run == r;
      assert IsSnapshotOf(completed[k], taken[k].run, taken[k].window);
    }
  }
}
