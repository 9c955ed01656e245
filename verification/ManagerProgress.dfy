/**
 Locks, deadlock and termination of the window manager's goroutines
 (apps/ingester/internal/window/window.go:72-161).
 */
module ManagerProgress {
  import opened WindowProtocol
  import opened Windows

  predicate WaitsForManager(s: State, t: Thread) {
    match t
    case Adder => s.adder.AWaitManager?
    case Setter => s.setter.SWaitManager?
    case Checker => s.checker.CWaitManager?
  }

  /** Locks are taken in one order only: manager, then one window. */
  lemma NoWindowHeldWhileWaiting(s: State, t: Thread, i: nat)
    requires Reachable(s) && WaitsForManager(s, t) && i < |s.cells|
    ensures s.cells[i].owner != Held(t)
  {
    ReachableInv(s);
    assert OwnerInv(s, i);
  }

  /** No reachable state is stuck: while any thread is inside an operation, some thread can step. */
  lemma NoDeadlock(s: State)
    requires Reachable(s) && Busy(s)
    ensures exists t: Thread, pick: string :: CanGo(s, t, pick)
  {
    ReachableInv(s);
    SomeoneCanGo(s);
  }

  lemma {:induction false} SomeoneCanGo(s: State)
    requires LockInv(s) && PointerInv(s) && Busy(s)
    ensures exists t: Thread, pick: string :: CanGo(s, t, pick)
  {
    if s.adder.AHoldManager? || s.adder.AHoldWindow? {
      assert CanGo(s, Adder, "");
    } else if s.setter.SHoldManager? || s.setter.SHoldWindow? {
      assert CanGo(s, Setter, "");
    } else {
      forall i | 0 <= i < |s.cells| ensures s.cells[i].owner == Nobody || s.checker.CHoldWindow? {
        assert OwnerInv(s, i);
        OneOfThree(s.cells[i].owner);
      }
      if s.checker.CHoldWindow? || s.checker.CWaitWindow? {
        assert CanGo(s, Checker, "");
      } else if s.checker.CScan? {
        var pick := if s.checker.todo == {} then "" else var r :| r in s.checker.todo; r;
        assert CanGo(s, Checker, pick);
      } else if !s.adder.AIdle? {
        assert CanGo(s, Adder, "");
      } else if !s.setter.SIdle? {
        assert CanGo(s, Setter, "");
      } else {
        assert CanGo(s, Checker, "");
      }
    }
  }

  /** An upper bound on the internal steps left in the operations under way. */
  function Work(s: State): nat {
    (match s.adder
     case AIdle => 0 case AHoldWindow(_, _) => 1 case AWaitWindow(_, _) => 2
     case AHoldManager(_) => 6 case AWaitManager(_) => 7) +
    (match s.setter
     case SIdle => 0 case SHoldWindow(_, _, _) => 1 case SWaitWindow(_, _, _) => 2
     case SHoldManager(_, _) => 3 case SWaitManager(_, _) => 4) +
    (match s.checker
     case CIdle => 0
     case CScan(todo) => 1 + 3 * |todo|
     case CHoldWindow(_, todo) => 2 + 3 * |todo|
     case CWaitWindow(_, todo) => 3 + 3 * |todo|
     case CWaitManager => 2 + 3 * |s.windows|)
  }

  lemma {:induction false} WorkDecreases(s: State, t: Thread, pick: string)
    requires LockInv(s) && PointerInv(s) && CanGo(s, t, pick)
    ensures Work(Do(s, Go(t, pick))) < Work(s)
  {
    match t
    case Adder => WorkDecreasesByAdder(s);
    case Setter => WorkDecreasesBySetter(s);
    case Checker => WorkDecreasesByChecker(s, pick);
  }

  lemma {:induction false} WorkDecreasesByAdder(s: State)
    requires CanGo(s, Adder, "")
    ensures Work(AdderStep(s)) < Work(s)
  {
    if s.adder.AHoldManager? && s.adder.e.runID !in s.windows {
      OneMoreKey(s.windows, s.adder.e.runID, |s.cells|);
    }
  }

  lemma {:induction false} WorkDecreasesBySetter(s: State)
    requires CanGo(s, Setter, "")
    ensures Work(SetterStep(s)) < Work(s)
  {
  }

  lemma {:induction false} WorkDecreasesByChecker(s: State, pick: string)
    requires CanGo(s, Checker, pick)
    ensures Work(CheckerStep(s, pick)) < Work(s)
  {
    SizeOfKeys(s.windows);
    if s.checker.CScan? && s.checker.todo != {} {
      assert |s.checker.todo - {pick}| == |s.checker.todo| - 1;
    }
  }

  lemma OneMoreKey(m: map<string, nat>, r: string, c: nat)
    requires r !in m
    ensures |m[r := c]| == |m| + 1
  {
    assert m[r := c].Keys == m.Keys + {r};
    SizeOfKeys(m);
    SizeOfKeys(m[r := c]);
  }

  lemma SizeOfKeys(m: map<string, nat>)
    ensures |m| == |m.Keys|
  {
  }

  /**
   Operations terminate: without new ones starting, at most `Work` steps are
   possible, and a schedule that cannot be extended has finished all of them.
   */
  lemma OperationsTerminate(s: State, acts: seq<Action>)
    requires Reachable(s) && Legal(s, acts) && forall a :: a in acts ==> a.Go? || a.Tick?
    ensures GoCount(acts) <= Work(s)
    ensures (forall t: Thread, pick: string :: !CanGo(Exec(s, acts), t, pick)) ==> !Busy(Exec(s, acts))
  {
    ReachableInv(s);
    OperationsFinish(s, acts);
  }

  lemma {:induction false} OperationsFinish(s: State, acts: seq<Action>)
    requires Inv(s) && Legal(s, acts) && forall a :: a in acts ==> a.Go? || a.Tick?
    ensures GoCount(acts) <= Work(s)
    ensures (forall t: Thread, pick: string :: !CanGo(Exec(s, acts), t, pick)) ==> !Busy(Exec(s, acts))
    decreases |acts|
  {
    if acts == [] {
      if Busy(s) { SomeoneCanGo(s); }
    } else {
      StepKeepsInv(s, acts[0]);
      if acts[0].Go? {
        WorkDecreases(s, acts[0].thread, acts[0].pick);
      } else {
        assert Work(Do(s, acts[0])) == Work(s);
      }
      OperationsFinish(Do(s, acts[0]), acts[1..]);
    }
  }

  function GoCount(acts: seq<Action>): nat {
    if acts == [] then 0 else (if acts[0].Go? then 1 else 0) + GoCount(acts[1..])
  }
}
