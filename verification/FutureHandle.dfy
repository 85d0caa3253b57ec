/** A cancellable task and its handle: one locked pair of a flag and a waker. */
module FutureHandle {
  import opened Wrappers

  /** Wakers are told apart by the poll that brought them. */
  type Waker = nat

  /** The pair both sides lock. */
  class Cell {
    var flag: bool
    var waker: Option<Waker>

    /** A set flag leaves no waker behind for anybody to forget. */
    ghost predicate Valid()
      reads this
    {
      flag ==> waker.None?
    }

    constructor ()
      ensures Valid() && !flag && waker.None?
    {
      flag, waker := false, None;
    }

    /** `FinisherFuture::poll`: ready when cancelled, otherwise remember whom to wake. */
    method Poll(cx: Waker) returns (ready: bool)
      requires Valid()
      modifies this
      ensures Valid()
      ensures (ready, State()) == PollCell(old(State()), cx)
    {
      if flag {
        ready := true;
      } else {
        waker := Some(cx);
        ready := false;
      }
    }

    /** The lock section of `FutureHandler::cancel`; the caller wakes what it returns. */
    method Cancel() returns (taken: Option<Waker>)
      requires Valid()
      modifies this
      ensures Valid() && flag
      ensures (taken, State()) == CancelCell(old(State()))
    {
      flag := true;
      taken := waker;
      waker := None;
    }

    ghost function State(): CellState
      reads this
    {
      CellState(flag, waker)
    }
  }

  datatype CellState = CellState(flag: bool, waker: Option<Waker>)

  function PollCell(c: CellState, cx: Waker): (bool, CellState) {
    if c.flag then (true, c) else (false, c.(waker := Some(cx)))
  }

  function CancelCell(c: CellState): (Option<Waker>, CellState) {
    (c.waker, CellState(true, None))
  }

  // ---- The task of a delayed message, and everybody who may cancel it ----

  datatype Winner = Cancelled | Timer

  /** The task polls the finisher first and the timer second; what it does then depends on who was ready. */
  datatype TaskPc =
    | Waiting
    | PolledFinisher(cx: Waker)
    | Won(winner: Winner)
    | Sending(winner: Winner)
    | Finished(winner: Winner)

  /** A call of `cancel` on some clone of the handle: the lock section, then the wake. */
  datatype CancelPc = Called | Holding(taken: Option<Waker>) | Returned

  /** `pending` is the poll that last returned Pending; `takenOut` are the wakers some cancel has taken to wake. */
  datatype System = System(cell: CellState, task: TaskPc, polls: nat, pending: Option<Waker>,
                           cancels: seq<CancelPc>, takenOut: set<Waker>, woken: set<Waker>,
                           onShutdown: bool, handed: nat, closed: bool)

  datatype Step =
    | PollFinisher
    | PollTimer(elapsed: bool)
    | Decide
    | Send
    | CancelLock(k: nat)
    | CancelWake(k: nat)
    | CloseQueue

  predicate Initial(s: System) {
    && s.cell == CellState(false, None) && s.task == Waiting && s.polls == 0 && s.pending.None?
    && (forall k | 0 <= k < |s.cancels| :: s.cancels[k] == Called)
    && s.takenOut == {} && s.woken == {} && s.handed == 0
  }

  predicate Enabled(s: System, step: Step) {
    match step
    case PollFinisher => s.task.Waiting?
    case PollTimer(_) => s.task.PolledFinisher?
    case Decide => s.task.Won?
    case Send => s.task.Sending?
    case CancelLock(k) => k < |s.cancels| && s.cancels[k] == Called
    case CancelWake(k) => k < |s.cancels| && s.cancels[k].Holding?
    case CloseQueue => true
  }

  function Do(s: System, step: Step): System
    requires Enabled(s, step)
  {
    match step
    case PollFinisher =>
      var (ready, cell) := PollCell(s.cell, s.polls);
      s.(cell := cell, polls := s.polls + 1, task := if ready then Won(Cancelled) else PolledFinisher(s.polls))
    case PollTimer(elapsed) =>
      if elapsed then s.(task := Won(Timer)) else s.(task := Waiting, pending := Some(s.task.cx))
    case Decide =>
      s.(task := if s.task.winner == Cancelled && !s.onShutdown then Finished(Cancelled) else Sending(s.task.winner))
    case Send =>
      s.(task := Finished(s.task.winner), handed := if s.closed then s.handed else s.handed + 1)
    case CancelLock(k) =>
      var (taken, cell) := CancelCell(s.cell);
      s.(cell := cell, cancels := s.cancels[k := Holding(taken)],
         takenOut := if taken.Some? then s.takenOut + {taken.value} else s.takenOut)
    case CancelWake(k) =>
      var taken := s.cancels[k].taken;
      s.(cancels := s.cancels[k := Returned], woken := if taken.Some? then s.woken + {taken.value} else s.woken)
    case CloseQueue => s.(closed := true)
  }

  ghost predicate IsRun(s: System, steps: seq<Step>)
    decreases |steps|, 0
  {
    steps == [] ||
    var last := |steps| - 1;
    IsRun(s, steps[..last]) && Enabled(After(s, steps[..last]), steps[last])
  }

  ghost function After(s: System, steps: seq<Step>): System
    requires IsRun(s, steps)
    decreases |steps|, 1
  {
    if steps == [] then s else
      var last := |steps| - 1;
      Do(After(s, steps[..last]), steps[last])
  }

  predicate HoldsTaken(s: System, w: Waker) {
    exists k :: 0 <= k < |s.cancels| && s.cancels[k] == Holding(Some(w))
  }

  /** Whether any cancel has had its lock section. */
  predicate SomeCancel(s: System) {
    exists k :: 0 <= k < |s.cancels| && s.cancels[k] != Called
  }

  ghost predicate Inv(s: System) {
    && (s.cell.flag ==> s.cell.waker.None?)
    && (s.cell.flag <==> SomeCancel(s))
    && (s.cell.waker.Some? ==> s.cell.waker.value < s.polls)
    && (s.pending.Some? ==> s.pending.value < s.polls)
    && (s.task.Waiting? && s.pending.Some? ==> s.cell.waker == s.pending || s.pending.value in s.takenOut)
    && (s.task.PolledFinisher? ==> s.cell.waker == Some(s.task.cx) || s.task.cx in s.takenOut)
    && (s.task.PolledFinisher? ==> s.task.cx < s.polls)
    && (forall w | w in s.takenOut :: w in s.woken || HoldsTaken(s, w))
    && (s.task == Won(Cancelled) || s.task == Sending(Cancelled) || s.task == Finished(Cancelled) ==> s.cell.flag)
    && (s.task == Sending(Cancelled) ==> s.onShutdown)
    && s.handed <= 1
    && (s.handed == 1 ==> s.task.Finished? && (s.task.winner == Timer || s.onShutdown))
    && (s.task.Finished? && (s.task.winner == Timer || s.onShutdown) ==> s.handed == 1 || s.closed)
  }

  lemma Preserved(s: System, step: Step)
    requires Inv(s) && Enabled(s, step)
    ensures Inv(Do(s, step))
  {
    match step
    case PollFinisher => PollFinisherPreserves(s);
    case PollTimer(elapsed) => PollTimerPreserves(s, elapsed);
    case Decide => DecidePreserves(s);
    case Send => SendPreserves(s);
    case CancelLock(k) => CancelLockPreserves(s, k);
    case CancelWake(k) => CancelWakePreserves(s, k);
    case CloseQueue => SameHolders(s, s.(closed := true));
  }

  /** Steps that leave the cancels alone leave alone who holds which waker. */
  lemma SameHolders(s: System, t: System)
    requires t.cancels == s.cancels
    ensures SomeCancel(t) <==> SomeCancel(s)
    ensures forall w :: HoldsTaken(t, w) <==> HoldsTaken(s, w)
  {
  }

  lemma PollFinisherPreserves(s: System)
    requires Inv(s) && Enabled(s, PollFinisher)
    ensures Inv(Do(s, PollFinisher))
  {
    SameHolders(s, Do(s, PollFinisher));
  }

  lemma PollTimerPreserves(s: System, elapsed: bool)
    requires Inv(s) && Enabled(s, PollTimer(elapsed))
    ensures Inv(Do(s, PollTimer(elapsed)))
  {
    SameHolders(s, Do(s, PollTimer(elapsed)));
  }

  lemma DecidePreserves(s: System)
    requires Inv(s) && Enabled(s, Decide)
    ensures Inv(Do(s, Decide))
  {
    SameHolders(s, Do(s, Decide));
  }

  lemma SendPreserves(s: System)
    requires Inv(s) && Enabled(s, Send)
    ensures Inv(Do(s, Send))
  {
    SameHolders(s, Do(s, Send));
  }

  lemma CancelWakePreserves(s: System, k: nat)
    requires Inv(s) && Enabled(s, CancelWake(k))
    ensures Inv(Do(s, CancelWake(k)))
  {
    var t := Do(s, CancelWake(k));
    assert s.cancels[k] != Called && t.cancels[k] != Called;
    forall w | w in t.takenOut ensures w in t.woken || HoldsTaken(t, w) {
      if w !in s.woken {
        var j :| 0 <= j < |s.cancels| && s.cancels[j] == Holding(Some(w));
        assert j == k || t.cancels[j] == Holding(Some(w));
      }
    }
  }

  lemma CancelLockPreserves(s: System, k: nat)
    requires Inv(s) && Enabled(s, CancelLock(k))
    ensures Inv(Do(s, CancelLock(k)))
  {
    var t := Do(s, CancelLock(k));
    assert t.cancels[k] == Holding(s.cell.waker) && t.cancels[k] != Called;
    forall w | w in t.takenOut ensures w in t.woken || HoldsTaken(t, w) {
      if w in s.takenOut && w !in s.woken {
        var j :| 0 <= j < |s.cancels| && s.cancels[j] == Holding(Some(w));
        assert t.cancels[j] == Holding(Some(w));
      }
    }
  }

  lemma {:induction false} EveryRun(s: System, steps: seq<Step>)
    requires Initial(s) && IsRun(s, steps)
    ensures Inv(After(s, steps))
    ensures After(s, steps).onShutdown == s.onShutdown
  {
    if steps != [] {
      var last := |steps| - 1;
      EveryRun(s, steps[..last]);
      Preserved(After(s, steps[..last]), steps[last]);
    }
  }

  /** Once any cancel has had the lock, no waker stays in the cell, and a task that is waiting has been woken for
      its last poll, or will be by a cancel that holds its waker. */
  lemma NoCancelIsLost(s: System, steps: seq<Step>)
    requires Initial(s) && IsRun(s, steps)
    ensures var e := After(s, steps);
            SomeCancel(e) ==>
              && e.cell == CellState(true, None)
              && (e.task.Waiting? && e.pending.Some? ==> e.pending.value in e.woken || HoldsTaken(e, e.pending.value))
  {
    EveryRun(s, steps);
  }

  /** A cancelled task that is polled again stops waiting, whatever else happens in between. */
  lemma NextPollSeesCancel(s: System, steps: seq<Step>)
    requires Initial(s) && IsRun(s, steps)
    requires SomeCancel(After(s, steps)) && After(s, steps).task.Waiting?
    ensures Do(After(s, steps), PollFinisher).task == Won(Cancelled)
  {
    EveryRun(s, steps);
  }

  /** The message reaches an open queue at most once: once if the timer won or delayed messages are wanted at
      shutdown, and not at all if it was cancelled and they are not. */
  lemma DelayedMessageHandedOnce(s: System, steps: seq<Step>)
    requires Initial(s) && IsRun(s, steps)
    ensures var e := After(s, steps);
            && e.handed <= 1
            && (e.task.Finished? && !e.closed ==>
                  e.handed == if e.task.winner == Timer || s.onShutdown then 1 else 0)
            && (e.handed == 1 ==> e.task.Finished? && (e.task.winner == Timer || s.onShutdown))
            && (e.task.Finished? && e.task.winner == Cancelled ==> SomeCancel(e))
  {
    EveryRun(s, steps);
  }

  predicate WonBy(task: TaskPc, winner: Winner) {
    task == Won(winner) || task == Sending(winner) || task == Finished(winner)
  }

  /** The timer wins exactly if it was found elapsed at some poll: a cancel that comes in after the finisher was
      looked at does not change that. */
  lemma {:induction false} ElapsedTimerWins(s: System, steps: seq<Step>)
    requires Initial(s) && IsRun(s, steps)
    ensures PollTimer(true) in steps <==> WonBy(After(s, steps).task, Timer)
  {
    if steps != [] {
      ElapsedTimerWins(s, steps[..|steps| - 1]);
      WinnerStep(After(s, steps[..|steps| - 1]), steps[|steps| - 1]);
    }
  }

  lemma WinnerStep(s: System, step: Step)
    requires Enabled(s, step)
    ensures WonBy(Do(s, step).task, Timer) <==> WonBy(s.task, Timer) || step == PollTimer(true)
  {
  }

  /** The message in the end: handed to an open queue exactly if the timer was found elapsed or delayed messages are
      wanted at shutdown. */
  lemma HandedIfElapsedOrWanted(s: System, steps: seq<Step>)
    requires Initial(s) && IsRun(s, steps)
    requires After(s, steps).task.Finished? && !After(s, steps).closed
    ensures After(s, steps).handed == if PollTimer(true) in steps || s.onShutdown then 1 else 0
  {
    EveryRun(s, steps);
    ElapsedTimerWins(s, steps);
  }

  /** The queue is closed exactly if somebody has closed it. */
  lemma {:induction false} ClosedByClosing(s: System, steps: seq<Step>)
    requires IsRun(s, steps)
    ensures After(s, steps).closed <==> s.closed || CloseQueue in steps
  {
    if steps != [] {
      ClosedByClosing(s, steps[..|steps| - 1]);
    }
  }

  /** A closed queue takes nothing more, and stays closed. */
  lemma {:induction false} ClosedTakesNothing(s: System, steps: seq<Step>)
    requires s.closed && IsRun(s, steps)
    ensures After(s, steps).closed && After(s, steps).handed == s.handed
  {
    if steps != [] {
      ClosedTakesNothing(s, steps[..|steps| - 1]);
    }
  }

  /** The task can always go on until it has finished, and every cancel until it has returned. */
  lemma NobodyIsStuck(s: System)
    ensures s.task.Finished? || Enabled(s, PollFinisher) || Enabled(s, PollTimer(false))
         || Enabled(s, Decide) || Enabled(s, Send)
    ensures forall k: nat | k < |s.cancels| && s.cancels[k] != Returned ::
              Enabled(s, CancelLock(k)) || Enabled(s, CancelWake(k))
  {
  }
}
