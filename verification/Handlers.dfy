/** The list of cancellation handles, between `push_handler` calls and `shutdown` calls.

A push first looks at the marker and only then takes the lock, so it can slip in behind a shutdown that has
already walked the list. The model says exactly which handles escape that way.
*/
module Handlers {

  datatype PushPc = Before | Passed | Refused | Extended
  datatype ShutdownPc = Unstarted | MarkerSet | Cancelling(k: nat) | Completed

  /** One call of `push_handler` with `count` handles, and the times of its check and of its lock section. */
  datatype Push = Push(count: nat, pc: PushPc, checkedAt: nat, lockedAt: nat)

  /** One call of `shutdown`, the times of its marking and of taking the lock, and what it has cancelled. */
  datatype Shutdown = Shutdown(pc: ShutdownPc, markedAt: nat, lockedAt: nat, cancelled: set<Handle>)

  /** The `index`-th handle of the `push`-th call. */
  datatype Handle = Handle(push: nat, index: nat)

  datatype System = System(now: nat, marked: bool, firstMark: nat, list: seq<Handle>, locked: bool, owner: nat,
                           pushes: seq<Push>, shutdowns: seq<Shutdown>)

  datatype Step = Check(p: nat) | Extend(p: nat) | SetMarker(t: nat) | TakeLock(t: nat) | CancelNext(t: nat)

  predicate Initial(s: System) {
    && !s.marked && s.list == [] && !s.locked
    && (forall p | 0 <= p < |s.pushes| :: s.pushes[p].pc == Before)
    && (forall t | 0 <= t < |s.shutdowns| :: s.shutdowns[t].pc == Unstarted && s.shutdowns[t].cancelled == {})
  }

  predicate Enabled(s: System, step: Step) {
    match step
    case Check(p) => p < |s.pushes| && s.pushes[p].pc == Before
    case Extend(p) => p < |s.pushes| && s.pushes[p].pc == Passed && !s.locked
    case SetMarker(t) => t < |s.shutdowns| && s.shutdowns[t].pc == Unstarted
    case TakeLock(t) => t < |s.shutdowns| && s.shutdowns[t].pc == MarkerSet && !s.locked
    case CancelNext(t) => t < |s.shutdowns| && s.shutdowns[t].pc.Cancelling?
  }

  function Do(s: System, step: Step): System
    requires Enabled(s, step)
  {
    var s := s.(now := s.now + 1);
    match step
    case Check(p) =>
      var push := s.pushes[p].(pc := if s.marked then Refused else Passed, checkedAt := s.now);
      s.(pushes := s.pushes[p := push])
    case Extend(p) =>
      var push := s.pushes[p].(pc := Extended, lockedAt := s.now);
      s.(pushes := s.pushes[p := push], list := s.list + seq(push.count, j requires j >= 0 => Handle(p, j)))
    case SetMarker(t) =>
      var shutdown := s.shutdowns[t].(pc := MarkerSet, markedAt := s.now);
      s.(shutdowns := s.shutdowns[t := shutdown], marked := true, firstMark := if s.marked then s.firstMark else s.now)
    case TakeLock(t) =>
      var shutdown := s.shutdowns[t].(pc := Cancelling(0), lockedAt := s.now);
      s.(shutdowns := s.shutdowns[t := shutdown], locked := true, owner := t)
    case CancelNext(t) =>
      var k := s.shutdowns[t].pc.k;
      if k < |s.list| then
        var shutdown := s.shutdowns[t].(pc := Cancelling(k + 1), cancelled := s.shutdowns[t].cancelled + {s.list[k]});
        s.(shutdowns := s.shutdowns[t := shutdown])
      else
        s.(shutdowns := s.shutdowns[t := s.shutdowns[t].(pc := Completed)], locked := false)
  }

  ghost predicate IsRun(s: System, steps: seq<Step>)
    decreases |steps|, 0
  {
    steps == [] ||
    var last := |steps| - 1;
    IsRun(s, steps[..last]) && Enabled(After(s, steps[..last]), steps[last])
  }

  ghost function After(s: System, steps: seq<Step>): System
    requires IsRun(s, steps)
    decreases |steps|, 1
  {
    if steps == [] then s else
      var last := |steps| - 1;
      Do(After(s, steps[..last]), steps[last])
  }

  /** The handle belongs to a push that has had its lock section. */
  predicate Listed(s: System, h: Handle) {
    h.push < |s.pushes| && s.pushes[h.push].pc == Extended && h.index < s.pushes[h.push].count
  }

  predicate PushOk(s: System, push: Push) {
    && (push.pc == Passed || push.pc == Extended ==> push.checkedAt <= s.now && (s.marked ==> push.checkedAt < s.firstMark))
    && (push.pc == Refused ==> s.marked && s.firstMark < push.checkedAt)
    && (push.pc == Extended ==> push.checkedAt < push.lockedAt <= s.now)
  }

  predicate ShutdownOk(s: System, t: nat)
    requires t < |s.shutdowns|
  {
    var shutdown := s.shutdowns[t];
    && (shutdown.pc != Unstarted ==> s.marked && s.firstMark <= shutdown.markedAt <= s.now)
    && (shutdown.pc.Cancelling? <==> s.locked && s.owner == t)
    && (shutdown.pc.Cancelling? || shutdown.pc == Completed ==> shutdown.markedAt < shutdown.lockedAt <= s.now)
    && (shutdown.pc.Cancelling? ==> shutdown.pc.k <= |s.list|)
  }

  /** While the list is walked its first `k` entries are cancelled; nothing was added since the lock was taken. */
  ghost predicate WalkOk(s: System, t: nat)
    requires t < |s.shutdowns|
  {
    var shutdown := s.shutdowns[t];
    match shutdown.pc
    case Cancelling(k) =>
      && k <= |s.list|
      && (forall h :: h in shutdown.cancelled <==> h in s.list[..k])
      && (forall h :: Listed(s, h) ==> s.pushes[h.push].lockedAt < shutdown.lockedAt)
    case Completed =>
      && (forall h :: h in shutdown.cancelled <==> Listed(s, h) && s.pushes[h.push].lockedAt < shutdown.lockedAt)
      && (forall h :: Listed(s, h) ==> s.pushes[h.push].lockedAt != shutdown.lockedAt)
    case _ => shutdown.cancelled == {}
  }

  /** Whether any shutdown has set the marker. */
  predicate SomeMark(s: System) {
    exists t :: 0 <= t < |s.shutdowns| && s.shutdowns[t].pc != Unstarted
  }

  ghost predicate Inv(s: System) {
    && (forall p | 0 <= p < |s.pushes| :: PushOk(s, s.pushes[p]))
    && (s.marked ==> s.firstMark <= s.now)
    && (s.marked <==> SomeMark(s))
    && (forall t: nat | t < |s.shutdowns| :: ShutdownOk(s, t))
    && (forall h :: h in s.list <==> Listed(s, h))
    && (s.locked ==> s.owner < |s.shutdowns|)
    && (forall t: nat | t < |s.shutdowns| :: WalkOk(s, t))
  }

  lemma Preserved(s: System, step: Step)
    requires Inv(s) && Enabled(s, step)
    ensures Inv(Do(s, step))
  {
    match step
    case Check(p) => CheckPreserves(s, p);
    case Extend(p) => ExtendPreserves(s, p);
    case SetMarker(t) => MarkPreserves(s, t);
    case TakeLock(t) => LockPreserves(s, t);
    case CancelNext(t) => CancelPreserves(s, t);
  }

  lemma CheckPreserves(s: System, p: nat)
    requires Inv(s) && Enabled(s, Check(p))
    ensures Inv(Do(s, Check(p)))
  {
    var t := Do(s, Check(p));
    assert forall h :: Listed(t, h) <==> Listed(s, h);
    assert forall h | Listed(s, h) :: t.pushes[h.push] == s.pushes[h.push];
    forall u: nat | u < |t.shutdowns| ensures WalkOk(t, u) && ShutdownOk(t, u) {
      assert WalkOk(s, u) && ShutdownOk(s, u);
    }
  }

  lemma MarkPreserves(s: System, t: nat)
    requires Inv(s) && Enabled(s, SetMarker(t))
    ensures Inv(Do(s, SetMarker(t)))
  {
    var after := Do(s, SetMarker(t));
    assert forall h :: Listed(after, h) <==> Listed(s, h);
    assert after.shutdowns[t].pc != Unstarted;
    assert forall u | 0 <= u < |s.shutdowns| && u != t :: after.shutdowns[u] == s.shutdowns[u];
    forall u: nat | u < |after.shutdowns| ensures WalkOk(after, u) && ShutdownOk(after, u) {
      assert WalkOk(s, u) && ShutdownOk(s, u);
    }
    assert forall p | 0 <= p < |s.pushes| :: PushOk(s, s.pushes[p]);
  }

  lemma LockPreserves(s: System, t: nat)
    requires Inv(s) && Enabled(s, TakeLock(t))
    ensures Inv(Do(s, TakeLock(t)))
  {
    var after := Do(s, TakeLock(t));
    assert forall h :: Listed(after, h) <==> Listed(s, h);
    assert after.shutdowns[t].pc != Unstarted;
    assert forall u | 0 <= u < |s.shutdowns| && u != t :: after.shutdowns[u] == s.shutdowns[u];
    forall u: nat | u < |after.shutdowns| ensures WalkOk(after, u) && ShutdownOk(after, u) {
      assert WalkOk(s, u) && ShutdownOk(s, u);
    }
  }

  lemma CancelPreserves(s: System, t: nat)
    requires Inv(s) && Enabled(s, CancelNext(t))
    ensures Inv(Do(s, CancelNext(t)))
  {
    var after := Do(s, CancelNext(t));
    assert ShutdownOk(s, t) && WalkOk(s, t);
    assert forall h :: Listed(after, h) <==> Listed(s, h);
    var k := s.shutdowns[t].pc.k;
    if k < |s.list| {
      assert s.list[..k + 1] == s.list[..k] + [s.list[k]];
    } else {
      assert s.list[..k] == s.list;
    }
    assert after.shutdowns[t].pc != Unstarted;
    assert forall u | 0 <= u < |s.shutdowns| && u != t :: after.shutdowns[u] == s.shutdowns[u];
    forall u: nat | u < |after.shutdowns| ensures WalkOk(after, u) && ShutdownOk(after, u) {
      assert WalkOk(s, u) && ShutdownOk(s, u);
    }
  }

  lemma ExtendPreserves(s: System, p: nat)
    requires Inv(s) && Enabled(s, Extend(p))
    ensures Inv(Do(s, Extend(p)))
  {
    var t := Do(s, Extend(p));
    var added := seq(s.pushes[p].count, j requires j >= 0 => Handle(p, j));
    assert forall h :: Listed(t, h) <==> Listed(s, h) || (h.push == p && h.index < s.pushes[p].count);
    forall h ensures h in added <==> h.push == p && h.index < s.pushes[p].count {
      if h.push == p && h.index < s.pushes[p].count {
        assert added[h.index] == h;
      }
    }
    forall u: nat | u < |t.shutdowns| ensures WalkOk(t, u) && ShutdownOk(t, u) {
      assert WalkOk(s, u) && ShutdownOk(s, u);
    }
  }

  lemma {:induction false} EveryRun(s: System, steps: seq<Step>)
    requires Initial(s) && IsRun(s, steps)
    ensures Inv(After(s, steps))
  {
    if steps != [] {
      var last := |steps| - 1;
      EveryRun(s, steps[..last]);
      Preserved(After(s, steps[..last]), steps[last]);
    }
  }

  /** After a completed shutdown, a handle in the list has been cancelled by it exactly when its push had the lock
      first; and a push that had the lock afterwards had looked at the marker before anybody set it. */
  lemma CancelledExactlyIfLockedFirst(s: System, steps: seq<Step>, t: nat, h: Handle)
    requires Initial(s) && IsRun(s, steps)
    requires var e := After(s, steps); t < |e.shutdowns| && e.shutdowns[t].pc == Completed && h in e.list
    ensures var e := After(s, steps);
            && h.push < |e.pushes|
            && var push, shutdown := e.pushes[h.push], e.shutdowns[t];
            && (h in shutdown.cancelled <==> push.lockedAt < shutdown.lockedAt)
            && (h !in shutdown.cancelled <==>
                  push.checkedAt < e.firstMark <= shutdown.markedAt < shutdown.lockedAt < push.lockedAt)
  {
    EveryRun(s, steps);
    var e := After(s, steps);
    assert Listed(e, h) && PushOk(e, e.pushes[h.push]) && ShutdownOk(e, t) && WalkOk(e, t);
  }

  /** A push that looks at the marker after it was set adds nothing. */
  lemma LateChecksAddNothing(s: System, steps: seq<Step>, h: Handle)
    requires Initial(s) && IsRun(s, steps)
    requires h in After(s, steps).list && After(s, steps).marked
    ensures h.push < |After(s, steps).pushes|
    ensures After(s, steps).pushes[h.push].checkedAt < After(s, steps).firstMark
  {
    EveryRun(s, steps);
    assert Listed(After(s, steps), h);
  }

  /** A push that has looked is refused exactly if some shutdown had set the marker before; and once it is done, all
      its handles are in the list, or none, accordingly. */
  lemma ListedExactlyIfCheckedFirst(s: System, steps: seq<Step>, p: nat, j: nat)
    requires Initial(s) && IsRun(s, steps) && p < |After(s, steps).pushes|
    requires var push := After(s, steps).pushes[p];
             (push.pc == Extended || push.pc == Refused) && j < push.count
    ensures var e := After(s, steps);
            && (Handle(p, j) in e.list <==> !SomeMark(e) || e.pushes[p].checkedAt < e.firstMark)
            && (Handle(p, j) !in e.list <==> SomeMark(e) && e.firstMark < e.pushes[p].checkedAt)
            && (Handle(p, j) in e.list <==> e.pushes[p].pc == Extended)
  {
    EveryRun(s, steps);
    var e := After(s, steps);
    assert PushOk(e, e.pushes[p]);
    assert Handle(p, j) in e.list <==> Listed(e, Handle(p, j));
  }

  lemma {:induction false} RunAppend(s: System, steps: seq<Step>, step: Step)
    requires IsRun(s, steps) && Enabled(After(s, steps), step)
    ensures IsRun(s, steps + [step]) && After(s, steps + [step]) == Do(After(s, steps), step)
  {
    assert (steps + [step])[..|steps|] == steps;
  }

  /** Not every handle of the list is cancelled by a completed shutdown: this run leaves one behind. */
  lemma AHandleEscapes() returns (s: System, steps: seq<Step>)
    ensures Initial(s) && IsRun(s, steps)
    ensures var e := After(s, steps);
            && |e.shutdowns| == 1 && e.shutdowns[0].pc == Completed
            && Handle(0, 0) in e.list && Handle(0, 0) !in e.shutdowns[0].cancelled
  {
    s := System(0, false, 0, [], false, 0, [Push(1, Before, 0, 0)], [Shutdown(Unstarted, 0, 0, {})]);
    steps := [];
    RunAppend(s, steps, Check(0));
    steps := steps + [Check(0)];
    RunAppend(s, steps, SetMarker(0));
    steps := steps + [SetMarker(0)];
    RunAppend(s, steps, TakeLock(0));
    steps := steps + [TakeLock(0)];
    RunAppend(s, steps, CancelNext(0));
    steps := steps + [CancelNext(0)];
    var before := After(s, steps);
    RunAppend(s, steps, Extend(0));
    steps := steps + [Extend(0)];
    assert After(s, steps).list[0] == Handle(0, 0);
  }
}
