/** What every run of the contexts keeps: the order of the hooks, the acknowledged closes, the count. */
module LifecycleRuns {
  import opened Ranges
  import opened Lifecycle

  ghost predicate IsRun(s: System, steps: seq<Step>)
    decreases |steps|, 0
  {
    steps == [] ||
    var last := |steps| - 1;
    IsRun(s, steps[..last]) && Enabled(After(s, steps[..last]), steps[last])
  }

  ghost function After(s: System, steps: seq<Step>): System
    requires IsRun(s, steps)
    decreases |steps|, 1
  {
    if steps == [] then s else
      var last := |steps| - 1;
      Do(After(s, steps[..last]), steps[last])
  }

  // ---- The history of one context ----

  /** Between lives, in its loop, past an acknowledged close, out of the loop for good, stopped. */
  datatype Phase = Idle | Up | Acked | Retired | Over | Broken

  function NextPhase(p: Phase, e: Event): Phase {
    match (p, e)
    case (Idle, OnStart) => Up
    case (Up, Handle(_)) => Up
    case (Up, Ack(_)) => Acked
    case (Up, LeaveLoop) => Idle
    case (Acked, LeaveLoop) => Retired
    case (Idle, OnStop) => Over
    case (Retired, OnStop) => Over
    case _ => Broken
  }

  function PhaseOf(trace: seq<Event>): Phase {
    if trace == [] then Idle else NextPhase(PhaseOf(trace[..|trace| - 1]), trace[|trace| - 1])
  }

  function Starts(trace: seq<Event>): nat {
    if trace == [] then 0 else Starts(trace[..|trace| - 1]) + if trace[|trace| - 1] == OnStart then 1 else 0
  }

  /** Where the history of a context must be, given where its code is. */
  function Expected(c: Context): Phase {
    match c.pc
    case Starting => Idle
    case IncLoad => Up
    case IncCas(_) => Up
    case Receiving => Up
    case Handling(_) => Up
    case Stopped => Over
    case _ => if c.manual then Retired else Idle
  }

  predicate HistoryOk(c: Context) {
    && PhaseOf(c.trace) == Expected(c)
    && Starts(c.trace) == c.generation + (if c.pc.Starting? then 0 else 1)
    && (c.manual ==> Leaving(c.pc) || PastDec(c.pc))
  }

  lemma PhaseAppend(trace: seq<Event>, e: Event)
    ensures PhaseOf(trace + [e]) == NextPhase(PhaseOf(trace), e)
    ensures Starts(trace + [e]) == Starts(trace) + if e == OnStart then 1 else 0
  {
    assert (trace + [e])[..|trace|] == trace;
  }

  /** A step that logs `e` keeps the history in order when the automaton allows it. */
  lemma LogKeeps(c: Context, e: Event, d: Context)
    requires HistoryOk(c) && d.trace == c.trace + [e]
    requires NextPhase(Expected(c), e) == Expected(d)
    requires c.generation + (if c.pc.Starting? then 0 else 1) + (if e == OnStart then 1 else 0)
          == d.generation + (if d.pc.Starting? then 0 else 1)
    requires d.manual ==> Leaving(d.pc) || PastDec(d.pc)
    ensures HistoryOk(d)
  {
    PhaseAppend(c.trace, e);
  }

  lemma SilentKeeps(c: Context, d: Context)
    requires HistoryOk(c) && d.trace == c.trace && Expected(d) == Expected(c)
    requires c.generation + (if c.pc.Starting? then 0 else 1) == d.generation + (if d.pc.Starting? then 0 else 1)
    requires d.manual ==> Leaving(d.pc) || PastDec(d.pc)
    ensures HistoryOk(d)
  {
  }

  lemma AckKeeps(c: Context, d: Context)
    requires HistoryOk(c) && c.pc.Handling?
    requires d.trace == c.trace + [Ack(c.generation)] + [LeaveLoop]
    requires d.pc.DecLoad? && d.manual && d.generation == c.generation
    ensures HistoryOk(d)
  {
    PhaseAppend(c.trace, Ack(c.generation));
    PhaseAppend(c.trace + [Ack(c.generation)], LeaveLoop);
  }

  lemma BeginKeeps(c: Context, origin: Origin, msg: Message)
    requires HistoryOk(c) && c.pc.Receiving?
    ensures HistoryOk(Begin(c, origin, msg))
  {
    if msg.Work? {
      LogKeeps(c, Handle(msg), Begin(c, origin, msg));
    }
  }

  lemma QuietStep(s: System, c: Context, act: Act)
    requires c.pc.IncLoad? || c.pc.IncCas? || c.pc.DecLoad? || c.pc.DecCas? || c.pc.Decided? || c.pc.Stopped?
    requires c.pc.IncLoad? || c.pc.IncCas? ==> !c.manual
    ensures var d := Advance(s, c, act).context;
            && d.trace == c.trace && Expected(d) == Expected(c)
            && c.generation + (if c.pc.Starting? then 0 else 1) == d.generation + (if d.pc.Starting? then 0 else 1)
            && (d.manual ==> Leaving(d.pc) || PastDec(d.pc))
  {
  }

  lemma HistoryLocal(s: System, step: Step)
    requires Enabled(s, step) && step.Run? && HistoryOk(s.contexts[step.i])
    ensures HistoryOk(Advance(s, s.contexts[step.i], step.act).context)
  {
    var c, act := s.contexts[step.i], step.act;
    var d := Advance(s, c, act).context;
    if !c.pc.Starting? && !c.pc.Receiving? && !c.pc.Handling? && !c.pc.Stopping? {
      QuietStep(s, c, act);
      SilentKeeps(c, d);
    } else {
      LoudStep(s, step);
    }
  }

  lemma LoudStep(s: System, step: Step)
    requires Enabled(s, step) && step.Run? && HistoryOk(s.contexts[step.i])
    requires var pc := s.contexts[step.i].pc; pc.Starting? || pc.Receiving? || pc.Handling? || pc.Stopping?
    ensures HistoryOk(Advance(s, s.contexts[step.i], step.act).context)
  {
    var c := s.contexts[step.i];
    var d := Advance(s, c, step.act).context;
    match c.pc
    case Starting => LogKeeps(c, OnStart, d);
    case Stopping => LogKeeps(c, OnStop, d);
    case Receiving =>
      if step.act == TakeShared {
        BeginKeeps(c, Shared, s.queue[0]);
      } else if step.act == TakeOwn {
        BeginKeeps(c, Own, c.own[0]);
      } else {
        LogKeeps(c, LeaveLoop, d);
      }
    case Handling(_) =>
      if step.act == AckArrives {
        AckKeeps(c, d);
      } else {
        SilentKeeps(c, d);
      }
  }

  lemma HistoryStep(s: System, step: Step)
    requires Enabled(s, step)
    requires forall i | 0 <= i < |s.contexts| :: HistoryOk(s.contexts[i])
    ensures forall i | 0 <= i < |s.contexts| :: HistoryOk(Do(s, step).contexts[i])
  {
    if step.Run? {
      HistoryLocal(s, step);
    }
  }

  /** `on_stop` is the last thing a context does, so it does it at most once. */
  lemma {:induction false} StopIsLast(trace: seq<Event>, k: nat)
    requires PhaseOf(trace) != Broken && k < |trace| && trace[k] == OnStop
    ensures k == |trace| - 1
  {
    var last := |trace| - 1;
    if k < last {
      assert trace[..last][k] == OnStop;
      StopIsLast(trace[..last], k);
    }
  }

  /** A message is handled after an `on_start`, with nothing but other messages in between. */
  lemma {:induction false} HandlesAfterStart(trace: seq<Event>, k: nat)
    requires PhaseOf(trace) != Broken && k < |trace| && trace[k].Handle?
    ensures exists j: nat :: j < k && trace[j] == OnStart && forall m | j < m < k :: trace[m].Handle?
  {
    var last := |trace| - 1;
    if k < last {
      HandlesAfterStart(trace[..last], k);
      var j: nat :| j < k && trace[..last][j] == OnStart && forall m | j < m < k :: trace[..last][m].Handle?;
      assert trace[j] == OnStart && forall m | j < m < k :: trace[m] == trace[..last][m];
    } else {
      UpSince(trace[..last]);
    }
  }

  lemma {:induction false} UpSince(trace: seq<Event>)
    requires PhaseOf(trace) == Up
    ensures exists j: nat :: j < |trace| && trace[j] == OnStart && forall m | j < m < |trace| :: trace[m].Handle?
  {
    var last := |trace| - 1;
    if trace[last] != OnStart {
      UpSince(trace[..last]);
      var j: nat :| j < last && trace[..last][j] == OnStart && forall m | j < m < last :: trace[..last][m].Handle?;
      assert trace[j] == OnStart && forall m | j < m < last :: trace[m] == trace[..last][m];
    }
  }

  /** After it acknowledged a close, a context only leaves its loop and stops. */
  lemma {:induction false} NothingAfterAck(trace: seq<Event>, k: nat)
    requires PhaseOf(trace) != Broken && k < |trace| && trace[k].Ack?
    ensures PhaseOf(trace) in {Acked, Retired, Over}
    ensures forall m | k < m < |trace| :: trace[m] == LeaveLoop || trace[m] == OnStop
  {
    var last := |trace| - 1;
    if k < last {
      NothingAfterAck(trace[..last], k);
      forall m | k < m < |trace| ensures trace[m] == LeaveLoop || trace[m] == OnStop {
        if m < last {
          assert trace[..last][m] == trace[m];
        }
      }
    }
  }

  // ---- Acknowledged closes ----

  ghost function AckIds(s: System): set<nat> {
    set k | 0 <= k < |s.acks| :: s.acks[k].id
  }

  ghost predicate AckInv(s: System) {
    && (forall j, k | 0 <= j < k < |s.acks| :: s.acks[j].id != s.acks[k].id)
    && (forall k | 0 <= k < |s.acks| ::
          && s.acks[k].id < |s.contexts|
          && s.contexts[s.acks[k].id].manual
          && s.contexts[s.acks[k].id].generation == s.acks[k].generation)
    && (forall i: nat | i < |s.contexts| && s.contexts[i].manual :: i in AckIds(s))
  }

  /** Both queues of the context are closed and drained, which they then stay. */
  predicate Drained(s: System, c: Context) {
    s.closed && s.queue == [] && c.ownClosed && c.own == []
  }

  /** A context leaves its loop because a close was acknowledged, or because there is nothing left to come. */
  predicate OpenOk(s: System, c: Context) {
    !c.manual && (Leaving(c.pc) || PastDec(c.pc) || c.generation > 0) ==> Drained(s, c)
  }

  predicate OpenInv(s: System) {
    forall i | 0 <= i < |s.contexts| :: OpenOk(s, s.contexts[i])
  }

  /** A context fails to decrement only under the marker, and stops only for one of three reasons. */
  predicate StopOk(s: System, c: Context) {
    && (c.pc == Decided(false) ==> Marked(s.word))
    && (c.pc.Stopping? || c.pc.Stopped? ==> Marked(s.word) || !s.restartOnErr || c.manual)
  }

  predicate StopInv(s: System) {
    forall i | 0 <= i < |s.contexts| :: StopOk(s, s.contexts[i])
  }

  lemma StopStep(s: System, step: Step)
    requires Enabled(s, step) && CounterInv(s) && StopInv(s)
    ensures StopInv(Do(s, step))
  {
    var t := Do(s, step);
    if Marked(s.word) {
      MarkedWordIsFrozen(s, step);
    }
    forall i | 0 <= i < |t.contexts| ensures StopOk(t, t.contexts[i]) {
      assert StopOk(s, s.contexts[i]) && CounterOk(s.word, s.contexts[i]);
    }
  }

  lemma AckAdvance(s: System, step: Step)
    requires Enabled(s, step) && step.Run? && HistoryOk(s.contexts[step.i])
    ensures var c := s.contexts[step.i];
            var e := Advance(s, c, step.act);
            if e.acked then !c.manual && e.context.manual && e.context.generation == c.generation
            else e.context.manual == c.manual && (c.manual ==> e.context.generation == c.generation)
  {
  }

  lemma AckStep(s: System, step: Step)
    requires Enabled(s, step) && AckInv(s)
    requires forall i | 0 <= i < |s.contexts| :: HistoryOk(s.contexts[i])
    ensures AckInv(Do(s, step))
  {
    var t := Do(s, step);
    if step.Run? {
      AckAdvance(s, step);
    }
    hide Advance, HistoryOk, AckInv;
    if step.Run? && Advance(s, s.contexts[step.i], step.act).acked {
      AckGrows(s, t, step.i);
    } else {
      AckStays(s, t);
    }
  }

  lemma AckGrows(s: System, t: System, i: nat)
    requires AckInv(s)
    requires i < |s.contexts| == |t.contexts| && !s.contexts[i].manual && t.contexts[i].manual
    requires forall j | 0 <= j < |s.contexts| && j != i :: t.contexts[j] == s.contexts[j]
    requires t.acks == s.acks + [Acknowledgement(i, t.contexts[i].generation)]
    ensures AckInv(t)
  {
    assert i !in AckIds(s);
    assert t.acks[|s.acks|].id == i;
    assert forall k | 0 <= k < |s.acks| :: t.acks[k] == s.acks[k] && s.acks[k].id in AckIds(s);
    assert AckIds(t) == AckIds(s) + {i};
  }

  lemma AckStays(s: System, t: System)
    requires AckInv(s)
    requires |t.contexts| == |s.contexts| && t.acks == s.acks
    requires forall i | 0 <= i < |s.contexts| ::
               && t.contexts[i].manual == s.contexts[i].manual
               && (s.contexts[i].manual ==> t.contexts[i].generation == s.contexts[i].generation)
    ensures AckInv(t)
  {
    assert AckIds(t) == AckIds(s);
  }

  lemma OpenAdvance(s: System, step: Step)
    requires Enabled(s, step) && step.Run? && OpenOk(s, s.contexts[step.i])
    ensures var e := Advance(s, s.contexts[step.i], step.act);
            OpenOk(s, e.context) && (e.took ==> s.queue != [])
  {
  }

  lemma OpenStep(s: System, step: Step)
    requires Enabled(s, step) && OpenInv(s)
    ensures OpenInv(Do(s, step))
  {
    var t := Do(s, step);
    if step.Run? {
      OpenAdvance(s, step);
      hide Advance;
      forall i | 0 <= i < |t.contexts| ensures OpenOk(t, t.contexts[i]) {
        assert OpenOk(s, s.contexts[i]);
      }
    } else {
      forall i | 0 <= i < |t.contexts| ensures OpenOk(t, t.contexts[i]) {
        assert OpenOk(s, s.contexts[i]);
      }
    }
  }

  lemma {:induction false} AckCount(s: System, n: nat)
    requires n <= |s.acks|
    requires forall j, k | 0 <= j < k < |s.acks| :: s.acks[j].id != s.acks[k].id
    ensures |set k | 0 <= k < n :: s.acks[k].id| == n
  {
    var ids := set k | 0 <= k < n :: s.acks[k].id;
    if n > 0 {
      AckCount(s, n - 1);
      var fewer := set k | 0 <= k < n - 1 :: s.acks[k].id;
      var last := s.acks[n - 1].id;
      assert last !in fewer;
      forall id ensures id in ids <==> id in fewer + {last} {
        if id in ids {
          var k :| 0 <= k < n && s.acks[k].id == id;
          assert k < n - 1 || id == last;
        }
      }
      assert ids == fewer + {last};
    } else {
      assert ids == {};
    }
  }

  // ---- Every run ----

  ghost predicate Inv(s: System) {
    && CounterInv(s)
    && (forall i | 0 <= i < |s.contexts| :: HistoryOk(s.contexts[i]))
    && AckInv(s)
    && OpenInv(s)
    && StopInv(s)
  }

  lemma {:induction false} EveryRun(s: System, steps: seq<Step>)
    requires Initial(s) && IsRun(s, steps)
    ensures Inv(After(s, steps))
    ensures |After(s, steps).contexts| == |s.contexts|
  {
    if steps == [] {
      CounterInitially(s);
    } else {
      var last := |steps| - 1;
      EveryRun(s, steps[..last]);
      InvStep(After(s, steps[..last]), steps[last]);
    }
  }

  lemma InvStep(s: System, step: Step)
    requires Enabled(s, step) && Inv(s)
    ensures Inv(Do(s, step)) && |Do(s, step).contexts| == |s.contexts|
  {
    CounterStep(s, step);
    HistoryStep(s, step);
    AckStep(s, step);
    OpenStep(s, step);
    StopStep(s, step);
  }

  /** The word is twice the number of contexts between a successful increment and its decrement, until it is
      marked; no decrement, however stale the word it read, goes below zero; and a context is in its loop without
      having been counted only after the marker, when its decrement must fail too. */
  lemma WordCountsContexts(s: System, steps: seq<Step>)
    requires Initial(s) && IsRun(s, steps)
    ensures var t := After(s, steps);
            && (!Marked(t.word) ==> t.word == 2 * |Counted(t)|)
            && 0 <= t.word <= 2 * |s.contexts| + 1
            && (forall i | 0 <= i < |t.contexts| && (InLoop(t.contexts[i].pc) || Leaving(t.contexts[i].pc)) ::
                  t.contexts[i].counted || Marked(t.word))
            && forall step | Enabled(t, step) :: NoUnderflow(t, step)
  {
    EveryRun(s, steps);
    var t := After(s, steps);
    forall step | Enabled(t, step) ensures NoUnderflow(t, step) {
      CounterStep(t, step);
    }
  }

  /** The order of a trace: messages only while up, `on_stop` last, nothing but the way out after a close. */
  ghost predicate InOrder(trace: seq<Event>) {
    && (forall k: nat | k < |trace| && trace[k].Handle? ::
          exists j: nat :: j < k && trace[j] == OnStart && forall m | j < m < k :: trace[m].Handle?)
    && (forall k: nat | k < |trace| && trace[k] == OnStop :: k == |trace| - 1)
    && (forall k: nat, m | k < m < |trace| && trace[k].Ack? :: trace[m] == LeaveLoop || trace[m] == OnStop)
  }

  lemma UnbrokenIsInOrder(trace: seq<Event>)
    requires PhaseOf(trace) != Broken
    ensures InOrder(trace)
    ensures PhaseOf(trace) == Over <==> OnStop in trace
  {
    forall k: nat | k < |trace| && trace[k].Handle?
      ensures exists j: nat :: j < k && trace[j] == OnStart && forall m | j < m < k :: trace[m].Handle?
    {
      HandlesAfterStart(trace, k);
    }
    forall k: nat | k < |trace| && trace[k] == OnStop ensures k == |trace| - 1 {
      StopIsLast(trace, k);
    }
    forall k: nat, m | k < m < |trace| && trace[k].Ack? ensures trace[m] == LeaveLoop || trace[m] == OnStop {
      NothingAfterAck(trace, k);
    }
    if PhaseOf(trace) == Over {
      assert trace[|trace| - 1] == OnStop;
    }
  }

  /** Hooks and messages of every context come in the promised order. */
  lemma HooksInOrder(s: System, steps: seq<Step>, i: nat)
    requires Initial(s) && IsRun(s, steps) && i < |s.contexts|
    ensures |After(s, steps).contexts| == |s.contexts|
    ensures var c := After(s, steps).contexts[i];
            && (InLoop(c.pc) ==> Starts(c.trace) == c.generation + 1)
            && InOrder(c.trace)
            && (OnStop in c.trace <==> c.pc.Stopped?)
            && (c.generation > 0 ==> s.restartOnErr)
            && (c.pc.Stopping? || c.pc.Stopped? ==>
                  Marked(After(s, steps).word) || !s.restartOnErr || i in AckIds(After(s, steps)))
  {
    EveryRun(s, steps);
    assert StopOk(After(s, steps), After(s, steps).contexts[i]);
    UnbrokenIsInOrder(After(s, steps).contexts[i].trace);
    RestartsOnlyIfAsked(s, steps, i);
  }

  lemma {:induction false} RestartsOnlyIfAsked(s: System, steps: seq<Step>, i: nat)
    requires Initial(s) && IsRun(s, steps) && i < |s.contexts|
    ensures var t := After(s, steps);
            && |t.contexts| == |s.contexts| && t.restartOnErr == s.restartOnErr
            && (t.contexts[i].generation > 0 ==> s.restartOnErr)
  {
    if steps != [] {
      var last := |steps| - 1;
      RestartsOnlyIfAsked(s, steps[..last], i);
      GenerationStep(After(s, steps[..last]), steps[last], i);
    }
  }

  lemma GenerationStep(s: System, step: Step, i: nat)
    requires Enabled(s, step) && i < |s.contexts|
    ensures var t := Do(s, step);
            && |t.contexts| == |s.contexts| && t.restartOnErr == s.restartOnErr
            && (t.contexts[i].generation != s.contexts[i].generation ==> s.restartOnErr)
  {
  }

  function Bodies(taken: seq<(nat, Message)>): seq<Message> {
    seq(|taken|, k requires 0 <= k < |taken| => taken[k].1)
  }

  /** Each message of the shared queue is taken by one context, once, in the order of the pushes. */
  lemma {:induction false} EachMessageTakenOnce(s: System, steps: seq<Step>)
    requires Initial(s) && IsRun(s, steps)
    ensures Bodies(After(s, steps).taken) + After(s, steps).queue == After(s, steps).pushed
  {
    if steps != [] {
      var last := |steps| - 1;
      EachMessageTakenOnce(s, steps[..last]);
      TakenStep(After(s, steps[..last]), steps[last]);
    }
  }

  lemma TakenStep(s: System, step: Step)
    requires Enabled(s, step) && Bodies(s.taken) + s.queue == s.pushed
    ensures Bodies(Do(s, step).taken) + Do(s, step).queue == Do(s, step).pushed
  {
    var t := Do(s, step);
    if step.Run? && Advance(s, s.contexts[step.i], step.act).took {
      assert Bodies(t.taken) == Bodies(s.taken) + [s.queue[0]];
      assert s.queue == [s.queue[0]] + s.queue[1..];
    } else if step.Push? {
      assert Bodies(s.taken) + t.queue == Bodies(s.taken) + s.queue + [step.msg];
    }
  }

  /** Each acknowledged close names another context, which never restarts. */
  lemma AcksAreDistinct(s: System, steps: seq<Step>)
    requires Initial(s) && IsRun(s, steps)
    ensures var t := After(s, steps);
            && |t.acks| <= |s.contexts| == |t.contexts|
            && (forall j, k | 0 <= j < k < |t.acks| :: t.acks[j].id != t.acks[k].id)
            && (forall k | 0 <= k < |t.acks| ::
                  && t.acks[k].id < |t.contexts|
                  && t.contexts[t.acks[k].id].generation == t.acks[k].generation)
  {
    EveryRun(s, steps);
    var t := After(s, steps);
    AckCount(t, |t.acks|);
    assert AckIds(t) <= Upto(|s.contexts|);
    SubsetSize(AckIds(t), Upto(|s.contexts|));
  }

  function CurrentActive(s: System): int {
    s.word / 2
  }

  predicate Settled(c: Context) {
    InLoop(c.pc) || PastDec(c.pc)
  }

  /** With the address alive and the queue open, the count is what is left after the acknowledged closes. */
  lemma ActiveIsRestOfAcks(s: System, steps: seq<Step>)
    requires Initial(s) && IsRun(s, steps)
    requires var t := After(s, steps);
             !Marked(t.word) && !t.closed && forall i | 0 <= i < |t.contexts| :: Settled(t.contexts[i])
    ensures CurrentActive(After(s, steps)) == |s.contexts| - |After(s, steps).acks|
  {
    EveryRun(s, steps);
    var t := After(s, steps);
    AckCount(t, |t.acks|);
    forall i: nat | i < |t.contexts| ensures t.contexts[i].counted <==> i !in AckIds(t) {
      assert CounterOk(t.word, t.contexts[i]) && Settled(t.contexts[i]) && HistoryOk(t.contexts[i]);
    }
    assert Upto(|s.contexts|) == Counted(t) + AckIds(t);
    assert Counted(t) !! AckIds(t);
  }

  // ---- After shutdown ----

  /** A context whose decrement went through before the marker may still restart once. */
  function Lives(s: System, i: nat): nat
    requires i < |s.contexts|
  {
    var c := s.contexts[i];
    c.generation + if c.pc == Decided(true) && s.restartOnErr && !c.manual then 1 else 0
  }

  lemma {:induction false} MarkedNeverRevives(s: System, steps: seq<Step>, i: nat)
    requires Marked(s.word) && IsRun(s, steps) && i < |s.contexts|
    ensures |After(s, steps).contexts| == |s.contexts|
    ensures After(s, steps).word == s.word
    ensures Lives(After(s, steps), i) <= Lives(s, i)
  {
    if steps != [] {
      var last := |steps| - 1;
      MarkedNeverRevives(s, steps[..last], i);
      var before := After(s, steps[..last]);
      MarkedWordIsFrozen(before, steps[last]);
    }
  }

  /** From the moment the marker is set, the count is frozen and a context restarts at most once more. */
  lemma AtMostOneMoreRestart(s: System, steps: seq<Step>, i: nat)
    requires Marked(s.word) && IsRun(s, steps) && i < |s.contexts|
    ensures |After(s, steps).contexts| == |s.contexts|
    ensures After(s, steps).word == s.word
    ensures After(s, steps).contexts[i].generation <= s.contexts[i].generation + 1
  {
    MarkedNeverRevives(s, steps, i);
  }
}
