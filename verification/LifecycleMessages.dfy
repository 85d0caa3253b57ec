/** What becomes of the messages: every context handles exactly what it takes, in the order in which it takes it. */
module LifecycleMessages {
  import opened Lifecycle
  import opened LifecycleRuns

  function TakenFrom(origin: Origin, received: seq<Received>): seq<Message> {
    if received == [] then [] else
      var last := received[|received| - 1];
      TakenFrom(origin, received[..|received| - 1]) + if last.origin == origin then [last.msg] else []
  }

  function WorkOf(received: seq<Received>): seq<Message> {
    if received == [] then [] else
      var msg := received[|received| - 1].msg;
      WorkOf(received[..|received| - 1]) + if msg.Work? then [msg] else []
  }

  function HandledIn(trace: seq<Event>): seq<Message> {
    if trace == [] then [] else
      var e := trace[|trace| - 1];
      HandledIn(trace[..|trace| - 1]) + if e.Handle? then [e.msg] else []
  }

  /** What context `i` has taken out of the shared queue. */
  function TakenBy(i: nat, taken: seq<(nat, Message)>): seq<Message> {
    if taken == [] then [] else
      var (who, msg) := taken[|taken| - 1];
      TakenBy(i, taken[..|taken| - 1]) + if who == i then [msg] else []
  }

  ghost predicate ContextOk(c: Context) {
    && TakenFrom(Own, c.received) + c.own == c.ownPushed
    && HandledIn(c.trace) == WorkOf(c.received)
    && (c.pc.Handling? ==> c.received != [] && c.received[|c.received| - 1].msg == c.pc.msg)
    && (c.manual ==> c.received != [] && c.received[|c.received| - 1].msg.Close?)
    && (c.manual ==> Leaving(c.pc) || PastDec(c.pc))
  }

  ghost predicate MessageInv(s: System) {
    && (forall i: nat | i < |s.contexts| :: ContextOk(s.contexts[i]))
    && (forall i: nat | i < |s.contexts| :: TakenFrom(Shared, s.contexts[i].received) == TakenBy(i, s.taken))
  }

  lemma LogSays(trace: seq<Event>, e: Event)
    ensures HandledIn(trace + [e]) == HandledIn(trace) + if e.Handle? then [e.msg] else []
  {
    assert (trace + [e])[..|trace|] == trace;
  }

  lemma ReceivedSays(received: seq<Received>, r: Received)
    ensures forall origin :: TakenFrom(origin, received + [r])
                          == TakenFrom(origin, received) + if r.origin == origin then [r.msg] else []
    ensures WorkOf(received + [r]) == WorkOf(received) + if r.msg.Work? then [r.msg] else []
  {
    assert (received + [r])[..|received|] == received;
  }

  /** Whether the context is at work on the counter. */
  predicate Counting(pc: Pc) {
    pc.IncLoad? || pc.IncCas? || pc.DecLoad? || pc.DecCas?
  }

  predicate SameMessages(c: Context, d: Context) {
    d.received == c.received && d.own == c.own && d.ownPushed == c.ownPushed
  }

  lemma CountingIsQuiet(s: System, c: Context, act: Act)
    requires Counting(c.pc)
    ensures var e := Advance(s, c, act);
            && SameMessages(c, e.context) && e.context.trace == c.trace && e.context.manual == c.manual && !e.took
            && (if c.pc.IncLoad? || c.pc.IncCas? then e.context.pc.IncCas? || e.context.pc.Receiving?
                else e.context.pc.DecCas? || e.context.pc.Decided?)
  {
  }

  lemma OthersAreQuiet(s: System, c: Context, act: Act)
    requires !c.pc.Receiving? && !Counting(c.pc)
    ensures var e := Advance(s, c, act);
            var d := e.context;
            && SameMessages(c, d) && !d.pc.Handling? && !e.took
            && (d.manual <==> c.manual || (c.pc.Handling? && act == AckArrives))
            && (c.pc.Decided? && c.manual ==> d.pc.Stopping?)
            && (c.pc.Handling? && act == AckArrives ==> d.pc.DecLoad?)
            && ((c.pc.Stopping? || c.pc.Stopped?) ==> d.pc.Stopped?)
            && (|| d.trace == c.trace || d.trace == c.trace + [OnStart] || d.trace == c.trace + [OnStop]
                || d.trace == c.trace + [Ack(c.generation)] + [LeaveLoop])
  {
  }

  /** Outside of its receive, a step touches no message. */
  lemma QuietOk(s: System, c: Context, act: Act)
    requires ContextOk(c) && !c.pc.Receiving?
    requires c.pc.Handling? && act == AckArrives ==> c.pc.msg.Close?
    ensures ContextOk(Advance(s, c, act).context) && Advance(s, c, act).context.received == c.received
    ensures !Advance(s, c, act).took
  {
    hide Advance, TakenFrom, WorkOf, HandledIn;
    if Counting(c.pc) {
      CountingIsQuiet(s, c, act);
    } else {
      OthersAreQuiet(s, c, act);
      LogSays(c.trace, OnStart);
      LogSays(c.trace, OnStop);
      LogSays(c.trace, Ack(c.generation));
      LogSays(c.trace + [Ack(c.generation)], LeaveLoop);
    }
  }

  /** Taking a message is handling it, if it is work. */
  lemma BeginOk(c: Context, origin: Origin, msg: Message, rest: seq<Message>)
    requires ContextOk(c) && c.pc.Receiving? && c.own == (if origin.Own? then [msg] else []) + rest
    ensures var d := Begin(c, origin, msg).(own := rest);
            && ContextOk(d)
            && TakenFrom(Shared, d.received) == TakenFrom(Shared, c.received) + if origin.Shared? then [msg] else []
  {
    var d := Begin(c, origin, msg).(own := rest);
    ReceivedSays(c.received, Received(origin, msg));
    LogSays(c.trace, Handle(msg));
    hide TakenFrom, WorkOf, HandledIn;
    assert TakenFrom(Own, d.received) + rest == TakenFrom(Own, c.received) + c.own;
  }

  lemma LeaveOk(c: Context)
    requires ContextOk(c) && c.pc.Receiving?
    ensures ContextOk(Log(c, LeaveLoop).(pc := DecLoad))
  {
    LogSays(c.trace, LeaveLoop);
    hide TakenFrom, WorkOf, HandledIn;
  }

  lemma ReceivingIs(s: System, c: Context, act: Act)
    requires c.pc.Receiving?
    requires act == TakeShared ==> s.queue != []
    requires act == TakeOwn ==> c.own != []
    ensures var e := Advance(s, c, act);
            && (e.took <==> act == TakeShared)
            && e.context == if act == TakeShared then Begin(c, Shared, s.queue[0]).(own := c.own)
                            else if act == TakeOwn then Begin(c, Own, c.own[0]).(own := c.own[1..])
                            else Log(c, LeaveLoop).(pc := DecLoad)
  {
  }

  lemma ReceivingOk(s: System, c: Context, act: Act)
    requires ContextOk(c) && c.pc.Receiving?
    requires act == TakeShared ==> s.queue != []
    requires act == TakeOwn ==> c.own != []
    ensures var e := Advance(s, c, act);
            && ContextOk(e.context)
            && TakenFrom(Shared, e.context.received)
               == TakenFrom(Shared, c.received) + if e.took then [s.queue[0]] else []
  {
    ReceivingIs(s, c, act);
    hide Advance, Begin, ContextOk, TakenFrom;
    if act == TakeShared {
      assert c.own == [] + c.own;
      BeginOk(c, Shared, s.queue[0], c.own);
    } else if act == TakeOwn {
      assert c.own == [c.own[0]] + c.own[1..];
      BeginOk(c, Own, c.own[0], c.own[1..]);
    } else {
      LeaveOk(c);
    }
  }

  lemma ContextStep(s: System, step: Step)
    requires Enabled(s, step) && step.Run? && ContextOk(s.contexts[step.i])
    ensures var c := s.contexts[step.i];
            var e := Advance(s, c, step.act);
            && ContextOk(e.context)
            && (e.took ==> s.queue != [])
            && TakenFrom(Shared, e.context.received)
               == TakenFrom(Shared, c.received) + if e.took then [s.queue[0]] else []
  {
    var c := s.contexts[step.i];
    if c.pc.Receiving? {
      ReceivingOk(s, c, step.act);
    } else {
      QuietOk(s, c, step.act);
    }
  }

  lemma MessageStep(s: System, step: Step)
    requires Enabled(s, step) && MessageInv(s)
    ensures MessageInv(Do(s, step))
  {
    var t := Do(s, step);
    if step.Run? {
      hide Advance;
      ContextStep(s, step);
      var e := Advance(s, s.contexts[step.i], step.act);
      if e.took {
        assert t.taken[..|s.taken|] == s.taken;
      }
      forall i: nat | i < |t.contexts| ensures ContextOk(t.contexts[i])
        && TakenFrom(Shared, t.contexts[i].received) == TakenBy(i, t.taken)
      {
        assert ContextOk(s.contexts[i]) && TakenFrom(Shared, s.contexts[i].received) == TakenBy(i, s.taken);
      }
    } else {
      OthersStep(s, step);
    }
  }

  lemma OthersStep(s: System, step: Step)
    requires Enabled(s, step) && MessageInv(s) && !step.Run?
    ensures MessageInv(Do(s, step))
  {
    var t := Do(s, step);
    forall i: nat | i < |t.contexts| ensures ContextOk(t.contexts[i])
      && TakenFrom(Shared, t.contexts[i].received) == TakenBy(i, t.taken)
    {
      assert ContextOk(s.contexts[i]) && TakenFrom(Shared, s.contexts[i].received) == TakenBy(i, s.taken);
    }
  }

  lemma {:induction false} EveryRunKeeps(s: System, steps: seq<Step>)
    requires Initial(s) && IsRun(s, steps)
    ensures MessageInv(After(s, steps)) && |After(s, steps).contexts| == |s.contexts|
  {
    if steps != [] {
      var last := |steps| - 1;
      EveryRunKeeps(s, steps[..last]);
      MessageStep(After(s, steps[..last]), steps[last]);
    }
  }

  /** In every run, the messages that a context has handled are, one for one and in order, the work among what it
      took; what it took is its share of the shared queue and the front of its own; what it is handling it took
      last; and what it acknowledged last was a close. With `EachMessageTakenOnce` this makes every message that
      is pushed handled at most once, and by nobody else than the context that took it. */
  lemma HandledIsWhatWasTaken(s: System, steps: seq<Step>, i: nat)
    requires Initial(s) && IsRun(s, steps) && i < |s.contexts|
    ensures |After(s, steps).contexts| == |s.contexts|
    ensures var t := After(s, steps);
            var c := t.contexts[i];
            && HandledIn(c.trace) == WorkOf(c.received)
            && TakenFrom(Shared, c.received) == TakenBy(i, t.taken)
            && TakenFrom(Own, c.received) + c.own == c.ownPushed
            && (c.pc.Handling? ==> c.received != [] && c.received[|c.received| - 1].msg == c.pc.msg)
            && (c.manual ==> c.received != [] && c.received[|c.received| - 1].msg.Close?)
  {
    EveryRunKeeps(s, steps);
  }

  // ---- Closed queues ----

  /** A closed queue stays closed and takes nothing more. */
  lemma {:induction false} ClosedTakesNothing(s: System, steps: seq<Step>)
    requires s.closed && IsRun(s, steps)
    ensures After(s, steps).closed && After(s, steps).pushed == s.pushed
  {
    if steps != [] {
      ClosedTakesNothing(s, steps[..|steps| - 1]);
    }
  }

  /** A queue that has been closed is closed, a shutdown leaves its mark, and no later step undoes either. */
  lemma {:induction false} StepsTakeEffect(s: System, steps: seq<Step>, i: nat)
    requires IsRun(s, steps) && i < |s.contexts|
    ensures |After(s, steps).contexts| == |s.contexts|
    ensures s.closed || CloseQueue in steps <==> After(s, steps).closed
    ensures s.contexts[i].ownClosed || CloseOwn(i) in steps <==> After(s, steps).contexts[i].ownClosed
    ensures Marked(s.word) || Shutdown in steps ==> Marked(After(s, steps).word)
  {
    if steps != [] {
      var last := |steps| - 1;
      StepsTakeEffect(s, steps[..last], i);
      StepTakesEffect(After(s, steps[..last]), steps[last], i);
    }
  }

  lemma StepTakesEffect(s: System, step: Step, i: nat)
    requires Enabled(s, step) && i < |s.contexts|
    ensures |Do(s, step).contexts| == |s.contexts|
    ensures s.closed || step == CloseQueue <==> Do(s, step).closed
    ensures s.contexts[i].ownClosed || step == CloseOwn(i) <==> Do(s, step).contexts[i].ownClosed
    ensures Marked(s.word) || step == Shutdown ==> Marked(Do(s, step).word)
  {
    if Marked(s.word) {
      MarkedWordIsFrozen(s, step);
    }
  }

  /** A context that left its loop without an acknowledged close, be it to stop or to restart, has left nothing
      behind: all that was pushed has been taken. */
  lemma LeavesNothingBehind(s: System, steps: seq<Step>, i: nat)
    requires Initial(s) && IsRun(s, steps) && i < |After(s, steps).contexts|
    requires var c := After(s, steps).contexts[i];
             !c.manual && (Leaving(c.pc) || PastDec(c.pc) || c.generation > 0)
    ensures var t := After(s, steps);
            && t.closed && Bodies(t.taken) == t.pushed
            && t.contexts[i].ownClosed && TakenFrom(Own, t.contexts[i].received) == t.contexts[i].ownPushed
  {
    EveryRun(s, steps);
    EveryRunKeeps(s, steps);
    EachMessageTakenOnce(s, steps);
    var t := After(s, steps);
    assert Bodies(t.taken) + [] == Bodies(t.taken);
  }

  /** From a shutdown on, wherever it comes in a run, the word is marked, the count stays what it was at that
      moment, and every context restarts at most once more. */
  lemma ShutdownFreezes(s: System, steps: seq<Step>, i: nat)
    requires i < |s.contexts| && IsRun(Do(s, Shutdown), steps)
    ensures var t := After(Do(s, Shutdown), steps);
            && Marked(t.word) && t.word / 2 == s.word / 2
            && |t.contexts| == |s.contexts|
            && t.contexts[i].generation <= s.contexts[i].generation + 1
  {
    ShutdownKeepsCount(s);
    AtMostOneMoreRestart(Do(s, Shutdown), steps, i);
  }

  /** How far a context is from the end of its loops on the counter. */
  function Rank(pc: Pc): nat {
    match pc
    case Starting => 10
    case IncLoad => 9
    case IncCas(seen) => if Marked(seen) then 7 else 8
    case Receiving => 6
    case Handling(_) => 6
    case DecLoad => 5
    case DecCas(seen) => if Marked(seen) then 3 else 4
    case Decided(_) => 2
    case Stopping => 1
    case Stopped => 0
  }

  /** Under the marker nobody spins: each step of a context brings it nearer to its end, but for its messages and for
      the one restart that may still follow a decrement from before. */
  lemma MarkedLoopsEnd(s: System, i: nat, act: Act)
    requires Marked(s.word) && Enabled(s, Run(i, act))
    requires var pc := s.contexts[i].pc; !pc.Receiving? && !pc.Handling? && pc != Decided(true)
    ensures Rank(Do(s, Run(i, act)).contexts[i].pc) < Rank(s.contexts[i].pc)
  {
  }
}
