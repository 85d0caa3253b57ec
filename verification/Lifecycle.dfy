/** The life of a set of actor contexts that share one packed counter and one queue.

Every load, compare-and-swap, receive and hook call is one step; steps of different contexts, of senders and
of shutdown interleave in any order, and a weak compare-and-swap may fail for no reason.
*/
module Lifecycle {
  import opened Ranges

  /** The lowest bit of the word says that the address is gone; the count of active contexts is above it. */
  const MARKER := 1
  const UNIT := 2

  datatype Message = Work(n: nat) | Close(tx: nat)

  /** Where a context is. `seen` is the local copy of the word that the retry loop works with. */
  datatype Pc =
    | Starting
    | IncLoad
    | IncCas(seen: int)
    | Receiving
    | Handling(msg: Message)
    | DecLoad
    | DecCas(seen: int)
    | Decided(dec: bool)
    | Stopping
    | Stopped

  datatype Event = OnStart | Handle(msg: Message) | Ack(generation: nat) | LeaveLoop | OnStop

  datatype Origin = Shared | Own

  /** A message that a context took, and from which queue. */
  datatype Received = Received(origin: Origin, msg: Message)

  /** `counted` says that the last increment of the context succeeded and was not undone; `trace` is its history.
      `own` is the queue of its broadcast receiver, closed from the start when broadcasts are not allowed, and
      `ownPushed` all that ever entered it; `received` is all that the context ever took, from both queues. */
  datatype Context = Context(pc: Pc, generation: nat, manual: bool, own: seq<Message>, ownClosed: bool,
                             counted: bool, trace: seq<Event>, ownPushed: seq<Message>, received: seq<Received>)

  datatype Acknowledgement = Acknowledgement(id: nat, generation: nat)

  /** `pushed` and `taken` are the histories of the shared queue; `taken` says which context got the message. */
  datatype System = System(word: int, contexts: seq<Context>, queue: seq<Message>, closed: bool,
                           acks: seq<Acknowledgement>, restartOnErr: bool,
                           pushed: seq<Message>, taken: seq<(nat, Message)>)

  /** `Go` is the only step of most places; the others pick an outcome. */
  datatype Act = Go | CasSucceeds | CasFails | TakeShared | TakeOwn | SeeClosed | AckArrives | AckIsLost

  datatype Step =
    | Run(i: nat, act: Act)
    | Shutdown
    | Push(msg: Message)
    | PushOwn(i: nat, msg: Message)
    | CloseQueue
    | CloseOwn(i: nat)

  predicate Marked(word: int) { word % 2 == 1 }

  predicate Enabled(s: System, step: Step) {
    match step
    case Shutdown => true
    case CloseQueue => true
    case Push(_) => !s.closed
    case PushOwn(i, msg) => i < |s.contexts| && !s.contexts[i].ownClosed && msg.Work?
    case CloseOwn(i) => i < |s.contexts|
    case Run(i, act) =>
      && i < |s.contexts|
      && var c := s.contexts[i];
         match c.pc
         case Starting => act == Go
         case IncLoad => act == Go
         case IncCas(seen) =>
           if Marked(seen) then act == Go else act == CasFails || (act == CasSucceeds && s.word == seen)
         case Receiving =>
           || (act == TakeShared && s.queue != [])
           || (act == TakeOwn && c.own != [])
           || (act == SeeClosed && s.closed && s.queue == [] && c.ownClosed && c.own == [])
         case Handling(msg) =>
           if msg.Work? then act == Go else act == AckArrives || act == AckIsLost
         case DecLoad => act == Go
         case DecCas(seen) =>
           if Marked(seen) then act == Go else act == CasFails || (act == CasSucceeds && s.word == seen)
         case Decided(_) => act == Go
         case Stopping => act == Go
         case Stopped => false
  }

  /** The word after `shutdown` has or-ed the marker in. */
  function Mark(word: int): int {
    if Marked(word) then word else word + MARKER
  }

  /** What one step of a context makes of the context and of the word, and whether it took the head of the
      shared queue or acknowledged a close. */
  datatype Effect = Effect(context: Context, word: int, took: bool, acked: bool)

  function Advance(s: System, c: Context, act: Act): Effect
    requires c.pc.Receiving? && act == TakeShared ==> s.queue != []
    requires c.pc.Receiving? && act == TakeOwn ==> c.own != []
  {
    var still := Effect(c, s.word, false, false);
    match c.pc
    case Starting => still.(context := Log(c, OnStart).(pc := IncLoad))
    case IncLoad => still.(context := c.(pc := IncCas(s.word)))
    case IncCas(seen) =>
      if Marked(seen) then still.(context := c.(pc := Receiving))
      else if act == CasSucceeds then still.(context := c.(pc := Receiving, counted := true), word := seen + UNIT)
      else still.(context := c.(pc := IncCas(s.word)))
    case Receiving =>
      if act == TakeShared then still.(context := Begin(c, Shared, s.queue[0]), took := true)
      else if act == TakeOwn then still.(context := Begin(c, Own, c.own[0]).(own := c.own[1..]))
      else still.(context := Log(c, LeaveLoop).(pc := DecLoad))
    case Handling(msg) =>
      if act == AckArrives then
        still.(context := Log(Log(c, Ack(c.generation)), LeaveLoop).(manual := true, pc := DecLoad), acked := true)
      else still.(context := c.(pc := Receiving))
    case DecLoad => still.(context := c.(pc := DecCas(s.word)))
    case DecCas(seen) =>
      if Marked(seen) then still.(context := c.(pc := Decided(false)))
      else if act == CasSucceeds then still.(context := c.(pc := Decided(true), counted := false), word := seen - UNIT)
      else still.(context := c.(pc := DecCas(s.word)))
    case Decided(dec) =>
      if dec && s.restartOnErr && !c.manual then still.(context := c.(pc := Starting, generation := c.generation + 1))
      else still.(context := c.(pc := Stopping))
    case Stopping => still.(context := Log(c, OnStop).(pc := Stopped))
    case Stopped => still
  }

  function Log(c: Context, e: Event): Context {
    c.(trace := c.trace + [e])
  }

  function Do(s: System, step: Step): System
    requires Enabled(s, step)
  {
    match step
    case Shutdown => s.(word := Mark(s.word))
    case CloseQueue => s.(closed := true)
    case Push(msg) => s.(queue := s.queue + [msg], pushed := s.pushed + [msg])
    case PushOwn(i, msg) =>
      s.(contexts := s.contexts[i := s.contexts[i].(own := s.contexts[i].own + [msg],
                                                    ownPushed := s.contexts[i].ownPushed + [msg])])
    case CloseOwn(i) =>
      s.(contexts := s.contexts[i := s.contexts[i].(ownClosed := true)])
    case Run(i, act) =>
      var e := Advance(s, s.contexts[i], act);
      s.(contexts := s.contexts[i := e.context],
         word := e.word,
         queue := if e.took then s.queue[1..] else s.queue,
         taken := if e.took then s.taken + [(i, s.queue[0])] else s.taken,
         acks := if e.acked then s.acks + [Acknowledgement(i, s.contexts[i].generation)] else s.acks)
  }

  function Begin(c: Context, origin: Origin, msg: Message): Context {
    var taken := c.(pc := Handling(msg), received := c.received + [Received(origin, msg)]);
    if msg.Work? then Log(taken, Handle(msg)) else taken
  }

  /** The decrement computes `seen - UNIT` before it tries the swap, on a copy of the word that may be stale.
      The word is unsigned, so this must not go below zero. */
  predicate NoUnderflow(s: System, step: Step) {
    step.Run? && step.i < |s.contexts| ==>
      var pc := s.contexts[step.i].pc;
      pc.DecCas? && !Marked(pc.seen) ==> pc.seen >= UNIT
  }

  function Born(broadcast: bool): Context {
    Context(Starting, 0, false, [], !broadcast, false, [], [], [])
  }

  predicate Initial(s: System) {
    && s.word == 0
    && s.acks == []
    && s.queue == s.pushed == [] && s.taken == []
    && forall i | 0 <= i < |s.contexts| :: s.contexts[i] == Born(true) || s.contexts[i] == Born(false)
  }

  // ---- The counter ----

  ghost function Counted(s: System): set<nat> {
    set i: nat | i < |s.contexts| && s.contexts[i].counted
  }

  predicate InLoop(pc: Pc) {
    pc.Receiving? || pc.Handling?
  }

  predicate Leaving(pc: Pc) {
    pc.DecLoad? || pc.DecCas?
  }

  predicate PastDec(pc: Pc) {
    pc.Decided? || pc.Stopping? || pc.Stopped?
  }

  predicate CounterOk(word: int, c: Context) {
    && (InLoop(c.pc) || Leaving(c.pc) ==> c.counted || Marked(word))
    && (c.pc.Starting? || c.pc.IncLoad? || c.pc.IncCas? || c.pc == Decided(true) ==> !c.counted)
    && (PastDec(c.pc) ==> !c.counted || Marked(word))
    && (c.pc.IncCas? && Marked(c.pc.seen) ==> Marked(word))
    && (c.pc.DecCas? && Marked(c.pc.seen) ==> Marked(word))
    && (c.pc.DecCas? && !Marked(c.pc.seen) ==> c.counted && c.pc.seen >= UNIT)
  }

  ghost predicate CounterInv(s: System) {
    && (!Marked(s.word) ==> s.word == 2 * |Counted(s)|)
    && 0 <= s.word <= 2 * |s.contexts| + 1
    && forall i | 0 <= i < |s.contexts| :: CounterOk(s.word, s.contexts[i])
  }

  lemma CountedSize(s: System)
    ensures |Counted(s)| <= |s.contexts|
    ensures Counted(s) != {} ==> |Counted(s)| >= 1
  {
    SubsetSize(Counted(s), Upto(|s.contexts|));
  }

  lemma CounterInitially(s: System)
    requires Initial(s)
    ensures CounterInv(s)
  {
    assert Counted(s) == {};
  }

  /** A step of one context changes the word and the context together, or neither. */
  predicate Together(word: int, c: Context, after: int, d: Context) {
    && (Marked(word) ==> after == word)
    && (|| (d.counted == c.counted && after == word)
        || (!c.counted && d.counted && !Marked(word) && after == word + UNIT)
        || (c.counted && !d.counted && !Marked(word) && after == word - UNIT))
  }

  predicate Local(s: System, c: Context, act: Act) {
    c.pc.Receiving? ==> (act == TakeShared ==> s.queue != []) && (act == TakeOwn ==> c.own != [])
  }

  lemma SwapIsTogether(s: System, c: Context, act: Act)
    requires (c.pc.IncCas? || c.pc.DecCas?) && CounterOk(s.word, c)
    requires act == CasSucceeds ==> s.word == c.pc.seen
    requires c.counted && !Marked(s.word) ==> s.word >= UNIT
    ensures var e := Advance(s, c, act);
            CounterOk(e.word, e.context) && Together(s.word, c, e.word, e.context)
  {
  }

  lemma OthersAreTogether(s: System, c: Context, act: Act)
    requires !c.pc.IncCas? && !c.pc.DecCas? && CounterOk(s.word, c) && Local(s, c, act)
    requires c.counted && !Marked(s.word) ==> s.word >= UNIT
    ensures var e := Advance(s, c, act);
            CounterOk(e.word, e.context) && Together(s.word, c, e.word, e.context)
  {
  }

  lemma CounterLocal(s: System, step: Step)
    requires Enabled(s, step) && step.Run? && CounterOk(s.word, s.contexts[step.i])
    requires s.contexts[step.i].counted && !Marked(s.word) ==> s.word >= UNIT
    ensures NoUnderflow(s, step)
    ensures var c := s.contexts[step.i];
            var e := Advance(s, c, step.act);
            CounterOk(e.word, e.context) && Together(s.word, c, e.word, e.context)
  {
    var c := s.contexts[step.i];
    hide Advance;
    if c.pc.IncCas? || c.pc.DecCas? {
      SwapIsTogether(s, c, step.act);
    } else {
      OthersAreTogether(s, c, step.act);
    }
  }

  lemma CountedUpdate(s: System, t: System, i: nat)
    requires i < |s.contexts| == |t.contexts| && t.contexts == s.contexts[i := t.contexts[i]]
    ensures var c, d := s.contexts[i], t.contexts[i];
            |Counted(t)| == |Counted(s)| + (if d.counted then 1 else 0) - (if c.counted then 1 else 0)
  {
    var others := Counted(s) - {i};
    assert Counted(s) == if s.contexts[i].counted then others + {i} else others;
    assert Counted(t) == if t.contexts[i].counted then others + {i} else others;
  }

  /** Only the contexts and the word matter for the invariant, so it is enough to look at one change. */
  lemma CounterReplace(s: System, t: System, i: nat)
    requires CounterInv(s)
    requires i < |s.contexts| == |t.contexts| && t.contexts == s.contexts[i := t.contexts[i]]
    requires CounterOk(t.word, t.contexts[i]) && Together(s.word, s.contexts[i], t.word, t.contexts[i])
    ensures CounterInv(t)
  {
    CountedUpdate(s, t, i);
    CountedSize(t);
    forall j | 0 <= j < |t.contexts| && j != i ensures CounterOk(t.word, t.contexts[j]) {
      assert CounterOk(s.word, s.contexts[j]);
    }
  }

  /** The invariant survives every step: no interleaving makes the word and the contexts disagree. */
  lemma CounterStep(s: System, step: Step)
    requires CounterInv(s) && Enabled(s, step)
    ensures NoUnderflow(s, step) && CounterInv(Do(s, step))
  {
    CountedSize(s);
    if step.Run? {
      assert s.contexts[step.i].counted ==> step.i in Counted(s);
      CounterLocal(s, step);
      CounterReplace(s, Do(s, step), step.i);
    } else {
      CounterOther(s, step);
    }
  }

  lemma CounterOther(s: System, step: Step)
    requires CounterInv(s) && Enabled(s, step) && !step.Run?
    ensures CounterInv(Do(s, step))
  {
    var t := Do(s, step);
    assert Counted(t) == Counted(s);
    CountedSize(s);
    forall j | 0 <= j < |t.contexts| ensures CounterOk(t.word, t.contexts[j]) {
      assert CounterOk(s.word, s.contexts[j]);
    }
  }

  /** Once set, the marker stays, and the count above it no longer moves. */
  lemma MarkedWordIsFrozen(s: System, step: Step)
    requires Marked(s.word) && Enabled(s, step)
    ensures Do(s, step).word == s.word
  {
  }

  /** `shutdown` sets the marker and leaves the count, however often it comes. */
  lemma ShutdownKeepsCount(s: System)
    ensures Marked(Do(s, Shutdown).word) && Do(s, Shutdown).word / 2 == s.word / 2
    ensures Do(Do(s, Shutdown), Shutdown) == Do(s, Shutdown)
  {
  }

  /** Nobody gets stuck: a context can always take a step, unless it has stopped or waits for a message while
      there is none and one may still come. */
  lemma OnlyWaitingWaits(s: System, i: nat)
    requires i < |s.contexts|
    ensures var c := s.contexts[i];
            (exists act :: Enabled(s, Run(i, act)))
            <==> !c.pc.Stopped?
                 && (c.pc.Receiving? ==> s.queue != [] || c.own != [] || (s.closed && c.ownClosed))
  {
    var c := s.contexts[i];
    match c.pc
    case Receiving =>
      if s.queue != [] {
        assert Enabled(s, Run(i, TakeShared));
      } else if c.own != [] {
        assert Enabled(s, Run(i, TakeOwn));
      } else if s.closed && c.ownClosed {
        assert Enabled(s, Run(i, SeeClosed));
      }
    case IncCas(seen) => assert Enabled(s, Run(i, if Marked(seen) then Go else CasFails));
    case DecCas(seen) => assert Enabled(s, Run(i, if Marked(seen) then Go else CasFails));
    case Handling(msg) => assert Enabled(s, Run(i, if msg.Work? then Go else AckArrives));
    case Stopped =>
    case _ => assert Enabled(s, Run(i, Go));
  }
}
