/** The outgoing half of a websocket: a local queue and a channel of messages in, bytes out. */
module WsEncode {
  import opened Wrappers
  import opened WsTypes

  datatype Encoded<C> = Encoded(bytes: Bytes, codec: C) | Rejected

  type Encoder<!C> = (C, Message) -> Encoded<C>

  /** Wakers are told apart by the poll that brought them. */
  type Waker = nat

  datatype Origin = Local | Channel

  /** A message on its way out and where it came from. */
  datatype Sent = Sent(from: Origin, msg: Message)

  /** `queue` and `waker` are the local queue shared with the decoding half, which `decodeAlive` says still exists;
      `handles` counts the other handles on that queue, those of the decoding half and of its clones included;
      `channel` holds what senders have sent, `rxClosed` that no more is accepted, `senders` that some are left.
      The rest is history: what was ever pushed and accepted, what was taken out, the bytes yielded, the last poll
      that registered, and the polls that were woken. */
  datatype State<C> = State(queue: seq<Message>, waker: Option<Waker>, decodeAlive: bool, handles: nat,
                            channel: seq<Message>, rxClosed: bool, senders: bool,
                            codec: C, writeBuf: Bytes, polls: nat,
                            pushed: seq<Message>, accepted: seq<Message>, consumed: seq<Sent>, yielded: Bytes,
                            registered: Option<Waker>, woken: set<Waker>)

  datatype Outcome = Pending | Yielded(bytes: Bytes) | Failed | Ended

  // ---- The local queue ----

  function PushBack<C>(s: State<C>, msg: Message): State<C> {
    s.(queue := s.queue + [msg], pushed := s.pushed + [msg])
  }

  function Register<C>(s: State<C>, cx: Waker): State<C> {
    s.(waker := Some(cx), registered := Some(cx))
  }

  function Wake<C>(s: State<C>): State<C> {
    if s.waker.None? then s else s.(waker := None, woken := s.woken + {s.waker.value})
  }

  // ---- One poll ----

  /** Encode one message that has just been taken out; a Close closes the receiver first. */
  function Emit<C>(encode: Encoder<C>, s: State<C>, sent: Sent): (State<C>, bool) {
    var taken := s.(consumed := s.consumed + [sent], rxClosed := s.rxClosed || sent.msg.Close?);
    match encode(s.codec, sent.msg)
    case Rejected => (taken, false)
    case Encoded(bytes, codec) => (taken.(codec := codec, writeBuf := s.writeBuf + bytes), true)
  }

  function DrainQueue<C>(encode: Encoder<C>, s: State<C>): (State<C>, bool)
    decreases |s.queue|
  {
    if s.queue == [] then (s, true) else
      var (t, ok) := Emit(encode, s.(queue := s.queue[1..]), Sent(Local, s.queue[0]));
      if ok then DrainQueue(encode, t) else (t, false)
  }

  function DrainChannel<C>(encode: Encoder<C>, s: State<C>): (State<C>, bool)
    decreases |s.channel|
  {
    if s.channel == [] then (s, true) else
      var (t, ok) := Emit(encode, s.(channel := s.channel[1..]), Sent(Channel, s.channel[0]));
      if ok then DrainChannel(encode, t) else (t, false)
  }

  /** Hand out what is buffered; `self-waking` is how the stream gets polled again for its end. */
  function Flush<C>(s: State<C>, cx: Waker): (State<C>, Outcome) {
    var ended := s.rxClosed || !s.senders;
    if s.writeBuf != [] then
      (s.(writeBuf := [], yielded := s.yielded + s.writeBuf, woken := if ended then s.woken + {cx} else s.woken),
       Yielded(s.writeBuf))
    else (s, if ended then Ended else Pending)
  }

  function Poll<C>(encode: Encoder<C>, s: State<C>): (State<C>, Outcome) {
    var cx := s.polls;
    var (drained, ok) := DrainQueue(encode, s.(polls := cx + 1));
    if !ok then (drained, Failed) else
      var ready := if drained.handles > 0 then Register(drained, cx) else drained.(rxClosed := true);
      var (empty, fine) := DrainChannel(encode, ready);
      if !fine then (empty, Failed) else Flush(empty, cx)
  }

  // ---- Everybody's steps ----

  datatype Step =
    | PollStream
    | Push(msg: Message)
    | Send(msg: Message)
    | LoseSenders
    | CloneHandle
    | DropClone
    | DropDecode

  function Do<C>(encode: Encoder<C>, s: State<C>, step: Step): State<C> {
    match step
    case PollStream => Poll(encode, s).0
    case Push(msg) => if s.handles > 0 then Wake(PushBack(s, msg)) else s
    case Send(msg) =>
      if s.senders && !s.rxClosed then s.(channel := s.channel + [msg], accepted := s.accepted + [msg]) else s
    case LoseSenders => s.(senders := false)
    case CloneHandle => if s.handles > 0 then s.(handles := s.handles + 1) else s
    case DropClone =>
      if s.handles > (if s.decodeAlive then 1 else 0) then s.(handles := s.handles - 1) else s
    case DropDecode =>
      if s.decodeAlive && s.handles > 0 then Wake(s).(decodeAlive := false, handles := s.handles - 1) else s
  }

  function Run<C>(encode: Encoder<C>, s: State<C>, steps: seq<Step>): State<C> {
    if steps == [] then s else
      Do(encode, Run(encode, s, steps[..|steps| - 1]), steps[|steps| - 1])
  }

  predicate Opened<C>(s: State<C>) {
    && s.queue == [] && s.waker.None? && s.decodeAlive && s.handles == 1
    && s.channel == [] && !s.rxClosed && s.writeBuf == []
    && s.pushed == [] && s.accepted == [] && s.consumed == [] && s.yielded == []
    && s.registered.None? && s.woken == {}
  }

  // ---- What the bytes must be ----

  /** One more message behind the bytes so far. One that the encoder refuses leaves no byte and no mark on the
      codec: the next is encoded as if it had not been there. */
  function Behind<C>(encode: Encoder<C>, sofar: (Bytes, C), msg: Message): (Bytes, C) {
    match encode(sofar.1, msg)
    case Rejected => sofar
    case Encoded(more, next) => (sofar.0 + more, next)
  }

  /** The encodings of the messages, one after the other, and the codec after them. */
  function EncodeAll<C>(encode: Encoder<C>, c: C, sent: seq<Sent>): (Bytes, C) {
    if sent == [] then ([], c) else Behind(encode, EncodeAll(encode, c, sent[..|sent| - 1]), sent[|sent| - 1].msg)
  }

  function From(origin: Origin, sent: seq<Sent>): seq<Message> {
    if sent == [] then [] else
      From(origin, sent[..|sent| - 1]) + if sent[|sent| - 1].from == origin then [sent[|sent| - 1].msg] else []
  }

  /** No message is lost, made up or overtaken on its way from a queue to the encoder; no byte after it. */
  ghost predicate FlowInv<C>(encode: Encoder<C>, first: C, s: State<C>) {
    && From(Local, s.consumed) + s.queue == s.pushed
    && From(Channel, s.consumed) + s.channel == s.accepted
    && EncodeAll(encode, first, s.consumed) == (s.yielded + s.writeBuf, s.codec)
  }

  /** A stored waker means that there is nothing it would have to be woken for. */
  predicate WakerInv<C>(s: State<C>) {
    && (s.waker.Some? ==> s.queue == [] && s.registered == s.waker)
    && (s.registered.Some? ==> s.waker == s.registered || s.registered.value in s.woken)
  }

  /** A message that is in nobody's hands for a moment ends up encoded. */
  lemma EmitFlows<C>(encode: Encoder<C>, first: C, s: State<C>, sent: Sent)
    requires From(Local, s.consumed) + (if sent.from.Local? then [sent.msg] else []) + s.queue == s.pushed
    requires From(Channel, s.consumed) + (if sent.from.Channel? then [sent.msg] else []) + s.channel == s.accepted
    requires EncodeAll(encode, first, s.consumed) == (s.yielded + s.writeBuf, s.codec)
    ensures FlowInv(encode, first, Emit(encode, s, sent).0)
  {
    EmitMoves(encode, s, sent);
    EmitEncodes(encode, first, s, sent);
  }

  lemma EmitMoves<C>(encode: Encoder<C>, s: State<C>, sent: Sent)
    ensures var t := Emit(encode, s, sent).0;
            && t.queue == s.queue && t.channel == s.channel && t.pushed == s.pushed && t.accepted == s.accepted
            && From(Local, t.consumed) == From(Local, s.consumed) + (if sent.from.Local? then [sent.msg] else [])
            && From(Channel, t.consumed) == From(Channel, s.consumed) + (if sent.from.Channel? then [sent.msg] else [])
  {
    assert (s.consumed + [sent])[..|s.consumed|] == s.consumed;
  }

  lemma EmitEncodes<C>(encode: Encoder<C>, first: C, s: State<C>, sent: Sent)
    requires EncodeAll(encode, first, s.consumed) == (s.yielded + s.writeBuf, s.codec)
    ensures var t := Emit(encode, s, sent).0;
            EncodeAll(encode, first, t.consumed) == (t.yielded + t.writeBuf, t.codec)
  {
    assert (s.consumed + [sent])[..|s.consumed|] == s.consumed;
    if encode(s.codec, sent.msg).Encoded? {
      var more := encode(s.codec, sent.msg).bytes;
      assert s.yielded + s.writeBuf + more == s.yielded + (s.writeBuf + more);
    }
  }

  /** What taking messages out leaves alone. */
  predicate OnlyEmits<C>(s: State<C>, t: State<C>) {
    && t.waker == s.waker && t.decodeAlive == s.decodeAlive && t.handles == s.handles && t.senders == s.senders
    && t.polls == s.polls && t.pushed == s.pushed && t.accepted == s.accepted && t.yielded == s.yielded
    && t.registered == s.registered && t.woken == s.woken
  }

  lemma {:induction false} DrainQueueFlows<C>(encode: Encoder<C>, first: C, s: State<C>)
    requires FlowInv(encode, first, s)
    ensures FlowInv(encode, first, DrainQueue(encode, s).0)
    ensures var (t, ok) := DrainQueue(encode, s);
            && OnlyEmits(s, t) && t.channel == s.channel
            && (ok ==> t.queue == [])
            && (!ok ==> s.queue != [])
    decreases |s.queue|
  {
    if s.queue != [] {
      var sent := Sent(Local, s.queue[0]);
      var taken := s.(queue := s.queue[1..]);
      var (t, ok) := Emit(encode, taken, sent);
      assert From(Local, s.consumed) + [s.queue[0]] + s.queue[1..] == s.pushed;
      assert From(Channel, s.consumed) + [] + s.channel == s.accepted;
      EmitFlows(encode, first, taken, sent);
      if ok {
        DrainQueueFlows(encode, first, t);
      }
    }
  }

  lemma {:induction false} DrainChannelFlows<C>(encode: Encoder<C>, first: C, s: State<C>)
    requires FlowInv(encode, first, s)
    ensures FlowInv(encode, first, DrainChannel(encode, s).0)
    ensures var (t, ok) := DrainChannel(encode, s);
            && OnlyEmits(s, t) && t.queue == s.queue
            && (ok ==> t.channel == [])
    decreases |s.channel|
  {
    if s.channel != [] {
      var sent := Sent(Channel, s.channel[0]);
      var taken := s.(channel := s.channel[1..]);
      var (t, ok) := Emit(encode, taken, sent);
      assert From(Channel, s.consumed) + [s.channel[0]] + s.channel[1..] == s.accepted;
      assert From(Local, s.consumed) + [] + s.queue == s.pushed;
      EmitFlows(encode, first, taken, sent);
      if ok {
        DrainChannelFlows(encode, first, t);
      }
    }
  }

  lemma FlowIgnoresPolls<C>(encode: Encoder<C>, first: C, s: State<C>)
    requires FlowInv(encode, first, s)
    ensures FlowInv(encode, first, s.(polls := s.polls + 1))
  {
  }

  lemma FlowIgnoresWaker<C>(encode: Encoder<C>, first: C, s: State<C>, t: State<C>)
    requires FlowInv(encode, first, s)
    requires t.(waker := s.waker, registered := s.registered, rxClosed := s.rxClosed) == s
    ensures FlowInv(encode, first, t)
  {
  }

  lemma FlushFlows<C>(encode: Encoder<C>, first: C, s: State<C>, cx: Waker)
    requires FlowInv(encode, first, s) && WakerInv(s)
    ensures var (t, outcome) := Flush(s, cx);
            && FlowInv(encode, first, t) && WakerInv(t)
            && (outcome == Ended ==> t == s && s.writeBuf == [])
            && (outcome == Pending ==> t == s)
  {
    assert s.yielded + s.writeBuf + [] == s.yielded + s.writeBuf;
  }

  /** Flushing moves bytes and loses none; the end is only reported when nothing is left anywhere. */
  lemma PollFlows<C>(encode: Encoder<C>, first: C, s: State<C>)
    requires FlowInv(encode, first, s) && WakerInv(s)
    ensures var (t, outcome) := Poll(encode, s);
            && FlowInv(encode, first, t) && WakerInv(t)
            && (outcome == Ended ==> t.queue == [] && t.channel == [] && t.writeBuf == [])
            && (outcome == Pending && t.handles > 0 ==> t.waker == Some(s.polls) == t.registered)
  {
    hide DrainQueue, DrainChannel, Flush, FlowInv;
    var s1 := s.(polls := s.polls + 1);
    assert FlowInv(encode, first, s1) by { FlowIgnoresPolls(encode, first, s); }
    DrainQueueFlows(encode, first, s1);
    var (drained, ok) := DrainQueue(encode, s1);
    if ok {
      var ready := if drained.handles > 0 then Register(drained, s.polls) else drained.(rxClosed := true);
      assert FlowInv(encode, first, ready) by { FlowIgnoresWaker(encode, first, drained, ready); }
      DrainChannelFlows(encode, first, ready);
      var (empty, fine) := DrainChannel(encode, ready);
      if fine {
        FlushFlows(encode, first, empty, s.polls);
      }
    }
  }

  lemma OthersFlow<C>(encode: Encoder<C>, first: C, s: State<C>, step: Step)
    requires FlowInv(encode, first, s) && WakerInv(s) && !step.PollStream?
    ensures FlowInv(encode, first, Do(encode, s, step)) && WakerInv(Do(encode, s, step))
  {
    match step
    case Push(msg) => PushFlows(encode, first, s, msg);
    case Send(msg) =>
      assert From(Channel, s.consumed) + (s.channel + [msg]) == From(Channel, s.consumed) + s.channel + [msg];
    case _ =>
  }

  lemma PushFlows<C>(encode: Encoder<C>, first: C, s: State<C>, msg: Message)
    requires FlowInv(encode, first, s) && WakerInv(s)
    ensures FlowInv(encode, first, Do(encode, s, Push(msg))) && WakerInv(Do(encode, s, Push(msg)))
  {
    assert From(Local, s.consumed) + (s.queue + [msg]) == From(Local, s.consumed) + s.queue + [msg];
  }

  lemma {:induction false} EveryRun<C>(encode: Encoder<C>, s: State<C>, steps: seq<Step>)
    requires Opened(s)
    ensures FlowInv(encode, s.codec, Run(encode, s, steps)) && WakerInv(Run(encode, s, steps))
  {
    if steps != [] {
      var before, step := Run(encode, s, steps[..|steps| - 1]), steps[|steps| - 1];
      EveryRun(encode, s, steps[..|steps| - 1]);
      if step.PollStream? {
        PollFlows(encode, s.codec, before);
      } else {
        OthersFlow(encode, s.codec, before, step);
      }
    }
  }

  // ---- What the reader of the stream sees ----

  /** The outcomes of the polls of a run, in order. */
  function Outcomes<C>(encode: Encoder<C>, s: State<C>, steps: seq<Step>): seq<Outcome> {
    if steps == [] then [] else
      var last := |steps| - 1;
      Outcomes(encode, s, steps[..last])
      + if steps[last].PollStream? then [Poll(encode, Run(encode, s, steps[..last])).1] else []
  }

  function Yields(outcomes: seq<Outcome>): Bytes {
    if outcomes == [] then [] else
      var last := |outcomes| - 1;
      Yields(outcomes[..last]) + if outcomes[last].Yielded? then outcomes[last].bytes else []
  }

  lemma YieldsAppend(outcomes: seq<Outcome>, outcome: Outcome)
    ensures Yields(outcomes + [outcome]) == Yields(outcomes) + if outcome.Yielded? then outcome.bytes else []
  {
    assert (outcomes + [outcome])[..|outcomes|] == outcomes;
  }

  /** A poll reports exactly the bytes that it adds to the history. */
  lemma PollReports<C>(encode: Encoder<C>, s: State<C>)
    ensures var (t, outcome) := Poll(encode, s);
            && t.yielded == s.yielded + (if outcome.Yielded? then outcome.bytes else [])
            && t.handles == s.handles
  {
    hide DrainQueue, DrainChannel;
    var s1 := s.(polls := s.polls + 1);
    DrainQueueKeeps(encode, s1);
    var (drained, ok) := DrainQueue(encode, s1);
    if ok {
      DrainChannelKeeps(encode, if drained.handles > 0 then Register(drained, s.polls) else drained.(rxClosed := true));
    }
  }

  lemma {:induction false} DrainQueueKeeps<C>(encode: Encoder<C>, s: State<C>)
    ensures OnlyEmits(s, DrainQueue(encode, s).0)
    decreases |s.queue|
  {
    if s.queue != [] {
      var (t, ok) := Emit(encode, s.(queue := s.queue[1..]), Sent(Local, s.queue[0]));
      if ok {
        DrainQueueKeeps(encode, t);
      }
    }
  }

  lemma {:induction false} DrainChannelKeeps<C>(encode: Encoder<C>, s: State<C>)
    ensures OnlyEmits(s, DrainChannel(encode, s).0)
    ensures s.rxClosed ==> DrainChannel(encode, s).0.rxClosed
    decreases |s.channel|
  {
    if s.channel != [] {
      var (t, ok) := Emit(encode, s.(channel := s.channel[1..]), Sent(Channel, s.channel[0]));
      if ok {
        DrainChannelKeeps(encode, t);
      }
    }
  }

  lemma {:induction false} RunReports<C>(encode: Encoder<C>, s: State<C>, steps: seq<Step>)
    requires Opened(s)
    ensures Run(encode, s, steps).yielded == Yields(Outcomes(encode, s, steps))
  {
    hide Poll;
    if steps != [] {
      var last := |steps| - 1;
      var before := Run(encode, s, steps[..last]);
      RunReports(encode, s, steps[..last]);
      if steps[last].PollStream? {
        PollReports(encode, before);
        YieldsAppend(Outcomes(encode, s, steps[..last]), Poll(encode, before).1);
      } else {
        assert Outcomes(encode, s, steps) == Outcomes(encode, s, steps[..last]);
      }
    }
  }

  /** In every interleaving, the bytes the reader has been given and those still buffered are the encodings of the
      messages taken out, and those are the messages put in, in the order of each queue, up to what still waits
      there. */
  lemma BytesAreTheMessages<C>(encode: Encoder<C>, s: State<C>, steps: seq<Step>)
    requires Opened(s)
    ensures var t := Run(encode, s, steps);
            && From(Local, t.consumed) + t.queue == t.pushed
            && From(Channel, t.consumed) + t.channel == t.accepted
            && EncodeAll(encode, s.codec, t.consumed) == (Yields(Outcomes(encode, s, steps)) + t.writeBuf, t.codec)
  {
    EveryRun(encode, s, steps);
    RunReports(encode, s, steps);
  }

  /** When the end is reported, every message ever put in has been taken out and yielded as bytes, but for those
      that were refused. */
  lemma EndMeansAllYielded<C>(encode: Encoder<C>, s: State<C>, steps: seq<Step>)
    requires Opened(s) && Poll(encode, Run(encode, s, steps)).1 == Ended
    ensures var t := Poll(encode, Run(encode, s, steps)).0;
            && t.queue == [] && t.channel == [] && t.writeBuf == []
            && From(Local, t.consumed) == t.pushed && From(Channel, t.consumed) == t.accepted
            && EncodeAll(encode, s.codec, t.consumed) == (Yields(Outcomes(encode, s, steps)), t.codec)
  {
    EveryRun(encode, s, steps);
    RunReports(encode, s, steps);
    PollFlows(encode, s.codec, Run(encode, s, steps));
    PollReports(encode, Run(encode, s, steps));
    var t := Poll(encode, Run(encode, s, steps)).0;
    assert t.yielded + t.writeBuf == t.yielded == Yields(Outcomes(encode, s, steps));
  }

  // ---- The waker ----

  /** A push never goes unnoticed: if the local queue is not empty, whoever registered last has been woken. */
  lemma NoPushUnwoken<C>(encode: Encoder<C>, s: State<C>, steps: seq<Step>)
    requires Opened(s)
    ensures var t := Run(encode, s, steps);
            && (t.waker.Some? ==> t.queue == [])
            && (t.registered.Some? && t.queue != [] ==> t.registered.value in t.woken)
  {
    EveryRun(encode, s, steps);
  }

  /** Whoever registered last has been woken since. */
  predicate Noticed<C>(s: State<C>) {
    s.registered.Some? ==> s.registered.value in s.woken
  }

  /** When the last other handle goes, the encoding half gets to know exactly if that handle was the decoding half
      itself, or no waker is stored, or its poll woke itself: a clone goes silently. */
  lemma EndIsNoticed<C>(encode: Encoder<C>, s: State<C>, steps: seq<Step>, step: Step)
    requires Opened(s)
    requires Run(encode, s, steps).handles > 0 && Do(encode, Run(encode, s, steps), step).handles == 0
    ensures var t := Run(encode, s, steps);
            Noticed(Do(encode, t, step)) <==> step == DropDecode || t.waker.None? || t.waker.value in t.woken
  {
    EveryRun(encode, s, steps);
    PollReports(encode, Run(encode, s, steps));
  }

  /** Polled after that with nothing left in the local queue, it closes the receiver and never waits again. */
  lemma EndIsPassedOn<C>(encode: Encoder<C>, s: State<C>)
    requires s.handles == 0 && s.queue == []
    ensures Poll(encode, s).0.rxClosed && Poll(encode, s).1 != Pending
  {
    DrainChannelKeeps(encode, s.(polls := s.polls + 1, rxClosed := true));
  }

  /** A run in which the end goes unnoticed: the decoding half goes first, its clone last. */
  lemma AnEndGoesUnnoticed<C>(encode: Encoder<C>, s: State<C>) returns (steps: seq<Step>)
    requires Opened(s) && s.senders
    ensures var t := Run(encode, s, steps);
            t.handles == 0 && !t.rxClosed && t.waker.Some? && !Noticed(t)
  {
    hide Run, Poll;
    RunNothing(encode, s);
    RunAppend(encode, s, [], CloneHandle);
    steps := [] + [CloneHandle];
    IdlePollRegisters(encode, Run(encode, s, steps));
    RunAppend(encode, s, steps, PollStream);
    steps := steps + [PollStream];
    RunAppend(encode, s, steps, DropDecode);
    steps := steps + [DropDecode];
    IdlePollRegisters(encode, Run(encode, s, steps));
    RunAppend(encode, s, steps, PollStream);
    steps := steps + [PollStream];
    RunAppend(encode, s, steps, DropClone);
    steps := steps + [DropClone];
  }

  lemma RunNothing<C>(encode: Encoder<C>, s: State<C>)
    ensures Run(encode, s, []) == s
  {
  }

  /** With nothing to do, a poll stores its waker. */
  lemma IdlePollRegisters<C>(encode: Encoder<C>, s: State<C>)
    requires s.queue == [] && s.channel == [] && s.writeBuf == [] && s.handles > 0 && s.senders && !s.rxClosed
    ensures Poll(encode, s) == (s.(polls := s.polls + 1, waker := Some(s.polls), registered := Some(s.polls)), Pending)
  {
  }

  lemma RunAppend<C>(encode: Encoder<C>, s: State<C>, steps: seq<Step>, step: Step)
    ensures Run(encode, s, steps + [step]) == Do(encode, Run(encode, s, steps), step)
  {
    assert (steps + [step])[..|steps|] == steps;
  }

  // ---- The receiver ----

  predicate SawClose(sent: seq<Sent>) {
    exists j :: 0 <= j < |sent| && sent[j].msg.Close?
  }

  /** The receiver is closed once a Close has been taken out, and for no other reason than that or the end of the
      other half. */
  ghost predicate CloseInv<C>(s: State<C>) {
    && (SawClose(s.consumed) ==> s.rxClosed)
    && (s.rxClosed ==> SawClose(s.consumed) || s.handles == 0)
  }

  lemma EmitCloses<C>(encode: Encoder<C>, s: State<C>, sent: Sent)
    requires CloseInv(s)
    ensures CloseInv(Emit(encode, s, sent).0)
  {
    var t := Emit(encode, s, sent).0;
    assert t.consumed[|s.consumed|] == sent;
    if j :| 0 <= j < |s.consumed| && s.consumed[j].msg.Close? {
      assert t.consumed[j].msg.Close?;
    }
    if j :| 0 <= j < |t.consumed| && t.consumed[j].msg.Close? {
      assert j < |s.consumed| ==> s.consumed[j].msg.Close?;
    }
  }

  lemma {:induction false} DrainQueueCloses<C>(encode: Encoder<C>, s: State<C>)
    requires CloseInv(s)
    ensures CloseInv(DrainQueue(encode, s).0)
    decreases |s.queue|
  {
    if s.queue != [] {
      var taken := s.(queue := s.queue[1..]);
      EmitCloses(encode, taken, Sent(Local, s.queue[0]));
      var (t, ok) := Emit(encode, taken, Sent(Local, s.queue[0]));
      if ok {
        DrainQueueCloses(encode, t);
      }
    }
  }

  lemma {:induction false} DrainChannelCloses<C>(encode: Encoder<C>, s: State<C>)
    requires CloseInv(s)
    ensures CloseInv(DrainChannel(encode, s).0)
    decreases |s.channel|
  {
    if s.channel != [] {
      var taken := s.(channel := s.channel[1..]);
      EmitCloses(encode, taken, Sent(Channel, s.channel[0]));
      var (t, ok) := Emit(encode, taken, Sent(Channel, s.channel[0]));
      if ok {
        DrainChannelCloses(encode, t);
      }
    }
  }

  lemma PollCloses<C>(encode: Encoder<C>, s: State<C>)
    requires CloseInv(s)
    ensures CloseInv(Poll(encode, s).0)
  {
    hide DrainQueue, DrainChannel, SawClose;
    var s1 := s.(polls := s.polls + 1);
    DrainQueueCloses(encode, s1);
    DrainQueueKeeps(encode, s1);
    var (drained, ok) := DrainQueue(encode, s1);
    if ok {
      DrainChannelCloses(encode, if drained.handles > 0 then Register(drained, s.polls) else drained.(rxClosed := true));
    }
  }

  /** In every run, the receiver is closed as soon as a Close has been taken out of either queue, and if it is closed
      then for that or because no other handle is left. */
  lemma {:induction false} CloseClosesReceiver<C>(encode: Encoder<C>, s: State<C>, steps: seq<Step>)
    requires Opened(s)
    ensures SawClose(Run(encode, s, steps).consumed) ==> Run(encode, s, steps).rxClosed
    ensures Run(encode, s, steps).rxClosed ==> SawClose(Run(encode, s, steps).consumed) || Run(encode, s, steps).handles == 0
  {
    if steps != [] {
      var before := Run(encode, s, steps[..|steps| - 1]);
      CloseClosesReceiver(encode, s, steps[..|steps| - 1]);
      if steps[|steps| - 1].PollStream? {
        PollCloses(encode, before);
      }
    }
  }

  lemma {:induction false} DrainQueueStaysClosed<C>(encode: Encoder<C>, s: State<C>)
    requires s.rxClosed
    ensures DrainQueue(encode, s).0.rxClosed
    decreases |s.queue|
  {
    if s.queue != [] {
      var (t, ok) := Emit(encode, s.(queue := s.queue[1..]), Sent(Local, s.queue[0]));
      if ok {
        DrainQueueStaysClosed(encode, t);
      }
    }
  }

  lemma PollKeepsGates<C>(encode: Encoder<C>, s: State<C>)
    ensures var t := Poll(encode, s).0;
            && (s.rxClosed ==> t.rxClosed)
            && t.accepted == s.accepted && t.pushed == s.pushed && t.senders == s.senders && t.handles == s.handles
  {
    hide DrainQueue, DrainChannel;
    var s1 := s.(polls := s.polls + 1);
    DrainQueueKeeps(encode, s1);
    if s.rxClosed {
      DrainQueueStaysClosed(encode, s1);
    }
    var (drained, ok) := DrainQueue(encode, s1);
    if ok {
      DrainChannelKeeps(encode, if drained.handles > 0 then Register(drained, s.polls) else drained.(rxClosed := true));
    }
  }

  function Sends(steps: seq<Step>): seq<Message> {
    if steps == [] then [] else
      var last := steps[|steps| - 1];
      Sends(steps[..|steps| - 1]) + if last.Send? then [last.msg] else []
  }

  function Pushes(steps: seq<Step>): seq<Message> {
    if steps == [] then [] else
      var last := steps[|steps| - 1];
      Pushes(steps[..|steps| - 1]) + if last.Push? then [last.msg] else []
  }

  lemma GatesStep<C>(encode: Encoder<C>, s: State<C>, step: Step)
    ensures var t := Do(encode, s, step);
            && t.accepted == s.accepted + (if step.Send? && s.senders && !s.rxClosed then [step.msg] else [])
            && t.pushed == s.pushed + (if step.Push? && s.handles > 0 then [step.msg] else [])
            && (t.senders ==> s.senders) && (s.rxClosed ==> t.rxClosed) && (t.handles > 0 ==> s.handles > 0)
  {
    PollKeepsGates(encode, s);
    hide Poll;
  }

  /** Nothing that is sent while the receiver is open is lost, and nothing that comes later is accepted: the accepted
      messages are a front part of those sent, and all of them as long as the receiver is open to senders. The same
      goes for pushes as long as there is a handle to push through. */
  lemma {:induction false} AcceptedIsWhatWasSent<C>(encode: Encoder<C>, s: State<C>, steps: seq<Step>)
    requires Opened(s) && s.senders
    ensures var t := Run(encode, s, steps);
            && t.accepted <= Sends(steps) && t.pushed <= Pushes(steps)
            && (t.senders && !t.rxClosed ==> t.accepted == Sends(steps))
            && (t.handles > 0 ==> t.pushed == Pushes(steps))
  {
    hide Do, Opened;
    if steps != [] {
      AcceptedIsWhatWasSent(encode, s, steps[..|steps| - 1]);
      GatesStep(encode, Run(encode, s, steps[..|steps| - 1]), steps[|steps| - 1]);
    } else {
      OpenedIsEmpty(s);
    }
  }

  lemma OpenedIsEmpty<C>(s: State<C>)
    requires Opened(s)
    ensures s.accepted == [] && s.pushed == []
  {
  }

  /** Once the receiver is closed it stays closed, and no later send is accepted. */
  lemma {:induction false} ClosedForGood<C>(encode: Encoder<C>, s: State<C>, steps: seq<Step>)
    requires s.rxClosed
    ensures Run(encode, s, steps).rxClosed && Run(encode, s, steps).accepted == s.accepted
  {
    hide Poll;
    if steps != [] {
      ClosedForGood(encode, s, steps[..|steps| - 1]);
      PollKeepsGates(encode, Run(encode, s, steps[..|steps| - 1]));
    }
  }

  /** Senders are gone exactly once they have been lost, and so is the decoding half once it has been dropped. */
  lemma {:induction false} LossesTakeEffect<C>(encode: Encoder<C>, s: State<C>, steps: seq<Step>)
    requires Opened(s)
    ensures Run(encode, s, steps).senders <==> s.senders && LoseSenders !in steps
    ensures Run(encode, s, steps).decodeAlive <==> DropDecode !in steps
    ensures Run(encode, s, steps).decodeAlive ==> Run(encode, s, steps).handles > 0
  {
    hide Poll;
    if steps != [] {
      var before := Run(encode, s, steps[..|steps| - 1]);
      LossesTakeEffect(encode, s, steps[..|steps| - 1]);
      PollKeepsGates(encode, before);
      PollKeepsHalf(encode, before);
    }
  }

  lemma PollKeepsHalf<C>(encode: Encoder<C>, s: State<C>)
    ensures Poll(encode, s).0.decodeAlive == s.decodeAlive
  {
    hide DrainQueue, DrainChannel;
    var s1 := s.(polls := s.polls + 1);
    DrainQueueKeeps(encode, s1);
    var (drained, ok) := DrainQueue(encode, s1);
    if ok {
      DrainChannelKeeps(encode, if drained.handles > 0 then Register(drained, s.polls) else drained.(rxClosed := true));
    }
  }

  // ---- What a poll comes to ----

  function Tagged(origin: Origin, msgs: seq<Message>): seq<Sent> {
    seq(|msgs|, j requires 0 <= j < |msgs| => Sent(origin, msgs[j]))
  }

  /** The message is refused by the encoder as the messages before it left it. */
  predicate RefusedAt<C>(encode: Encoder<C>, first: C, sent: seq<Sent>, j: nat)
    requires j < |sent|
  {
    encode(EncodeAll(encode, first, sent[..j]).1, sent[j].msg).Rejected?
  }

  /** From `s` to `t`, the messages of `todo` were taken out in order: all of them, or up to a refused one. */
  ghost predicate TookOut<C>(encode: Encoder<C>, first: C, before: seq<Sent>, after: seq<Sent>, todo: seq<Sent>, ok: bool) {
    && before <= after <= before + todo
    && (ok ==> after == before + todo)
    && (!ok ==> after != before && RefusedAt(encode, first, after, |after| - 1))
    && (forall j: nat | |before| <= j < |after| && RefusedAt(encode, first, after, j) :: !ok && j == |after| - 1)
  }

  lemma TookNone<C>(encode: Encoder<C>, first: C, before: seq<Sent>)
    ensures TookOut(encode, first, before, before, [], true)
  {
  }

  lemma TookOne<C>(encode: Encoder<C>, first: C, before: seq<Sent>, one: Sent)
    ensures TookOut(encode, first, before, before + [one], [one],
                    encode(EncodeAll(encode, first, before).1, one.msg).Encoded?)
  {
    assert (before + [one])[..|before|] == before;
  }

  lemma TookMore<C>(encode: Encoder<C>, first: C, a: seq<Sent>, b: seq<Sent>, c: seq<Sent>, x: seq<Sent>, y: seq<Sent>,
                    ok: bool)
    requires TookOut(encode, first, a, b, x, true) && TookOut(encode, first, b, c, y, ok)
    ensures TookOut(encode, first, a, c, x + y, ok)
  {
    assert a + x + y == a + (x + y);
    forall j: nat | |a| <= j < |c| && RefusedAt(encode, first, c, j) ensures !ok && j == |c| - 1 {
      if j < |b| {
        assert c[..j] == b[..j] && RefusedAt(encode, first, b, j);
      }
    }
  }

  lemma TookSome<C>(encode: Encoder<C>, first: C, a: seq<Sent>, b: seq<Sent>, x: seq<Sent>, y: seq<Sent>)
    requires TookOut(encode, first, a, b, x, false)
    ensures TookOut(encode, first, a, b, x + y, false)
  {
    assert a + x + y == a + (x + y);
  }

  lemma {:induction false} DrainQueueTakes<C>(encode: Encoder<C>, first: C, s: State<C>)
    requires FlowInv(encode, first, s)
    ensures var (t, ok) := DrainQueue(encode, s);
            && TookOut(encode, first, s.consumed, t.consumed, Tagged(Local, s.queue), ok)
            && t.channel == s.channel && (ok ==> t.queue == [])
    decreases |s.queue|
  {
    if s.queue == [] {
      TookNone(encode, first, s.consumed);
    } else {
      var one := Sent(Local, s.queue[0]);
      var taken := s.(queue := s.queue[1..]);
      var (t, ok) := Emit(encode, taken, one);
      assert Tagged(Local, s.queue) == [one] + Tagged(Local, s.queue[1..]);
      TookOne(encode, first, s.consumed, one);
      if ok {
        assert From(Local, s.consumed) + [s.queue[0]] + s.queue[1..] == s.pushed;
        assert From(Channel, s.consumed) + [] + s.channel == s.accepted;
        EmitFlows(encode, first, taken, one);
        DrainQueueTakes(encode, first, t);
        var (u, fine) := DrainQueue(encode, t);
        TookMore(encode, first, s.consumed, t.consumed, u.consumed, [one], Tagged(Local, t.queue), fine);
      } else {
        TookSome(encode, first, s.consumed, t.consumed, [one], Tagged(Local, s.queue[1..]));
      }
    }
  }

  lemma {:induction false} DrainChannelTakes<C>(encode: Encoder<C>, first: C, s: State<C>)
    requires FlowInv(encode, first, s)
    ensures var (t, ok) := DrainChannel(encode, s);
            && TookOut(encode, first, s.consumed, t.consumed, Tagged(Channel, s.channel), ok)
            && t.queue == s.queue && (ok ==> t.channel == [])
    decreases |s.channel|
  {
    if s.channel == [] {
      TookNone(encode, first, s.consumed);
    } else {
      var one := Sent(Channel, s.channel[0]);
      var taken := s.(channel := s.channel[1..]);
      var (t, ok) := Emit(encode, taken, one);
      assert Tagged(Channel, s.channel) == [one] + Tagged(Channel, s.channel[1..]);
      TookOne(encode, first, s.consumed, one);
      if ok {
        assert From(Channel, s.consumed) + [s.channel[0]] + s.channel[1..] == s.accepted;
        assert From(Local, s.consumed) + [] + s.queue == s.pushed;
        EmitFlows(encode, first, taken, one);
        DrainChannelTakes(encode, first, t);
        var (u, fine) := DrainChannel(encode, t);
        TookMore(encode, first, s.consumed, t.consumed, u.consumed, [one], Tagged(Channel, t.channel), fine);
      } else {
        TookSome(encode, first, s.consumed, t.consumed, [one], Tagged(Channel, s.channel[1..]));
      }
    }
  }

  /** What a poll that was refused nothing reports: new bytes if there are any, with a wake of its own if the channel
      has ended; otherwise the end if the channel has ended, and Pending if not. */
  ghost predicate Delivers<C>(s: State<C>, t: State<C>, outcome: Outcome) {
    var ended := t.rxClosed || !t.senders;
    && t.queue == [] && t.channel == [] && t.writeBuf == []
    && s.yielded <= t.yielded
    && (if t.yielded != s.yielded then
          outcome == Yielded(t.yielded[|s.yielded|..]) && (ended ==> s.polls in t.woken)
        else outcome == if ended then Ended else Pending)
    && (t.handles > 0 ==> t.waker == Some(s.polls))
  }

  /** In every reachable state a poll takes out the local queue and then the channel, up to the first message that
      the encoder refuses; it fails exactly if there is one, and otherwise delivers. */
  lemma PollMeans<C>(encode: Encoder<C>, first: C, s: State<C>)
    requires FlowInv(encode, first, s) && WakerInv(s)
    ensures var (t, outcome) := Poll(encode, s);
            && TookOut(encode, first, s.consumed, t.consumed, Tagged(Local, s.queue) + Tagged(Channel, s.channel),
                       outcome != Failed)
            && (outcome != Failed ==> Delivers(s, t, outcome))
  {
    hide DrainQueue, DrainChannel, FlowInv, TookOut;
    var s1 := s.(polls := s.polls + 1);
    assert FlowInv(encode, first, s1) by { FlowIgnoresPolls(encode, first, s); }
    DrainQueueFlows(encode, first, s1);
    DrainQueueTakes(encode, first, s1);
    var (drained, ok) := DrainQueue(encode, s1);
    if ok {
      var ready := if drained.handles > 0 then Register(drained, s.polls) else drained.(rxClosed := true);
      assert FlowInv(encode, first, ready) by { FlowIgnoresWaker(encode, first, drained, ready); }
      DrainChannelFlows(encode, first, ready);
      DrainChannelTakes(encode, first, ready);
      var (empty, fine) := DrainChannel(encode, ready);
      TookMore(encode, first, s.consumed, drained.consumed, empty.consumed,
               Tagged(Local, s.queue), Tagged(Channel, s.channel), fine);
    } else {
      TookSome(encode, first, s.consumed, drained.consumed, Tagged(Local, s.queue), Tagged(Channel, s.channel));
    }
  }
}
