/** The incoming half of a websocket: chunks of bytes in, messages out, with a heartbeat timer beside them. */
module WsDecode {
  import opened Wrappers
  import opened WsTypes

  type Time = nat

  datatype Frame =
    | TextFrame(data: Bytes)
    | BinaryFrame(data: Bytes)
    | PingFrame(data: Bytes)
    | PongFrame(data: Bytes)
    | CloseFrame(reason: Option<nat>)
    | ContinuationFrame(data: Bytes)

  /** What the codec makes of a buffer: too little for a frame, a frame with the bytes it used up, or a violation
      of the protocol, after which the buffer is whatever the codec left. */
  datatype Decoded<C> = NoFrame | Decoded(frame: Frame, used: nat, codec: C) | Violation(codec: C, left: Bytes)

  datatype Error = Protocol | NotUtf8 | Io

  /** The codec and the settings of one stream. */
  datatype Config<!C> = Config(decode: (C, Bytes) -> Decoded<C>, utf8: Bytes -> bool,
                               interval: nat, timeout: nat, serverSendsHeartbeat: bool)

  /** The codec uses up some bytes for each frame, and more bytes behind a frame do not change it. */
  ghost predicate Lawful<C(!new)>(k: Config<C>) {
    && (forall c, b :: k.decode(c, b).Decoded? ==> 0 < k.decode(c, b).used <= |b|)
    && (forall c, b, x :: k.decode(c, b).Decoded? ==> k.decode(c, b + x) == k.decode(c, b))
  }

  /** Messages are frames; only the text of a text message has to be checked. */
  function ToMessage(f: Frame): Message {
    match f
    case TextFrame(data) => Text(data)
    case BinaryFrame(data) => Binary(data)
    case PingFrame(data) => Ping(data)
    case PongFrame(data) => Pong(data)
    case CloseFrame(reason) => Close(reason)
    case ContinuationFrame(data) => Continuation(data)
  }

  predicate Readable<C>(k: Config<C>, f: Frame) {
    f.TextFrame? ==> k.utf8(f.data)
  }

  /** What a frame comes to for the reader of the stream: its message, or none if it is an unreadable text. */
  function ItemOf<C>(k: Config<C>, f: Frame): Option<Message> {
    if Readable(k, f) then Some(ToMessage(f)) else None
  }

  /** Decoding a whole byte string at once, up to its first incomplete or bad frame. */
  function DecodeAll<C>(k: Config<C>, c: C, b: Bytes): seq<Option<Message>>
    decreases |b|
  {
    if b == [] then [] else
      match k.decode(c, b)
      case NoFrame => []
      case Violation(_, _) => []
      case Decoded(frame, used, next) =>
        if 0 < used <= |b| then [ItemOf(k, frame)] + DecodeAll(k, next, b[used..]) else []
  }

  // ---- The stream ----

  datatype ChunkPoll = NotReady | Chunk(bytes: Bytes) | Broken

  /** `source` is what the payload stream will return to its polls; after it, the end. `timer` is the deadline of
      the sleep, `deadline` that of the peer. The rest is history: the bytes read, the items that came of them and when,
      whether the codec found a violation, the last time the peer was heard, the ticks that passed, and the tick that
      closed. */
  datatype State<C> = State(source: seq<ChunkPoll>, buf: Bytes, codec: C, timer: Option<Time>, deadline: Time,
                            pushed: seq<Message>, received: Bytes, items: seq<Option<Message>>, times: seq<Time>,
                            violated: bool, heard: Time, ticks: seq<Time>, closing: Option<Closing>)

  /** The deadline of the closing tick, the time it was noticed, and when the peer had last been heard. */
  datatype Closing = Closing(tick: Time, now: Time, heard: Time)

  datatype Outcome = Pending | Yielded(msg: Message) | Failed(error: Error) | Ended

  const NORMAL: nat := 1000
  const PING: Bytes := [0x70, 0x69, 0x6e, 0x67]

  predicate Fires<C>(s: State<C>, now: Time, fired: bool) {
    fired ==> s.timer.Some? && s.timer.value <= now
  }

  /** A frame taken from the buffer becomes a message; Ping and Pong put the deadline off. A text that cannot be
      read is an error of its own, and the stream goes on behind it. */
  function TakeFrame<C>(k: Config<C>, s: State<C>, d: Decoded<C>, now: Time): (State<C>, Outcome)
    requires d.Decoded? && d.used <= |s.buf|
  {
    var item := ItemOf(k, d.frame);
    var taken := s.(buf := s.buf[d.used..], codec := d.codec, items := s.items + [item], times := s.times + [now]);
    if item.None? then (taken, Failed(NotUtf8)) else
      (if IsBeat(item) then taken.(deadline := now + k.timeout, heard := now) else taken, Yielded(item.value))
  }

  predicate IsBeat(item: Option<Message>) {
    item.Some? && (item.value.Ping? || item.value.Pong?)
  }

  /** The payload has nothing to offer: look at the timer. `fired` says whether its sleep is ready. */
  function Idle<C>(k: Config<C>, s: State<C>, now: Time, fired: bool): (State<C>, Outcome)
    requires Fires(s, now, fired)
  {
    if !fired then (s, Pending)
    else if s.timer.value >= s.deadline then
      (s.(pushed := s.pushed + [Close(Some(NORMAL))], closing := Some(Closing(s.timer.value, now, s.heard))), Ended)
    else
      (s.(timer := Some(s.timer.value + k.interval), ticks := s.ticks + [s.timer.value],
          pushed := if k.serverSendsHeartbeat then s.pushed + [Ping(PING)] else s.pushed), Pending)
  }

  /** One call of `poll_next` at time `now`. */
  function Poll<C(!new)>(k: Config<C>, s: State<C>, now: Time, fired: bool): (State<C>, Outcome)
    requires Lawful(k) && Fires(s, now, fired)
    decreases |s.source|
  {
    var d := if s.buf == [] then NoFrame else k.decode(s.codec, s.buf);
    match d
    case Decoded(_, _, _) => TakeFrame(k, s, d, now)
    case Violation(codec, left) => (s.(codec := codec, buf := left, violated := true), Failed(Protocol))
    case NoFrame =>
      if s.source == [] then (s, Ended) else
        match s.source[0]
        case Chunk(bytes) =>
          Poll(k, s.(source := s.source[1..], buf := s.buf + bytes, received := s.received + bytes), now, fired)
        case Broken => (s.(source := s.source[1..]), Failed(Io))
        case NotReady => Idle(k, s.(source := s.source[1..]), now, fired)
  }

  // ---- Incremental decoding ----

  /** Decoding `items` one by one from `b` with codec `c` leads to `rest` with codec `d`. */
  ghost predicate Leads<C>(k: Config<C>, c: C, b: Bytes, items: seq<Option<Message>>, d: C, rest: Bytes)
    decreases |items|
  {
    if items == [] then d == c && rest == b else
      && b != []
      && var x := k.decode(c, b);
      && x.Decoded? && 0 < x.used <= |b| && items[0] == ItemOf(k, x.frame)
      && Leads(k, x.codec, b[x.used..], items[1..], d, rest)
  }

  lemma {:induction false} LeadsSplitsDecodeAll<C>(k: Config<C>, c: C, b: Bytes, items: seq<Option<Message>>, d: C, rest: Bytes)
    requires Leads(k, c, b, items, d, rest)
    ensures DecodeAll(k, c, b) == items + DecodeAll(k, d, rest)
    decreases |items|
  {
    if items != [] {
      var x := k.decode(c, b);
      LeadsSplitsDecodeAll(k, x.codec, b[x.used..], items[1..], d, rest);
      assert items == [items[0]] + items[1..];
    }
  }

  /** More bytes behind change nothing of what was decoded. */
  lemma {:induction false} LeadsExtends<C(!new)>(k: Config<C>, c: C, b: Bytes, items: seq<Option<Message>>, d: C, rest: Bytes,
                                                 more: Bytes)
    requires Lawful(k) && Leads(k, c, b, items, d, rest)
    ensures Leads(k, c, b + more, items, d, rest + more)
    decreases |items|
  {
    if items != [] {
      var x := k.decode(c, b);
      assert k.decode(c, b + more) == x;
      assert (b + more)[x.used..] == b[x.used..] + more;
      LeadsExtends(k, x.codec, b[x.used..], items[1..], d, rest, more);
    }
  }

  lemma {:induction false} LeadsOneMore<C>(k: Config<C>, c: C, b: Bytes, items: seq<Option<Message>>, d: C, rest: Bytes)
    requires Leads(k, c, b, items, d, rest) && rest != []
    requires var x := k.decode(d, rest); x.Decoded? && 0 < x.used <= |rest|
    ensures var x := k.decode(d, rest);
            Leads(k, c, b, items + [ItemOf(k, x.frame)], x.codec, rest[x.used..])
    decreases |items|
  {
    var y := k.decode(d, rest);
    var longer := items + [ItemOf(k, y.frame)];
    if items == [] {
      assert longer[1..] == [];
    } else {
      var x := k.decode(c, b);
      LeadsOneMore(k, x.codec, b[x.used..], items[1..], d, rest);
      assert longer[1..] == items[1..] + [ItemOf(k, y.frame)];
    }
  }

  // ---- What every poll keeps ----

  function Flatten(source: seq<ChunkPoll>): Bytes {
    if source == [] then [] else (if source[0].Chunk? then source[0].bytes else []) + Flatten(source[1..])
  }

  /** Until the codec finds a violation, the items lead from all the bytes received to the buffer. */
  ghost predicate DecodeInv<C>(k: Config<C>, first: C, all: Bytes, s: State<C>) {
    && s.received + Flatten(s.source) == all
    && (!s.violated ==> Leads(k, first, s.received, s.items, s.codec, s.buf))
  }

  lemma ChunkKeepsInv<C(!new)>(k: Config<C>, first: C, all: Bytes, s: State<C>)
    requires Lawful(k) && DecodeInv(k, first, all, s) && s.source != [] && s.source[0].Chunk?
    ensures var bytes := s.source[0].bytes;
            DecodeInv(k, first, all, s.(source := s.source[1..], buf := s.buf + bytes, received := s.received + bytes))
  {
    var bytes := s.source[0].bytes;
    if !s.violated {
      LeadsExtends(k, first, s.received, s.items, s.codec, s.buf, bytes);
    }
    assert s.received + bytes + Flatten(s.source[1..]) == s.received + (bytes + Flatten(s.source[1..]));
  }

  lemma {:induction false} PollDecodes<C(!new)>(k: Config<C>, first: C, all: Bytes, s: State<C>, now: Time, fired: bool)
    requires Lawful(k) && DecodeInv(k, first, all, s) && Fires(s, now, fired)
    ensures DecodeInv(k, first, all, Poll(k, s, now, fired).0)
    decreases |s.source|
  {
    var d := if s.buf == [] then NoFrame else k.decode(s.codec, s.buf);
    match d
    case Decoded(frame, used, codec) =>
      if !s.violated {
        LeadsOneMore(k, first, s.received, s.items, s.codec, s.buf);
      }
    case Violation(_, _) =>
    case NoFrame =>
      if s.source == [] {
      } else if s.source[0].Chunk? {
        ChunkKeepsInv(k, first, all, s);
        var bytes := s.source[0].bytes;
        PollDecodes(k, first, all,
                    s.(source := s.source[1..], buf := s.buf + bytes, received := s.received + bytes), now, fired);
      } else {
        assert Flatten(s.source) == Flatten(s.source[1..]);
      }
  }

  /** When the source has ended, nothing more can be decoded from the buffer. */
  lemma EndedIsDry<C(!new)>(k: Config<C>, s: State<C>, now: Time, fired: bool)
    requires Lawful(k) && Fires(s, now, fired)
    requires Poll(k, s, now, fired).1 == Ended && s.closing.None? && Poll(k, s, now, fired).0.closing.None?
    ensures var t := Poll(k, s, now, fired).0;
            t.source == [] && DecodeAll(k, t.codec, t.buf) == []
    decreases |s.source|
  {
    if s.source != [] && s.source[0].Chunk? {
      EndedIsDry(k, s.(source := s.source[1..], buf := s.buf + s.source[0].bytes,
                       received := s.received + s.source[0].bytes), now, fired);
    }
  }

  // ---- Runs ----

  /** A poll at some time, and whether the sleep was found ready. */
  datatype Tick = Tick(now: Time, fired: bool)

  ghost predicate IsRun<C(!new)>(k: Config<C>, s: State<C>, polls: seq<Tick>)
    requires Lawful(k)
    decreases |polls|, 0
  {
    polls == [] ||
    var last := |polls| - 1;
    && IsRun(k, s, polls[..last])
    && Fires(After(k, s, polls[..last]), polls[last].now, polls[last].fired)
    && (last > 0 ==> polls[last - 1].now <= polls[last].now)
  }

  ghost function After<C(!new)>(k: Config<C>, s: State<C>, polls: seq<Tick>): State<C>
    requires Lawful(k) && IsRun(k, s, polls)
    decreases |polls|, 1
  {
    if polls == [] then s else
      var last := |polls| - 1;
      Poll(k, After(k, s, polls[..last]), polls[last].now, polls[last].fired).0
  }

  ghost predicate Opened<C>(s: State<C>) {
    && s.buf == [] && s.received == [] && s.items == [] && s.times == [] && !s.violated
    && s.ticks == [] && s.closing.None? && s.pushed == []
  }

  lemma {:induction false} EveryRunDecodes<C(!new)>(k: Config<C>, s: State<C>, polls: seq<Tick>)
    requires Lawful(k) && Opened(s) && IsRun(k, s, polls)
    ensures DecodeInv(k, s.codec, Flatten(s.source), After(k, s, polls))
  {
    if polls != [] {
      var last := |polls| - 1;
      EveryRunDecodes(k, s, polls[..last]);
      PollDecodes(k, s.codec, Flatten(s.source), After(k, s, polls[..last]), polls[last].now, polls[last].fired);
    }
  }

  lemma {:induction false} LeadsIsPrefix<C(!new)>(k: Config<C>, c: C, b: Bytes, items: seq<Option<Message>>, d: C,
                                                  rest: Bytes, more: Bytes)
    requires Lawful(k) && Leads(k, c, b, items, d, rest)
    ensures items <= DecodeAll(k, c, b + more)
  {
    LeadsExtends(k, c, b, items, d, rest, more);
    LeadsSplitsDecodeAll(k, c, b + more, items, d, rest + more);
  }

  // ---- What the reader of the stream sees ----

  ghost function Outcomes<C(!new)>(k: Config<C>, s: State<C>, polls: seq<Tick>): (r: seq<Outcome>)
    requires Lawful(k) && IsRun(k, s, polls)
    ensures |r| == |polls|
    decreases |polls|
  {
    if polls == [] then [] else
      var last := |polls| - 1;
      Outcomes(k, s, polls[..last])
      + [Poll(k, After(k, s, polls[..last]), polls[last].now, polls[last].fired).1]
  }

  /** The messages among the outcomes, and None for each text that was reported unreadable. */
  function Yields(outcomes: seq<Outcome>): seq<Option<Message>> {
    if outcomes == [] then [] else
      var last := |outcomes| - 1;
      Yields(outcomes[..last]) + match outcomes[last]
                                 case Yielded(msg) => [Some(msg)]
                                 case Failed(error) => if error == NotUtf8 then [None] else []
                                 case _ => []
  }

  /** The outcomes up to the first violation of the protocol, or all of them. */
  function BeforeViolation(outcomes: seq<Outcome>): seq<Outcome> {
    if outcomes == [] then [] else
      var last := |outcomes| - 1;
      if Failed(Protocol) in outcomes[..last] then BeforeViolation(outcomes[..last])
      else if outcomes[last] == Failed(Protocol) then outcomes[..last]
      else outcomes
  }

  /** A poll reports exactly what it adds to the history. */
  lemma PollReports<C(!new)>(k: Config<C>, s: State<C>, now: Time, fired: bool)
    requires Lawful(k) && Fires(s, now, fired)
    ensures var (t, outcome) := Poll(k, s, now, fired);
            && t.items == s.items + Yields([outcome])
            && (t.violated <==> s.violated || outcome == Failed(Protocol))
    decreases |s.source|
  {
    if s.source != [] && s.source[0].Chunk? {
      PollReports(k, s.(source := s.source[1..], buf := s.buf + s.source[0].bytes,
                        received := s.received + s.source[0].bytes), now, fired);
    }
  }

  lemma YieldsAppend(outcomes: seq<Outcome>, outcome: Outcome)
    ensures Yields(outcomes + [outcome]) == Yields(outcomes) + Yields([outcome])
  {
    assert (outcomes + [outcome])[..|outcomes|] == outcomes;
    assert [outcome][..0] == [];
  }

  lemma {:induction false} RunReports<C(!new)>(k: Config<C>, s: State<C>, polls: seq<Tick>)
    requires Lawful(k) && IsRun(k, s, polls)
    ensures After(k, s, polls).items == s.items + Yields(Outcomes(k, s, polls))
    ensures After(k, s, polls).violated <==> s.violated || Failed(Protocol) in Outcomes(k, s, polls)
  {
    hide Poll;
    if polls != [] {
      var last := |polls| - 1;
      var before := After(k, s, polls[..last]);
      RunReports(k, s, polls[..last]);
      PollReports(k, before, polls[last].now, polls[last].fired);
      YieldsAppend(Outcomes(k, s, polls[..last]), Poll(k, before, polls[last].now, polls[last].fired).1);
    }
  }

  /** However the bytes are cut into chunks and the polls are spread, and whatever errors the payload and the texts
      make, what the reader sees up to the first violation is a prefix of decoding all the bytes at once. */
  lemma {:induction false} ChunkingDoesNotMatter<C(!new)>(k: Config<C>, s: State<C>, polls: seq<Tick>)
    requires Lawful(k) && Opened(s) && IsRun(k, s, polls)
    ensures Yields(BeforeViolation(Outcomes(k, s, polls))) <= DecodeAll(k, s.codec, Flatten(s.source))
  {
    if polls == [] {
      return;
    }
    var last := |polls| - 1;
    var seen := Outcomes(k, s, polls);
    assert seen[..last] == Outcomes(k, s, polls[..last]);
    if Failed(Protocol) in seen[..last] {
      ChunkingDoesNotMatter(k, s, polls[..last]);
    } else if seen[last] == Failed(Protocol) {
      SeenIsPrefix(k, s, polls[..last]);
    } else {
      SeenIsPrefix(k, s, polls);
    }
  }

  lemma SeenIsPrefix<C(!new)>(k: Config<C>, s: State<C>, polls: seq<Tick>)
    requires Lawful(k) && Opened(s) && IsRun(k, s, polls)
    requires Failed(Protocol) !in Outcomes(k, s, polls)
    ensures Yields(Outcomes(k, s, polls)) <= DecodeAll(k, s.codec, Flatten(s.source))
  {
    RunReports(k, s, polls);
    EveryRunDecodes(k, s, polls);
    var t := After(k, s, polls);
    LeadsIsPrefix(k, s.codec, t.received, t.items, t.codec, t.buf, Flatten(t.source));
  }

  /** And it is all of it once the source has ended, neither after a violation nor by the heartbeat. */
  lemma EndMeansAllDecoded<C(!new)>(k: Config<C>, s: State<C>, polls: seq<Tick>, tick: Tick)
    requires Lawful(k) && Opened(s) && IsRun(k, s, polls) && Fires(After(k, s, polls), tick.now, tick.fired)
    requires Failed(Protocol) !in Outcomes(k, s, polls)
    requires var (t, outcome) := Poll(k, After(k, s, polls), tick.now, tick.fired);
             outcome == Ended && t.closing.None?
    ensures Yields(Outcomes(k, s, polls)) == DecodeAll(k, s.codec, Flatten(s.source))
  {
    EveryRunDecodes(k, s, polls);
    RunReports(k, s, polls);
    var before := After(k, s, polls);
    var t := Poll(k, before, tick.now, tick.fired).0;
    PollReports(k, before, tick.now, tick.fired);
    ClosingStays(k, before, tick.now, tick.fired);
    PollDecodes(k, s.codec, Flatten(s.source), before, tick.now, tick.fired);
    EndedIsDry(k, before, tick.now, tick.fired);
    LeadsSplitsDecodeAll(k, s.codec, t.received, t.items, t.codec, t.buf);
    assert t.received + [] == t.received;
  }

  lemma ClosingStays<C(!new)>(k: Config<C>, s: State<C>, now: Time, fired: bool)
    requires Lawful(k) && Fires(s, now, fired)
    ensures s.closing.Some? ==> Poll(k, s, now, fired).0.closing.Some?
    decreases |s.source|
  {
    if s.source != [] && s.source[0].Chunk? {
      ClosingStays(k, s.(source := s.source[1..], buf := s.buf + s.source[0].bytes,
                         received := s.received + s.source[0].bytes), now, fired);
    }
  }

  // ---- One poll, without the loop ----

  /** What the codec makes of the buffer and the first `n` chunks of the payload. */
  function Decode<C>(k: Config<C>, s: State<C>, n: nat): Decoded<C>
    requires n <= |s.source|
  {
    var b := s.buf + Flatten(s.source[..n]);
    if b == [] then NoFrame else k.decode(s.codec, b)
  }

  /** The poll reads exactly the first `n` chunks: none of them before the last completes a frame. */
  predicate Reads<C>(k: Config<C>, s: State<C>, n: nat) {
    && n <= |s.source|
    && (forall j | 0 <= j < n :: s.source[j].Chunk? && Decode(k, s, j).NoFrame?)
    && (Decode(k, s, n).NoFrame? ==> n == |s.source| || !s.source[n].Chunk?)
  }

  /** The message of each kind of frame carries what the frame carried. */
  predicate Reports(utf8: Bytes -> bool, frame: Frame, outcome: Outcome) {
    match frame
    case TextFrame(data) => outcome == if utf8(data) then Yielded(Text(data)) else Failed(NotUtf8)
    case BinaryFrame(data) => outcome == Yielded(Binary(data))
    case PingFrame(data) => outcome == Yielded(Ping(data))
    case PongFrame(data) => outcome == Yielded(Pong(data))
    case CloseFrame(reason) => outcome == Yielded(Close(reason))
    case ContinuationFrame(data) => outcome == Yielded(Continuation(data))
  }

  /** The timer, once its sleep is ready, either closes or ticks. */
  predicate TimerActs<C>(k: Config<C>, s: State<C>, t: State<C>, now: Time, fired: bool, outcome: Outcome) {
    if !fired then outcome == Pending && t.ticks == s.ticks && t.pushed == s.pushed && t.timer == s.timer
    else if s.timer.Some? && s.timer.value < s.deadline then
      && outcome == Pending && t.ticks == s.ticks + [s.timer.value]
      && t.pushed == s.pushed + (if k.serverSendsHeartbeat then [Ping([0x70, 0x69, 0x6e, 0x67])] else [])
      && t.timer.Some? && t.timer.value - s.timer.value == k.interval
    else
      && outcome == Ended && t.ticks == s.ticks && t.pushed == s.pushed + [Close(Some(1000))]
      && t.closing.Some? && t.closing.value.now == now
  }

  /** What a poll that reads `n` chunks reports, and what it leaves unread. */
  ghost predicate Meets<C>(k: Config<C>, s: State<C>, n: nat, now: Time, fired: bool, t: State<C>, outcome: Outcome)
    requires n <= |s.source|
  {
    match Decode(k, s, n)
    case Decoded(frame, used, codec) =>
      && Reports(k.utf8, frame, outcome)
      && t.source == s.source[n..] && t.codec == codec
      && used <= |s.buf + Flatten(s.source[..n])| && t.buf == (s.buf + Flatten(s.source[..n]))[used..]
    case Violation(_, _) => outcome == Failed(Protocol) && t.source == s.source[n..]
    case NoFrame =>
      && t.buf == s.buf + Flatten(s.source[..n]) && t.codec == s.codec
      && if n == |s.source| then outcome == Ended && t.source == []
         else if s.source[n].Broken? then outcome == Failed(Io) && t.source == s.source[n + 1..]
         else t.source == s.source[n + 1..] && TimerActs(k, s, t, now, fired, outcome)
  }

  /** A poll reads chunks until they complete a frame or break the protocol, or until there are no more for now, and
      reports exactly that: the message of that very frame, the violation, the end of the payload, its error, or what
      the timer says. */
  lemma {:induction false} PollMeans<C(!new)>(k: Config<C>, s: State<C>, now: Time, fired: bool) returns (n: nat)
    requires Lawful(k) && Fires(s, now, fired)
    ensures Reads(k, s, n)
    ensures Meets(k, s, n, now, fired, Poll(k, s, now, fired).0, Poll(k, s, now, fired).1)
    decreases |s.source|
  {
    assert s.buf + Flatten(s.source[..0]) == s.buf;
    if Decode(k, s, 0).NoFrame? && s.source != [] && s.source[0].Chunk? {
      var next := Read(s);
      var m := PollMeans(k, next, now, fired);
      n := m + 1;
      ReadsOneMore(k, s, next, m);
      MeetsOneMore(k, s, next, m, now, fired);
    } else {
      n := 0;
      MeetsAtOnce(k, s, now, fired);
    }
  }

  /** The stream with one more chunk in its buffer. */
  function Read<C>(s: State<C>): State<C>
    requires s.source != [] && s.source[0].Chunk?
  {
    s.(source := s.source[1..], buf := s.buf + s.source[0].bytes, received := s.received + s.source[0].bytes)
  }

  lemma MeetsAtOnce<C(!new)>(k: Config<C>, s: State<C>, now: Time, fired: bool)
    requires Lawful(k) && Fires(s, now, fired) && s.buf + Flatten(s.source[..0]) == s.buf
    requires Decode(k, s, 0).NoFrame? ==> s.source == [] || !s.source[0].Chunk?
    ensures Reads(k, s, 0)
    ensures Meets(k, s, 0, now, fired, Poll(k, s, now, fired).0, Poll(k, s, now, fired).1)
  {
    hide Decode;
    assert Decode(k, s, 0) == if s.buf == [] then NoFrame else k.decode(s.codec, s.buf) by { DecodeHere(k, s); }
    assert s.source[0..] == s.source;
  }

  lemma DecodeHere<C>(k: Config<C>, s: State<C>)
    ensures Decode(k, s, 0) == if s.buf == [] then NoFrame else k.decode(s.codec, s.buf)
  {
    assert s.buf + Flatten(s.source[..0]) == s.buf;
  }

  lemma MeetsOneMore<C(!new)>(k: Config<C>, s: State<C>, next: State<C>, m: nat, now: Time, fired: bool)
    requires Lawful(k) && Fires(s, now, fired)
    requires s.source != [] && s.source[0].Chunk? && Decode(k, s, 0).NoFrame? && next == Read(s)
    requires Reads(k, next, m)
    requires s.buf + Flatten(s.source[..m + 1]) == next.buf + Flatten(next.source[..m])
    requires Decode(k, s, m + 1) == Decode(k, next, m)
    requires Meets(k, next, m, now, fired, Poll(k, next, now, fired).0, Poll(k, next, now, fired).1)
    ensures Meets(k, s, m + 1, now, fired, Poll(k, s, now, fired).0, Poll(k, s, now, fired).1)
  {
    DecodeHere(k, s);
    assert Poll(k, s, now, fired) == Poll(k, next, now, fired);
    hide Poll, Decode, Flatten, Lawful;
  }

  lemma ReadsOneMore<C>(k: Config<C>, s: State<C>, next: State<C>, m: nat)
    requires s.source != [] && s.source[0].Chunk? && Decode(k, s, 0).NoFrame?
    requires next == Read(s) && Reads(k, next, m)
    ensures Reads(k, s, m + 1)
    ensures s.buf + Flatten(s.source[..m + 1]) == next.buf + Flatten(next.source[..m])
    ensures Decode(k, s, m + 1) == Decode(k, next, m)
  {
    forall j: nat | j <= m ensures s.buf + Flatten(s.source[..j + 1]) == next.buf + Flatten(next.source[..j]) {
      assert s.source[..j + 1][0] == s.source[0] && s.source[..j + 1][1..] == next.source[..j];
    }
    forall j: nat | j < m + 1 ensures s.source[j].Chunk? && Decode(k, s, j).NoFrame? {
      if j > 0 {
        assert next.source[j - 1] == s.source[j] && Decode(k, next, j - 1).NoFrame?;
      }
    }
  }

  // ---- The heartbeat ----

  /** The ticks so far, each one interval after the one before, the first one interval after `start`. */
  predicate EvenTicks(start: Time, interval: nat, ticks: seq<Time>) {
    && (ticks != [] ==> ticks[0] == start + interval)
    && (forall j | 0 < j < |ticks| :: ticks[j] == ticks[j - 1] + interval)
  }

  function LastTick(start: Time, ticks: seq<Time>): Time {
    if ticks == [] then start else ticks[|ticks| - 1]
  }

  /** A close comes no sooner than `timeout` after the peer was heard, and at the first tick at which that is so. */
  predicate TimelyClose<C>(k: Config<C>, c: Closing) {
    && c.heard + k.timeout <= c.tick <= c.now
    && c.tick < c.heard + k.timeout + k.interval
  }

  /** When the last Ping or Pong was decoded; `start` if there was none. */
  function LastHeard(start: Time, items: seq<Option<Message>>, times: seq<Time>): Time
    requires |items| == |times|
  {
    if items == [] then start else
      var last := |items| - 1;
      if IsBeat(items[last]) then times[last] else LastHeard(start, items[..last], times[..last])
  }

  /** The pings that `n` ticks put on the local queue: one a tick, if so configured. */
  function Beats<C>(k: Config<C>, n: nat): seq<Message> {
    if k.serverSendsHeartbeat then seq(n, _ => Ping(PING)) else []
  }

  /** What the timer has put on the local queue so far: the pings of its ticks, and the close. */
  predicate PushedByTicks<C>(k: Config<C>, s: State<C>) {
    if s.closing.Some? then Close(Some(NORMAL)) in s.pushed else s.pushed == Beats(k, |s.ticks|)
  }

  predicate HeartInv<C>(k: Config<C>, start: Time, birth: Time, s: State<C>, clock: Time) {
    && start <= s.heard <= clock
    && |s.items| == |s.times|
    && s.heard == LastHeard(birth, s.items, s.times)
    && PushedByTicks(k, s)
    && s.deadline == s.heard + k.timeout
    && EvenTicks(start, k.interval, s.ticks)
    && (s.timer.Some? ==> s.timer.value == LastTick(start, s.ticks) + k.interval)
    && LastTick(start, s.ticks) < s.deadline
    && (s.closing.Some? ==> TimelyClose(k, s.closing.value))
  }

  lemma PollBeats<C(!new)>(k: Config<C>, start: Time, birth: Time, s: State<C>, clock: Time, now: Time, fired: bool)
    requires Lawful(k) && Fires(s, now, fired)
    requires HeartInv(k, start, birth, s, clock) && clock <= now
    ensures HeartInv(k, start, birth, Poll(k, s, now, fired).0, now)
    decreases |s.source|
  {
    var d := if s.buf == [] then NoFrame else k.decode(s.codec, s.buf);
    if d.NoFrame? && s.source != [] {
      if s.source[0].Chunk? {
        PollBeats(k, start, birth, s.(source := s.source[1..], buf := s.buf + s.source[0].bytes,
                               received := s.received + s.source[0].bytes), clock, now, fired);
      } else if s.source[0].NotReady? {
        IdleBeats(k, start, birth, s.(source := s.source[1..]), now, fired);
      }
    } else if d.Decoded? {
      FrameBeats(k, start, birth, s, d, now);
    }
  }

  lemma FrameBeats<C>(k: Config<C>, start: Time, birth: Time, s: State<C>, d: Decoded<C>, now: Time)
    requires d.Decoded? && d.used <= |s.buf| && HeartInv(k, start, birth, s, now)
    ensures HeartInv(k, start, birth, TakeFrame(k, s, d, now).0, now)
  {
    LastHeardAppend(birth, s.items, s.times, ItemOf(k, d.frame), now);
  }

  lemma LastHeardAppend(start: Time, items: seq<Option<Message>>, times: seq<Time>, item: Option<Message>, now: Time)
    requires |items| == |times|
    ensures LastHeard(start, items + [item], times + [now])
         == if IsBeat(item) then now else LastHeard(start, items, times)
  {
    assert (items + [item])[..|items|] == items;
    assert (times + [now])[..|times|] == times;
  }

  lemma IdleBeats<C>(k: Config<C>, start: Time, birth: Time, s: State<C>, now: Time, fired: bool)
    requires Fires(s, now, fired) && HeartInv(k, start, birth, s, now)
    ensures HeartInv(k, start, birth, Idle(k, s, now, fired).0, now)
  {
    IdlePushes(k, s, now, fired);
    IdleTicks(k, start, s, now, fired);
  }

  lemma IdleTicks<C>(k: Config<C>, start: Time, s: State<C>, now: Time, fired: bool)
    requires Fires(s, now, fired) && EvenTicks(start, k.interval, s.ticks)
    requires s.timer.Some? ==> s.timer.value == LastTick(start, s.ticks) + k.interval
    requires LastTick(start, s.ticks) < s.deadline
    ensures var t := Idle(k, s, now, fired).0;
            && EvenTicks(start, k.interval, t.ticks)
            && (t.timer.Some? ==> t.timer.value == LastTick(start, t.ticks) + k.interval)
            && LastTick(start, t.ticks) < t.deadline
  {
    TickKeepsEven(start, k.interval, s.ticks);
  }

  lemma TickKeepsEven(start: Time, interval: nat, ticks: seq<Time>)
    requires EvenTicks(start, interval, ticks)
    ensures EvenTicks(start, interval, ticks + [LastTick(start, ticks) + interval])
  {
    var more := ticks + [LastTick(start, ticks) + interval];
    forall j | 0 < j < |more| ensures more[j] == more[j - 1] + interval {
      assert more[j - 1] == ticks[j - 1];
      assert j < |ticks| ==> more[j] == ticks[j];
    }
  }

  lemma IdlePushes<C>(k: Config<C>, s: State<C>, now: Time, fired: bool)
    requires Fires(s, now, fired) && PushedByTicks(k, s)
    ensures PushedByTicks(k, Idle(k, s, now, fired).0)
  {
    var t := Idle(k, s, now, fired).0;
    if s.closing.Some? {
      assert s.pushed <= t.pushed;
    } else if k.serverSendsHeartbeat {
      assert Beats(k, |s.ticks| + 1) == Beats(k, |s.ticks|) + [Ping(PING)];
    }
  }

  /** However late the polls come, ticks stay one interval apart, and the connection is closed neither before the
      peer has been silent for `timeout` nor after more than `timeout + interval`, as ticks go. The peer is heard
      by its Pings and Pongs and by nothing else. */
  lemma {:induction false} HeartbeatKeepsTime<C(!new)>(k: Config<C>, s: State<C>, polls: seq<Tick>, start: Time)
    requires Lawful(k) && Opened(s) && IsRun(k, s, polls)
    requires k.timeout > 0 && start <= s.heard && s.deadline == s.heard + k.timeout
    requires s.timer.Some? ==> s.timer.value == start + k.interval
    requires forall j | 0 <= j < |polls| :: s.heard <= polls[j].now
    ensures var t := After(k, s, polls);
            && EvenTicks(start, k.interval, t.ticks)
            && |t.items| == |t.times| && t.heard == LastHeard(s.heard, t.items, t.times)
            && (t.closing.Some? ==> TimelyClose(k, t.closing.value))
            && PushedByTicks(k, t)
    ensures HeartInv(k, start, s.heard, After(k, s, polls), if polls == [] then s.heard else polls[|polls| - 1].now)
  {
    if polls != [] {
      var last := |polls| - 1;
      HeartbeatKeepsTime(k, s, polls[..last], start);
      PollBeats(k, start, s.heard, After(k, s, polls[..last]), if last == 0 then s.heard else polls[last - 1].now,
                polls[last].now, polls[last].fired);
    }
  }

  /** The poll that closes sees the last Ping, Pong or start as long ago as promised. */
  lemma ClosingPollIsTimely<C(!new)>(k: Config<C>, s: State<C>, polls: seq<Tick>, start: Time, tick: Tick)
    requires Lawful(k) && Opened(s) && IsRun(k, s, polls + [tick]) && IsRun(k, s, polls)
    requires k.timeout > 0 && start <= s.heard && s.deadline == s.heard + k.timeout
    requires s.timer.Some? ==> s.timer.value == start + k.interval
    requires forall j | 0 <= j < |polls| + 1 :: s.heard <= (polls + [tick])[j].now
    requires After(k, s, polls).closing.None? && After(k, s, polls + [tick]).closing.Some?
    ensures var t := After(k, s, polls + [tick]);
            && |t.items| == |t.times|
            && t.closing.value
               == Closing(LastTick(start, t.ticks) + k.interval, tick.now, LastHeard(s.heard, t.items, t.times))
            && TimelyClose(k, t.closing.value)
            && t.pushed == Beats(k, |t.ticks|) + [Close(Some(NORMAL))]
  {
    assert (polls + [tick])[..|polls|] == polls;
    forall j | 0 <= j < |polls| ensures s.heard <= polls[j].now {
      assert (polls + [tick])[j] == polls[j];
    }
    HeartbeatKeepsTime(k, s, polls, start);
    HeartbeatKeepsTime(k, s, polls + [tick], start);
    assert After(k, s, polls + [tick]) == Poll(k, After(k, s, polls), tick.now, tick.fired).0;
    CloseRecords(k, start, After(k, s, polls), tick.now, tick.fired);
  }

  lemma CloseRecords<C(!new)>(k: Config<C>, start: Time, s: State<C>, now: Time, fired: bool)
    requires Lawful(k) && Fires(s, now, fired)
    requires s.timer.Some? ==> s.timer.value == LastTick(start, s.ticks) + k.interval
    requires s.closing.None? && Poll(k, s, now, fired).0.closing.Some?
    ensures var t := Poll(k, s, now, fired).0;
            && t.closing.value == Closing(LastTick(start, t.ticks) + k.interval, now, t.heard)
            && t.ticks == s.ticks && t.pushed == s.pushed + [Close(Some(NORMAL))]
    decreases |s.source|
  {
    var d := if s.buf == [] then NoFrame else k.decode(s.codec, s.buf);
    if d.NoFrame? && s.source != [] && s.source[0].Chunk? {
      CloseRecords(k, start, s.(source := s.source[1..], buf := s.buf + s.source[0].bytes,
                                received := s.received + s.source[0].bytes), now, fired);
    }
  }
}
