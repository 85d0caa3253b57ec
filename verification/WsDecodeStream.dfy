/** The incoming half as the objects whose fields it updates. */
module WsDecodeStream {
  import opened Wrappers
  import opened WsTypes
  import opened WsDecode

  /** A timer of the runtime: it has a deadline and can be set anew. */
  class Sleep {
    var deadline: Time

    constructor (deadline: Time)
      ensures this.deadline == deadline
    {
      this.deadline := deadline;
    }

    method Reset(deadline: Time)
      modifies this
      ensures this.deadline == deadline
    {
      this.deadline := deadline;
    }
  }

  class HeartBeat {
    const interval: nat
    const timeout: nat
    var deadline: Time

    constructor (interval: nat, timeout: nat, now: Time)
      ensures this.interval == interval && this.timeout == timeout && deadline == now + timeout
    {
      this.interval, this.timeout, deadline := interval, timeout, now + timeout;
    }

    method Update(now: Time)
      modifies this
      ensures deadline == now + timeout
    {
      deadline := now + timeout;
    }

    /** Start the next round of the timer from its own deadline, unless the peer's has passed by then. */
    method Set(timer: Sleep) returns (alive: bool)
      modifies timer
      ensures alive == (old(timer.deadline) < deadline)
      ensures timer.deadline == if alive then old(timer.deadline) + interval else old(timer.deadline)
    {
      var now := timer.deadline;
      if now >= deadline {
        return false;
      }
      timer.Reset(now + interval);
      return true;
    }
  }

  class DecodeStream<C(!new)> {
    const k: Config<C>
    const hb: HeartBeat
    const timer: Sleep?
    var source: seq<ChunkPoll>
    var readBuf: Bytes
    var codec: C
    var pushed: seq<Message>
    ghost var received: Bytes
    ghost var items: seq<Option<Message>>
    ghost var times: seq<Time>
    ghost var violated: bool
    ghost var heard: Time
    ghost var ticks: seq<Time>
    ghost var closing: Option<Closing>

    ghost predicate Valid()
      reads this
    {
      Lawful(k) && hb.interval == k.interval && hb.timeout == k.timeout
    }

    constructor (k: Config<C>, codec: C, source: seq<ChunkPoll>, timed: bool, start: Time, now: Time)
      requires Lawful(k) && start <= now
      ensures Valid() && this.k == k && fresh(hb) && (timer != null ==> fresh(timer))
      ensures Opened(View()) && View().source == source && View().codec == codec
      ensures View().timer == if timed then Some(start + k.interval) else None
      ensures View().deadline == now + k.timeout && View().heard == now
    {
      this.k, this.codec, this.source := k, codec, source;
      readBuf, pushed, received, items, times, violated := [], [], [], [], [], false;
      heard, ticks, closing := now, [], None;
      var t: Sleep? := null;
      if timed {
        t := new Sleep(start + k.interval);
      }
      timer := t;
      hb := new HeartBeat(k.interval, k.timeout, now);
    }

    ghost function View(): State<C>
      reads this, hb, timer
    {
      State(source, readBuf, codec, if timer == null then None else Some(timer.deadline), hb.deadline, pushed,
            received, items, times, violated, heard, ticks, closing)
    }

    /** One poll at time `now`; `fired` is what polling the sleep would give. */
    method PollNext(now: Time, fired: bool) returns (outcome: Outcome)
      requires Valid() && Fires(View(), now, fired)
      modifies this, hb, timer
      ensures Valid()
      ensures (View(), outcome) == Poll(k, old(View()), now, fired)
    {
      while true
        invariant Fires(View(), now, fired)
        invariant Poll(k, View(), now, fired) == Poll(k, old(View()), now, fired)
        decreases |source|
      {
        if readBuf != [] {
          var decoded := k.decode(codec, readBuf);
          match decoded {
            case Decoded(_, _, _) =>
              outcome := OnFrame(decoded, now);
              return;
            case Violation(next, left) =>
              codec, readBuf, violated := next, left, true;
              return Failed(Protocol);
            case NoFrame =>
          }
        }
        if source == [] {
          return Ended;
        }
        var polled := source[0];
        source := source[1..];
        match polled {
          case Chunk(bytes) =>
            readBuf, received := readBuf + bytes, received + bytes;
          case Broken =>
            return Failed(Io);
          case NotReady =>
            outcome := OnIdle(now, fired);
            return;
        }
      }
    }

    method OnFrame(decoded: Decoded<C>, now: Time) returns (outcome: Outcome)
      requires decoded.Decoded? && decoded.used <= |readBuf| && hb.timeout == k.timeout
      modifies this`readBuf, this`codec, this`items, this`times, this`heard, hb
      ensures (View(), outcome) == TakeFrame(k, old(View()), decoded, now)
    {
      readBuf, codec := readBuf[decoded.used..], decoded.codec;
      items, times := items + [ItemOf(k, decoded.frame)], times + [now];
      match decoded.frame {
        case TextFrame(data) =>
          if !k.utf8(data) {
            return Failed(NotUtf8);
          }
        case PingFrame(_) =>
          hb.Update(now);
          heard := now;
        case PongFrame(_) =>
          hb.Update(now);
          heard := now;
        case _ =>
      }
      return Yielded(ToMessage(decoded.frame));
    }

    method OnIdle(now: Time, fired: bool) returns (outcome: Outcome)
      requires Valid() && Fires(View(), now, fired)
      modifies this`pushed, this`ticks, this`closing, timer
      ensures (View(), outcome) == Idle(k, old(View()), now, fired)
    {
      if fired {
        ghost var tick := timer.deadline;
        var alive := hb.Set(timer);
        if !alive {
          pushed := pushed + [Close(Some(NORMAL))];
          closing := Some(Closing(tick, now, heard));
          return Ended;
        }
        ticks := ticks + [tick];
        if k.serverSendsHeartbeat {
          pushed := pushed + [Ping(PING)];
        }
      }
      return Pending;
    }
  }
}
