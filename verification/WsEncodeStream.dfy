/** The outgoing half as the objects whose fields it updates. */
module WsEncodeStream {
  import opened Wrappers
  import opened WsTypes
  import opened WsEncode

  /** The queue both halves share, and the waker of the encoding half. */
  class QueueInner {
    var queue: seq<Message>
    var waker: Option<Waker>

    constructor ()
      ensures queue == [] && waker.None?
    {
      queue, waker := [], None;
    }

    method PopFront() returns (msg: Option<Message>)
      modifies this`queue
      ensures if old(queue) == [] then msg.None? && queue == [] else msg == Some(old(queue)[0]) && queue == old(queue)[1..]
    {
      if queue == [] {
        return None;
      }
      msg := Some(queue[0]);
      queue := queue[1..];
    }

    method PushBack(msg: Message)
      modifies this`queue
      ensures queue == old(queue) + [msg]
    {
      queue := queue + [msg];
    }

    method Register(cx: Waker)
      modifies this`waker
      ensures waker == Some(cx)
    {
      waker := Some(cx);
    }

    /** Take the waker, so that it is woken once. */
    method Wake() returns (woken: Option<Waker>)
      modifies this`waker
      ensures woken == old(waker) && waker.None?
    {
      woken := waker;
      waker := None;
    }
  }

  class EncodeStream<C> {
    const encode: Encoder<C>
    const local: QueueInner
    var channel: seq<Message>
    var rxClosed: bool
    var senders: bool
    var decodeAlive: bool
    var handles: nat
    var codec: C
    var writeBuf: Bytes
    var polls: nat
    ghost var pushed: seq<Message>
    ghost var accepted: seq<Message>
    ghost var consumed: seq<Sent>
    ghost var yielded: Bytes
    ghost var registered: Option<Waker>
    ghost var woken: set<Waker>

    constructor (encode: Encoder<C>, codec: C)
      ensures this.encode == encode && fresh(local) && Opened(View()) && View().codec == codec
    {
      this.encode, this.codec := encode, codec;
      local := new QueueInner();
      channel, rxClosed, senders, decodeAlive, handles := [], false, true, true, 1;
      writeBuf, polls := [], 0;
      pushed, accepted, consumed, yielded := [], [], [], [];
      registered, woken := None, {};
    }

    ghost function View(): State<C>
      reads this, local
    {
      State(local.queue, local.waker, decodeAlive, handles, channel, rxClosed, senders, codec, writeBuf, polls,
            pushed, accepted, consumed, yielded, registered, woken)
    }

    /** The methods of the shared local queue: text, binary, ping, pong and close all do this. */
    method Push(msg: Message)
      requires handles > 0
      modifies this`pushed, this`woken, local
      ensures View() == Do(encode, old(View()), Step.Push(msg))
    {
      local.PushBack(msg);
      pushed := pushed + [msg];
      var waker := local.Wake();
      if waker.Some? {
        woken := woken + {waker.value};
      }
    }

    /** `WebSocketSender::send`: refused once the receiver is closed. */
    method Send(msg: Message) returns (sent: bool)
      requires senders
      modifies this`channel, this`accepted
      ensures View() == Do(encode, old(View()), Step.Send(msg)) && sent == !rxClosed
    {
      sent := !rxClosed;
      if sent {
        channel := channel + [msg];
        accepted := accepted + [msg];
      }
    }

    /** Put one message that was taken out through the encoder. */
    method EmitOne(sent: Sent) returns (ok: bool)
      modifies this`rxClosed, this`codec, this`writeBuf, this`consumed
      ensures (View(), ok) == Emit(encode, old(View()), sent)
    {
      consumed := consumed + [sent];
      if sent.msg.Close? {
        rxClosed := true;
      }
      match encode(codec, sent.msg) {
        case Rejected =>
          return false;
        case Encoded(bytes, next) =>
          codec, writeBuf := next, writeBuf + bytes;
          return true;
      }
    }

    method PollNext() returns (outcome: Outcome)
      modifies this, local
      ensures (View(), outcome) == Poll(encode, old(View()))
    {
      hide DrainQueue, DrainChannel, Flush;
      var cx := polls;
      polls := polls + 1;
      var ok := TakeLocal();
      if !ok {
        return Failed;
      }
      RegisterOrClose(cx);
      ok := TakeChannel();
      if !ok {
        return Failed;
      }
      outcome := FlushOut(cx);
    }

    /** Close the receiver when nobody else holds the local queue, else ask to be woken by its next push. */
    method RegisterOrClose(cx: Waker)
      modifies this`rxClosed, this`registered, local`waker
      ensures View() == if old(handles) > 0 then Register(old(View()), cx) else old(View()).(rxClosed := true)
    {
      if handles == 0 {
        rxClosed := true;
      } else {
        local.Register(cx);
        registered := Some(cx);
      }
    }

    method FlushOut(cx: Waker) returns (outcome: Outcome)
      modifies this`writeBuf, this`yielded, this`woken
      ensures (View(), outcome) == Flush(old(View()), cx)
    {
      var ended := rxClosed || !senders;
      if writeBuf != [] {
        outcome := Yielded(writeBuf);
        yielded := yielded + writeBuf;
        writeBuf := [];
        if ended {
          woken := woken + {cx};
        }
      } else {
        outcome := if ended then Ended else Pending;
      }
    }

    method TakeLocal() returns (ok: bool)
      modifies this`rxClosed, this`codec, this`writeBuf, this`consumed, local`queue
      ensures (View(), ok) == DrainQueue(encode, old(View()))
    {
      hide Emit;
      while true
        invariant DrainQueue(encode, old(View())) == DrainQueue(encode, View())
        decreases |local.queue|
      {
        var msg := local.PopFront();
        if msg.None? {
          return true;
        }
        ok := EmitOne(Sent(Local, msg.value));
        if !ok {
          return false;
        }
      }
    }

    method TakeChannel() returns (ok: bool)
      modifies this`rxClosed, this`codec, this`writeBuf, this`consumed, this`channel
      ensures (View(), ok) == DrainChannel(encode, old(View()))
    {
      hide Emit;
      while channel != []
        invariant DrainChannel(encode, old(View())) == DrainChannel(encode, View())
        decreases |channel|
      {
        var msg := channel[0];
        channel := channel[1..];
        ok := EmitOne(Sent(Channel, msg));
        if !ok {
          return false;
        }
      }
      return true;
    }
  }
}
