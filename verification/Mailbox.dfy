/** What an actor stream talks to: the queue of its address, and one one-shot channel per message. */
module Mailbox {
  /** One-shot channels are numbered in the order of their creation. */
  type Channel = nat

  datatype Cell<R> = Empty | Sent(reply: R) | Gone

  datatype Envelope<I> = Envelope(channel: Channel, item: I)

  /** `serving` are the messages some context has taken and not finished; `handled` says, for each channel that got
      a reply, which message was handled for it and what its handler returned. */
  datatype World<I, R> = World(queue: seq<Envelope<I>>, serving: seq<Envelope<I>>, closed: bool,
                               cells: seq<Cell<R>>, handled: map<Channel, (I, R)>)

  /** What everybody else does: other senders, the contexts, and the end of the address. */
  datatype Act<I, R> =
    | OtherSend(item: I)
    | Take
    | Finish(n: nat, reply: R)
    | Abandon(n: nat)
    | Discard
    | Close

  function Fresh<I, R>(w: World<I, R>): Channel {
    |w.cells|
  }

  /** A new channel, and the attempt to queue a message with its sender: a refused sender is dropped. */
  function TrySend<I, R>(w: World<I, R>, item: I): World<I, R> {
    if w.closed then w.(cells := w.cells + [Gone])
    else w.(cells := w.cells + [Empty], queue := w.queue + [Envelope(|w.cells|, item)])
  }

  /** An act that cannot happen changes nothing. */
  function Do<I, R>(w: World<I, R>, act: Act<I, R>): World<I, R> {
    match act
    case OtherSend(item) => TrySend(w, item)
    case Take =>
      if w.queue == [] then w else w.(queue := w.queue[1..], serving := w.serving + [w.queue[0]])
    case Finish(n, reply) =>
      if n < |w.serving| && w.serving[n].channel < |w.cells| && w.cells[w.serving[n].channel].Empty? then
        var e := w.serving[n];
        w.(serving := w.serving[..n] + w.serving[n + 1..], cells := w.cells[e.channel := Sent(reply)],
           handled := w.handled[e.channel := (e.item, reply)])
      else w
    case Abandon(n) =>
      if n < |w.serving| && w.serving[n].channel < |w.cells| && w.cells[w.serving[n].channel].Empty? then
        w.(serving := w.serving[..n] + w.serving[n + 1..], cells := w.cells[w.serving[n].channel := Gone])
      else w
    case Discard =>
      if w.queue != [] && w.queue[0].channel < |w.cells| && w.cells[w.queue[0].channel].Empty? then
        w.(queue := w.queue[1..], cells := w.cells[w.queue[0].channel := Gone])
      else w
    case Close => w.(closed := true)
  }

  function DoAll<I, R>(w: World<I, R>, acts: seq<Act<I, R>>): World<I, R>
    decreases |acts|
  {
    if acts == [] then w else DoAll(Do(w, acts[0]), acts[1..])
  }

  // ---- What holds in every world ----

  ghost predicate Carried<I(!new), R>(w: World<I, R>, channel: Channel, item: I) {
    Envelope(channel, item) in w.queue || Envelope(channel, item) in w.serving
  }

  /** The item that travels with a channel is `item`, for good; until the channel settles the message is queued or
      being served. */
  ghost predicate Owns<I(!new), R>(w: World<I, R>, channel: Channel, item: I) {
    && channel < |w.cells|
    && (forall other | Carried(w, channel, other) :: other == item)
    && (w.cells[channel].Empty? ==> Carried(w, channel, item))
    && (w.cells[channel].Sent? ==> channel in w.handled && w.handled[channel] == (item, w.cells[channel].reply))
  }

  ghost predicate WorldInv<I(!new), R>(w: World<I, R>) {
    && (forall e | e in w.queue :: e.channel < |w.cells|)
    && (forall e | e in w.serving :: e.channel < |w.cells|)
  }

  /** Channels only settle: an answered or abandoned channel stays as it is, and keeps its item. */
  ghost predicate Later<I(!new), R>(w: World<I, R>, v: World<I, R>) {
    && |w.cells| <= |v.cells|
    && (forall c | 0 <= c < |w.cells| && !w.cells[c].Empty? :: v.cells[c] == w.cells[c])
    && (forall c: Channel, item | Owns(w, c, item) :: Owns(v, c, item))
  }

  lemma TrySendLater<I(!new), R>(w: World<I, R>, item: I)
    requires WorldInv(w)
    ensures var v := TrySend(w, item);
            && WorldInv(v) && Later(w, v)
            && |v.cells| == |w.cells| + 1
            && Owns(v, Fresh(w), item)
            && (v.cells[Fresh(w)] == if w.closed then Gone else Empty)
            && (if w.closed then v.queue == w.queue else |v.queue| == |w.queue| + 1 && w.queue <= v.queue)
            && v.serving == w.serving && v.handled == w.handled && v.closed == w.closed
  {
    var v := TrySend(w, item);
    forall other | Carried(v, Fresh(w), other) ensures other == item {
      assert forall e | e in w.queue || e in w.serving :: e.channel != Fresh(w);
    }
    forall c: Channel, it | Owns(w, c, it) ensures Owns(v, c, it) {
      forall other | Carried(v, c, other) ensures other == it {
        assert Carried(w, c, other);
      }
    }
  }

  lemma DoLater<I(!new), R>(w: World<I, R>, act: Act<I, R>)
    requires WorldInv(w)
    ensures WorldInv(Do(w, act)) && Later(w, Do(w, act))
  {
    var v := Do(w, act);
    if act.OtherSend? {
      TrySendLater(w, act.item);
    } else {
      assert forall e | e in v.queue || e in v.serving :: e in w.queue || e in w.serving;
      assert forall c, item :: Carried(v, c, item) ==> Carried(w, c, item);
      forall c: Channel, item | Owns(w, c, item) ensures Owns(v, c, item) {
        if act.Finish? && v != w {
          var e := w.serving[act.n];
          assert Carried(w, e.channel, e.item);
        }
      }
    }
  }

  lemma LaterTransitive<I(!new), R>(u: World<I, R>, v: World<I, R>, w: World<I, R>)
    requires Later(u, v) && Later(v, w)
    ensures Later(u, w)
  {
  }

  lemma {:induction false} DoAllLater<I(!new), R>(w: World<I, R>, acts: seq<Act<I, R>>)
    requires WorldInv(w)
    ensures WorldInv(DoAll(w, acts)) && Later(w, DoAll(w, acts))
    decreases |acts|
  {
    if acts != [] {
      DoLater(w, acts[0]);
      DoAllLater(Do(w, acts[0]), acts[1..]);
      LaterTransitive(w, Do(w, acts[0]), DoAll(w, acts));
    }
  }
}
