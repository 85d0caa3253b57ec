/** The two hand-written streams, as the objects whose fields they update. */
module ActorStreams {
  import opened Wrappers
  import opened Mailbox
  import opened Streams
  import opened SkipStreams

  /** The world a stream shares with everybody else. */
  class Box<I, R> {
    var world: World<I, R>

    constructor (world: World<I, R>)
      ensures this.world == world
    {
      this.world := world;
    }

    method Send(item: I) returns (channel: Channel, refused: bool)
      modifies this
      ensures channel == Fresh(old(world)) && refused == old(world).closed && world == TrySend(old(world), item)
    {
      channel, refused := Fresh(world), world.closed;
      world := TrySend(world, item);
    }

    method OthersAct(acts: seq<Act<I, R>>)
      modifies this
      ensures world == DoAll(old(world), acts)
    {
      ghost var start := world;
      for n := 0 to |acts|
        invariant DoAll(world, acts[n..]) == DoAll(start, acts)
      {
        assert acts[n..][1..] == acts[n + 1..];
        world := Do(world, acts[n]);
      }
    }
  }

  class ActorStream<I, R, O> {
    const source: Source<I>
    const mapResult: R -> Result<O>
    const box: Box<I, R>
    var cursor: nat
    var state: StreamState
    ghost var requests: seq<Request<I>>
    ghost var results: seq<Result<O>>

    constructor (source: Source<I>, mapResult: R -> Result<O>, box: Box<I, R>)
      ensures this.source == source && this.mapResult == mapResult && this.box == box
      ensures Initial(View())
    {
      this.source, this.mapResult, this.box := source, mapResult, box;
      cursor, state := 0, Next;
      requests, results := [], [];
    }

    ghost function View(): System<I, R, O>
      reads this, box
    {
      System(cursor, state, box.world, requests, results)
    }

    method PollNext(meanwhile: seq<Act<I, R>>) returns (poll: Outcome<O>)
      modifies this, box
      ensures (View(), poll) == Streams.PollNext(old(View()), source, mapResult, meanwhile)
    {
      match state {
        case Last(channel) =>
          match PollOneShot(box.world, channel, mapResult) {
            case Pending => poll := Pending;
            case Ready(res) =>
              state := Next;
              results := results + [res];
              poll := Ready(Some(res));
          }
        case Next =>
          var polled := source(cursor);
          cursor := cursor + 1;
          match polled {
            case NotReady => poll := Pending;
            case End => poll := Ready(None);
            case Item(item) =>
              var channel, refused := box.Send(item);
              if refused {
                requests := requests + [Request(item, None)];
                results := results + [Err(Closed)];
                return Ready(Some(Err(Closed)));
              }
              requests := requests + [Request(item, Some(channel))];
              box.OthersAct(meanwhile);
              match PollOneShot(box.world, channel, mapResult) {
                case Pending =>
                  state := Last(channel);
                  poll := Pending;
                case Ready(res) =>
                  results := results + [res];
                  poll := Ready(Some(res));
              }
          }
      }
    }
  }

  class ActorSkipStream<I, R, O> {
    const source: Source<Option<I>>
    const mapResult: R -> Result<O>
    const box: Box<I, R>
    var cursor: nat
    var rxOne: Option<Channel>
    ghost var requests: seq<Request<I>>
    ghost var results: seq<Result<O>>

    constructor (source: Source<Option<I>>, mapResult: R -> Result<O>, box: Box<I, R>)
      ensures this.source == source && this.mapResult == mapResult && this.box == box
      ensures Initial(View())
    {
      this.source, this.mapResult, this.box := source, mapResult, box;
      cursor, rxOne := 0, None;
      requests, results := [], [];
    }

    ghost function View(): System<I, R, O>
      reads this, box
    {
      System(cursor, if rxOne.Some? then Last(rxOne.value) else Next, box.world, requests, results)
    }

    /** The loop over the inner stream comes back exactly because the run of Nones it meets is finite. */
    method PollNext(meanwhile: seq<Act<I, R>>) returns (poll: Outcome<O>)
      requires rxOne.None? ==> HasReal(source, cursor)
      modifies this, box
      ensures (View(), poll) == SkipNext(old(View()), source, mapResult, meanwhile)
    {
      if rxOne.Some? {
        match PollOneShot(box.world, rxOne.value, mapResult) {
          case Pending => return Pending;
          case Ready(res) =>
            rxOne := None;
            results := results + [res];
            return Ready(Some(res));
        }
      }
      ghost var stop := NextReal(source, cursor);
      while true
        invariant old(cursor) <= cursor <= stop
        invariant forall n: nat | old(cursor) <= n < cursor :: source(n) == Item(None)
        invariant rxOne == old(rxOne) && requests == old(requests) && results == old(results)
        invariant box.world == old(box.world)
        decreases stop - cursor
      {
        var polled := source(cursor);
        cursor := cursor + 1;
        match polled {
          case NotReady => return Pending;
          case End => return Ready(None);
          case Item(None) =>
          case Item(Some(item)) =>
            var channel, refused := box.Send(item);
            if refused {
              requests := requests + [Request(item, None)];
              results := results + [Err(Closed)];
              return Ready(Some(Err(Closed)));
            }
            requests := requests + [Request(item, Some(channel))];
            box.OthersAct(meanwhile);
            match PollOneShot(box.world, channel, mapResult) {
              case Pending =>
                rxOne := Some(channel);
                return Pending;
              case Ready(res) =>
                results := results + [res];
                return Ready(Some(res));
            }
        }
      }
    }
  }
}
