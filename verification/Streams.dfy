/** What polling an actor stream means, for every schedule of polls and of everybody else's acts. */
module Streams {
  import opened Wrappers
  import opened Mailbox

  datatype Poll<T> = Pending | Ready(value: T)

  /** What the inner stream returns to its n-th poll. */
  datatype SourcePoll<I> = NotReady | Item(item: I) | End
  type Source<!I> = nat -> SourcePoll<I>

  datatype Error = Closed | Canceled | Other(code: nat)
  datatype Result<O> = Ok(value: O) | Err(error: Error)

  datatype StreamState = Next | Last(channel: Channel)

  /** One item of the source that was sent, and the channel its reply comes through: none if it was refused. */
  datatype Request<I> = Request(item: I, channel: Option<Channel>)

  /** A stream together with the world, and the history of its requests and of what it yielded. */
  datatype System<I, R, O> = System(cursor: nat, state: StreamState, world: World<I, R>,
                                    requests: seq<Request<I>>, results: seq<Result<O>>)

  type Outcome<O> = Poll<Option<Result<O>>>

  /** What polling the receiver of `channel` gives: `MapResult` turns a reply into a result. */
  function PollOneShot<I, R, O>(w: World<I, R>, channel: Channel, mapResult: R -> Result<O>): Poll<Result<O>> {
    if channel >= |w.cells| || w.cells[channel].Empty? then Pending
    else if w.cells[channel].Gone? then Ready(Err(Canceled))
    else Ready(mapResult(w.cells[channel].reply))
  }

  /** One call of `ActorStream::poll_next`; `meanwhile` is what others do between its send and its look at the reply. */
  function PollNext<I, R, O>(s: System<I, R, O>, source: Source<I>, mapResult: R -> Result<O>,
                             meanwhile: seq<Act<I, R>>): (System<I, R, O>, Outcome<O>)
  {
    PollWith(s, source(s.cursor), s.cursor + 1, mapResult, meanwhile)
  }

  /** The inner stream is polled only when no reply is awaited; it then gives `polled`, and its cursor is `after`. */
  function PollWith<I, R, O>(s: System<I, R, O>, polled: SourcePoll<I>, after: nat, mapResult: R -> Result<O>,
                             meanwhile: seq<Act<I, R>>): (System<I, R, O>, Outcome<O>)
  {
    match s.state
    case Last(channel) =>
      (match PollOneShot(s.world, channel, mapResult)
       case Pending => (s, Pending)
       case Ready(res) => (s.(state := Next, results := s.results + [res]), Ready(Some(res))))
    case Next =>
      match polled
      case NotReady => (s.(cursor := after), Pending)
      case End => (s.(cursor := after), Ready(None))
      case Item(item) => PollItem(s.(cursor := after), item, mapResult, meanwhile)
  }

  function PollItem<I, R, O>(s: System<I, R, O>, item: I, mapResult: R -> Result<O>,
                             meanwhile: seq<Act<I, R>>): (System<I, R, O>, Outcome<O>)
  {
    var channel := Fresh(s.world);
    var sent := TrySend(s.world, item);
    if s.world.closed then
      (s.(world := sent, requests := s.requests + [Request(item, None)], results := s.results + [Err(Closed)]),
       Ready(Some(Err(Closed))))
    else
      var asked := s.(world := DoAll(sent, meanwhile), requests := s.requests + [Request(item, Some(channel))]);
      match PollOneShot(asked.world, channel, mapResult)
      case Pending => (asked.(state := Last(channel)), Pending)
      case Ready(res) => (asked.(results := asked.results + [res]), Ready(Some(res)))
  }

  // ---- Runs: polls of the stream and acts of the others, in any order ----

  datatype Step<I, R> = PollStream(meanwhile: seq<Act<I, R>>) | Others(act: Act<I, R>)

  function Run<I, R, O>(s: System<I, R, O>, source: Source<I>, mapResult: R -> Result<O>,
                        steps: seq<Step<I, R>>): System<I, R, O>
  {
    if steps == [] then s else
      var before := Run(s, source, mapResult, steps[..|steps| - 1]);
      match steps[|steps| - 1]
      case PollStream(meanwhile) => PollNext(before, source, mapResult, meanwhile).0
      case Others(act) => before.(world := Do(before.world, act))
  }

  /** The items among the first `n` polls of the source. */
  function ItemsOf<I>(source: Source<I>, n: nat): seq<I> {
    if n == 0 then [] else ItemsOf(source, n - 1) + if source(n - 1).Item? then [source(n - 1).item] else []
  }

  function ItemsAsked<I>(requests: seq<Request<I>>): seq<I> {
    seq(|requests|, k requires 0 <= k < |requests| => requests[k].item)
  }

  /** `res` is what became of the request: its own reply, the loss of its channel, or the refusal to queue it. */
  ghost predicate Answers<I, R, O>(w: World<I, R>, mapResult: R -> Result<O>, req: Request<I>, res: Result<O>) {
    match req.channel
    case None => res == Err(Closed)
    case Some(c) =>
      && c < |w.cells|
      && match w.cells[c]
         case Empty => false
         case Gone => res == Err(Canceled)
         case Sent(reply) =>
           c in w.handled && w.handled[c] == (req.item, reply) && res == mapResult(reply)
  }

  ghost predicate Inv<I(!new), R, O>(s: System<I, R, O>, source: Source<I>, mapResult: R -> Result<O>) {
    && WorldInv(s.world)
    && ItemsAsked(s.requests) == ItemsOf(source, s.cursor)
    && (forall k | 0 <= k < |s.requests| && s.requests[k].channel.Some? ::
          Owns(s.world, s.requests[k].channel.value, s.requests[k].item))
    && |s.requests| == |s.results| + (if s.state.Last? then 1 else 0)
    && (forall k | 0 <= k < |s.results| :: Answers(s.world, mapResult, s.requests[k], s.results[k]))
    && (s.state.Last? ==> s.requests[|s.requests| - 1].channel == Some(s.state.channel))
  }

  lemma ItemsAskedAppend<I>(requests: seq<Request<I>>, req: Request<I>)
    ensures ItemsAsked(requests + [req]) == ItemsAsked(requests) + [req.item]
  {
  }

  /** Whatever the world does, what was answered stays answered. */
  lemma InvLater<I(!new), R, O>(s: System<I, R, O>, w: World<I, R>, source: Source<I>, mapResult: R -> Result<O>)
    requires Inv(s, source, mapResult) && WorldInv(w) && Later(s.world, w)
    ensures Inv(s.(world := w), source, mapResult)
  {
    forall k | 0 <= k < |s.results| ensures Answers(w, mapResult, s.requests[k], s.results[k]) {
      assert Answers(s.world, mapResult, s.requests[k], s.results[k]);
      if s.requests[k].channel.Some? {
        var c := s.requests[k].channel.value;
        assert Owns(s.world, c, s.requests[k].item);
        assert Owns(w, c, s.requests[k].item) && w.cells[c] == s.world.cells[c];
      }
    }
  }

  lemma PollPreserves<I(!new), R, O>(s: System<I, R, O>, source: Source<I>, mapResult: R -> Result<O>,
                                     meanwhile: seq<Act<I, R>>)
    requires Inv(s, source, mapResult)
    ensures Inv(PollNext(s, source, mapResult, meanwhile).0, source, mapResult)
  {
    match s.state
    case Last(channel) =>
    case Next =>
      if source(s.cursor).Item? {
        ItemPreserves(s, source, mapResult, meanwhile);
      }
  }

  lemma ItemPreserves<I(!new), R, O>(s: System<I, R, O>, source: Source<I>, mapResult: R -> Result<O>,
                                     meanwhile: seq<Act<I, R>>)
    requires Inv(s, source, mapResult) && s.state.Next? && source(s.cursor).Item?
    ensures Inv(PollItem(s.(cursor := s.cursor + 1), source(s.cursor).item, mapResult, meanwhile).0, source, mapResult)
  {
    var item := source(s.cursor).item;
    var channel := Fresh(s.world);
    var sent := TrySend(s.world, item);
    TrySendLater(s.world, item);
    InvLater(s, sent, source, mapResult);
    if s.world.closed {
      ItemsAskedAppend(s.requests, Request(item, None));
    } else {
      ItemsAskedAppend(s.requests, Request(item, Some(channel)));
      var w := DoAll(sent, meanwhile);
      DoAllLater(sent, meanwhile);
      InvLater(s.(world := sent), w, source, mapResult);
      assert Owns(w, channel, item);
    }
  }

  predicate Initial<I, R, O>(s: System<I, R, O>) {
    s.cursor == 0 && s.state.Next? && s.requests == [] && s.results == []
  }

  lemma {:induction false} EveryRun<I(!new), R, O>(s: System<I, R, O>, source: Source<I>, mapResult: R -> Result<O>,
                                                   steps: seq<Step<I, R>>)
    requires Initial(s) && WorldInv(s.world)
    ensures Inv(Run(s, source, mapResult, steps), source, mapResult)
  {
    if steps != [] {
      var before := Run(s, source, mapResult, steps[..|steps| - 1]);
      EveryRun(s, source, mapResult, steps[..|steps| - 1]);
      match steps[|steps| - 1]
      case PollStream(meanwhile) => PollPreserves(before, source, mapResult, meanwhile);
      case Others(act) =>
        DoLater(before.world, act);
        InvLater(before, Do(before.world, act), source, mapResult);
    }
  }

  // ---- When a poll is pending, and when it is the end ----

  predicate StillEmpty<I, R>(w: World<I, R>, channel: Channel) {
    channel < |w.cells| && w.cells[channel].Empty?
  }

  /** An unanswered message is on its way: queued, or being served. */
  ghost predicate Awaits<I(!new), R>(w: World<I, R>, channel: Channel, item: I) {
    StillEmpty(w, channel) ==> Carried(w, channel, item)
  }

  /** In every reachable state, a poll reports the end exactly if no reply is awaited and the source ends; it is
      pending exactly if no reply is awaited and the source is not ready, or the awaited reply is not there yet; and
      a refused item is an error at once. The source is polled exactly if no reply is awaited. */
  lemma PollMeans<I(!new), R, O>(s: System<I, R, O>, source: Source<I>, mapResult: R -> Result<O>,
                                 meanwhile: seq<Act<I, R>>)
    requires Inv(s, source, mapResult)
    ensures var (t, outcome) := PollNext(s, source, mapResult, meanwhile);
            && (outcome == Ready(None) <==> s.state.Next? && source(s.cursor) == End)
            && (outcome.Pending? <==>
                  if s.state.Next? && source(s.cursor) == NotReady then true
                  else t.state.Last? && StillEmpty(t.world, t.state.channel))
            && (s.state.Next? && source(s.cursor).Item? && s.world.closed ==> outcome == Ready(Some(Err(Closed))))
            && t.cursor == s.cursor + (if s.state.Next? then 1 else 0)
            && |t.requests| == |s.requests| + (if s.state.Next? && source(s.cursor).Item? then 1 else 0)
            && (|t.requests| > |s.requests| ==>
                  (t.requests[|s.requests|].channel.None? <==> s.world.closed))
            && (|t.requests| == |s.requests| ==> t.world == s.world)
  {
    PollPreserves(s, source, mapResult, meanwhile);
    if s.state.Last? {
      assert Owns(s.world, s.state.channel, s.requests[|s.requests| - 1].item);
    } else if source(s.cursor).Item? && !s.world.closed {
      var sent := TrySend(s.world, source(s.cursor).item);
      TrySendLater(s.world, source(s.cursor).item);
      DoAllLater(sent, meanwhile);
    }
  }

  // ---- What the reader of the stream sees ----

  /** The outcomes of the polls of a run, in order. */
  function Outcomes<I, R, O>(s: System<I, R, O>, source: Source<I>, mapResult: R -> Result<O>,
                             steps: seq<Step<I, R>>): seq<Outcome<O>>
  {
    if steps == [] then [] else
      var last := |steps| - 1;
      Outcomes(s, source, mapResult, steps[..last])
      + match steps[last]
        case PollStream(meanwhile) =>
          [PollNext(Run(s, source, mapResult, steps[..last]), source, mapResult, meanwhile).1]
        case Others(_) => []
  }

  function Yields<O>(outcomes: seq<Outcome<O>>): seq<Result<O>> {
    if outcomes == [] then [] else
      Yields(outcomes[..|outcomes| - 1]) + YieldOf(outcomes[|outcomes| - 1])
  }

  function YieldOf<O>(outcome: Outcome<O>): seq<Result<O>> {
    if outcome.Ready? && outcome.value.Some? then [outcome.value.value] else []
  }

  lemma YieldsAppend<O>(outcomes: seq<Outcome<O>>, outcome: Outcome<O>)
    ensures Yields(outcomes + [outcome]) == Yields(outcomes) + YieldOf(outcome)
  {
    assert (outcomes + [outcome])[..|outcomes|] == outcomes;
  }

  /** A poll reports exactly the result that it adds to the history. */
  lemma PollReports<I, R, O>(s: System<I, R, O>, polled: SourcePoll<I>, after: nat, mapResult: R -> Result<O>,
                             meanwhile: seq<Act<I, R>>)
    ensures var (t, outcome) := PollWith(s, polled, after, mapResult, meanwhile);
            t.results == s.results + YieldOf(outcome)
  {
  }

  lemma {:induction false} RunReports<I, R, O>(s: System<I, R, O>, source: Source<I>, mapResult: R -> Result<O>,
                                               steps: seq<Step<I, R>>)
    requires Initial(s)
    ensures Run(s, source, mapResult, steps).results == Yields(Outcomes(s, source, mapResult, steps))
  {
    hide PollWith;
    if steps != [] {
      var last := |steps| - 1;
      var before := Run(s, source, mapResult, steps[..last]);
      RunReports(s, source, mapResult, steps[..last]);
      match steps[last]
      case PollStream(meanwhile) =>
        PollReports(before, source(before.cursor), before.cursor + 1, mapResult, meanwhile);
        YieldsAppend(Outcomes(s, source, mapResult, steps[..last]),
                     PollNext(before, source, mapResult, meanwhile).1);
      case Others(_) =>
        assert Outcomes(s, source, mapResult, steps) == Outcomes(s, source, mapResult, steps[..last]);
    }
  }

  /** In every run the stream yields one result per item of the source, in order, each being what became of that
      very item; and there is never more than one request without a result. */
  lemma OneOwnResultPerItem<I(!new), R, O>(s: System<I, R, O>, source: Source<I>, mapResult: R -> Result<O>,
                                           steps: seq<Step<I, R>>)
    requires Initial(s) && WorldInv(s.world)
    ensures var e := Run(s, source, mapResult, steps);
            var items := ItemsOf(source, e.cursor);
            var results := Yields(Outcomes(s, source, mapResult, steps));
            && |e.requests| == |items|
            && |results| <= |items| <= |results| + 1
            && (e.state.Next? ==> |results| == |items|)
            && (e.state.Last? ==> |results| < |items| && Awaits(e.world, e.state.channel, items[|results|]))
            && (forall k | 0 <= k < |items| :: e.requests[k].item == items[k])
            && (forall k | 0 <= k < |results| :: Answers(e.world, mapResult, e.requests[k], results[k]))
  {
    EveryRun(s, source, mapResult, steps);
    RunReports(s, source, mapResult, steps);
    var e := Run(s, source, mapResult, steps);
    assert forall k | 0 <= k < |e.requests| :: ItemsAsked(e.requests)[k] == e.requests[k].item;
    if e.state.Last? {
      assert Owns(e.world, e.state.channel, e.requests[|e.requests| - 1].item);
    }
  }

  /** The end is reported only when every item has had its result. */
  lemma EndMeansAllAnswered<I(!new), R, O>(s: System<I, R, O>, source: Source<I>, mapResult: R -> Result<O>,
                                           steps: seq<Step<I, R>>, meanwhile: seq<Act<I, R>>)
    requires Initial(s) && WorldInv(s.world)
    requires PollNext(Run(s, source, mapResult, steps), source, mapResult, meanwhile).1 == Ready(None)
    ensures var e := PollNext(Run(s, source, mapResult, steps), source, mapResult, meanwhile).0;
            |Yields(Outcomes(s, source, mapResult, steps))| == |ItemsOf(source, e.cursor)|
  {
    EveryRun(s, source, mapResult, steps);
    RunReports(s, source, mapResult, steps);
    PollPreserves(Run(s, source, mapResult, steps), source, mapResult, meanwhile);
  }
}
