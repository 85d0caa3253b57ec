/** The skipping stream: over a source of optional items it is the plain stream over the items that are there. */
module SkipStreams {
  import opened Wrappers
  import opened Mailbox
  import opened Streams

  ghost predicate HasReal<I>(source: Source<Option<I>>, n: nat) {
    exists m: nat :: m >= n && source(m) != Item(None)
  }

  /** Every run of ready Nones is finite; on any other source the skip loop never comes back. */
  ghost predicate FiniteRuns<I>(source: Source<Option<I>>) {
    forall n: nat :: HasReal(source, n)
  }

  ghost function Search<I>(source: Source<Option<I>>, n: nat, bound: nat): (r: nat)
    requires n <= bound && source(bound) != Item(None)
    ensures n <= r <= bound && source(r) != Item(None)
    ensures forall i: nat | n <= i < r :: source(i) == Item(None)
    decreases bound - n
  {
    if source(n) != Item(None) then n else Search(source, n + 1, bound)
  }

  /** The first poll from the n-th on that does not give a None. */
  ghost function NextReal<I>(source: Source<Option<I>>, n: nat): (r: nat)
    requires HasReal(source, n)
    ensures n <= r && source(r) != Item(None)
    ensures forall i: nat | n <= i < r :: source(i) == Item(None)
  {
    var m: nat :| m >= n && source(m) != Item(None);
    Search(source, n, m)
  }

  function Present<I>(polled: SourcePoll<Option<I>>): SourcePoll<I>
    requires polled != Item(None)
  {
    match polled
    case NotReady => NotReady
    case End => End
    case Item(Some(item)) => Item(item)
  }

  /** One call of `ActorSkipStream::poll_next`. */
  ghost function SkipNext<I, R, O>(s: System<I, R, O>, source: Source<Option<I>>, mapResult: R -> Result<O>,
                                   meanwhile: seq<Act<I, R>>): (System<I, R, O>, Outcome<O>)
    requires s.state.Next? ==> HasReal(source, s.cursor)
  {
    if s.state.Last? then PollWith(s, NotReady, s.cursor, mapResult, meanwhile) else
      var n := NextReal(source, s.cursor);
      PollWith(s, Present(source(n)), n + 1, mapResult, meanwhile)
  }

  ghost function SkipRun<I, R, O>(s: System<I, R, O>, source: Source<Option<I>>, mapResult: R -> Result<O>,
                                  steps: seq<Step<I, R>>): System<I, R, O>
    requires FiniteRuns(source)
  {
    if steps == [] then s else
      var before := SkipRun(s, source, mapResult, steps[..|steps| - 1]);
      match steps[|steps| - 1]
      case PollStream(meanwhile) =>
        assert HasReal(source, before.cursor);
        SkipNext(before, source, mapResult, meanwhile).0
      case Others(act) => before.(world := Do(before.world, act))
  }

  /** The outcomes of the polls of a run of the skipping stream. */
  ghost function SkipOutcomes<I, R, O>(s: System<I, R, O>, source: Source<Option<I>>, mapResult: R -> Result<O>,
                                       steps: seq<Step<I, R>>): seq<Outcome<O>>
    requires FiniteRuns(source)
  {
    if steps == [] then [] else
      var last := |steps| - 1;
      SkipOutcomes(s, source, mapResult, steps[..last])
      + match steps[last]
        case PollStream(meanwhile) =>
          var before := SkipRun(s, source, mapResult, steps[..last]);
          assert HasReal(source, before.cursor);
          [SkipNext(before, source, mapResult, meanwhile).1]
        case Others(_) => []
  }

  // ---- The source with its Nones removed ----

  /** Where the k-th poll that is not a None is. */
  ghost function Position<I>(source: Source<Option<I>>, k: nat): nat
    requires FiniteRuns(source)
  {
    var from := if k == 0 then 0 else Position(source, k - 1) + 1;
    assert HasReal(source, from);
    NextReal(source, from)
  }

  ghost function DenseAt<I>(source: Source<Option<I>>, k: nat): SourcePoll<I>
    requires FiniteRuns(source)
  {
    Present(source(Position(source, k)))
  }

  ghost function Dense<I>(source: Source<Option<I>>): Source<I>
    requires FiniteRuns(source)
  {
    (k: nat) => DenseAt(source, k)
  }

  /** The items that are there among the first `n` polls. */
  function RealItems<I>(source: Source<Option<I>>, n: nat): seq<I> {
    if n == 0 then [] else
      RealItems(source, n - 1) + match source(n - 1)
                                 case Item(Some(item)) => [item]
                                 case _ => []
  }

  lemma {:induction false} NonesAddNothing<I>(source: Source<Option<I>>, n: nat, m: nat)
    requires n <= m && forall i: nat | n <= i < m :: source(i) == Item(None)
    ensures RealItems(source, m) == RealItems(source, n)
  {
    if n < m {
      NonesAddNothing(source, n, m - 1);
      assert source(m - 1) == Item(None);
    }
  }

  /** `a` skips through the source where `b` walks through the dense one. */
  ghost predicate InStep<I, R, O>(a: System<I, R, O>, b: System<I, R, O>, source: Source<Option<I>>)
    requires FiniteRuns(source)
  {
    && a.(cursor := b.cursor) == b
    && HasReal(source, a.cursor)
    && NextReal(source, a.cursor) == Position(source, b.cursor)
    && RealItems(source, a.cursor) == ItemsOf(Dense(source), b.cursor)
  }

  /** Moving on past the same real poll keeps the two cursors in step. */
  lemma CursorsMove<I>(source: Source<Option<I>>, a: nat, b: nat)
    requires FiniteRuns(source) && HasReal(source, a)
    requires NextReal(source, a) == Position(source, b)
    requires RealItems(source, a) == ItemsOf(Dense(source), b)
    ensures var n := NextReal(source, a);
            && HasReal(source, n + 1)
            && NextReal(source, n + 1) == Position(source, b + 1)
            && RealItems(source, n + 1) == ItemsOf(Dense(source), b + 1)
            && Dense(source)(b) == DenseAt(source, b)
  {
    var n := NextReal(source, a);
    NonesAddNothing(source, a, n);
    assert Dense(source)(b) == DenseAt(source, b);
  }

  lemma PollIgnoresCursor<I, R, O>(a: System<I, R, O>, b: System<I, R, O>, polled: SourcePoll<I>, m: nat, n: nat,
                                   mapResult: R -> Result<O>, meanwhile: seq<Act<I, R>>)
    requires a.(cursor := b.cursor) == b
    ensures var (a', x) := PollWith(a, polled, m, mapResult, meanwhile);
            var (b', y) := PollWith(b, polled, n, mapResult, meanwhile);
            && x == y
            && a'.(cursor := b'.cursor) == b'
            && (if a.state.Next? then a'.cursor == m && b'.cursor == n else a'.cursor == a.cursor && b'.cursor == b.cursor)
  {
  }

  lemma PollIgnoresPolled<I, R, O>(a: System<I, R, O>, p: SourcePoll<I>, m: nat, q: SourcePoll<I>, n: nat,
                                   mapResult: R -> Result<O>, meanwhile: seq<Act<I, R>>)
    ensures a.state.Last? ==> PollWith(a, p, m, mapResult, meanwhile) == PollWith(a, q, n, mapResult, meanwhile)
  {
  }

  lemma StillInStep<I, R, O>(a: System<I, R, O>, b: System<I, R, O>, c: System<I, R, O>, d: System<I, R, O>,
                             source: Source<Option<I>>)
    requires FiniteRuns(source) && InStep(a, b, source)
    requires c.(cursor := d.cursor) == d
    requires (c.cursor == a.cursor && d.cursor == b.cursor)
          || (c.cursor == NextReal(source, a.cursor) + 1 && d.cursor == b.cursor + 1)
    ensures InStep(c, d, source)
  {
    CursorsMove(source, a.cursor, b.cursor);
  }

  /** One poll of the skipping stream is one poll of the plain stream over the dense source. */
  lemma SkipIsPlainPoll<I, R, O>(a: System<I, R, O>, b: System<I, R, O>, source: Source<Option<I>>,
                                 mapResult: R -> Result<O>, meanwhile: seq<Act<I, R>>)
    requires FiniteRuns(source) && InStep(a, b, source)
    ensures SkipNext(a, source, mapResult, meanwhile).1 == PollNext(b, Dense(source), mapResult, meanwhile).1
    ensures InStep(SkipNext(a, source, mapResult, meanwhile).0, PollNext(b, Dense(source), mapResult, meanwhile).0, source)
  {
    hide PollWith, Position, RealItems, ItemsOf, FiniteRuns;
    var n := NextReal(source, a.cursor);
    CursorsMove(source, a.cursor, b.cursor);
    PollIgnoresCursor(a, b, Present(source(n)), n + 1, b.cursor + 1, mapResult, meanwhile);
    PollIgnoresPolled(a, Present(source(n)), n + 1, NotReady, a.cursor, mapResult, meanwhile);
    StillInStep(a, b, SkipNext(a, source, mapResult, meanwhile).0, PollNext(b, Dense(source), mapResult, meanwhile).0, source);
  }

  /** Over whole runs the two streams send the same requests, meet the same world and report the same, poll by poll. */
  lemma {:induction false} SkipIsPlainRun<I, R, O>(s: System<I, R, O>, source: Source<Option<I>>,
                                                   mapResult: R -> Result<O>, steps: seq<Step<I, R>>)
    requires FiniteRuns(source) && Initial(s)
    ensures InStep(SkipRun(s, source, mapResult, steps), Run(s, Dense(source), mapResult, steps), source)
    ensures SkipOutcomes(s, source, mapResult, steps) == Outcomes(s, Dense(source), mapResult, steps)
  {
    if steps == [] {
      assert HasReal(source, 0);
    } else {
      var last := |steps| - 1;
      SkipIsPlainRun(s, source, mapResult, steps[..last]);
      match steps[last]
      case PollStream(meanwhile) =>
        SkipIsPlainPoll(SkipRun(s, source, mapResult, steps[..last]), Run(s, Dense(source), mapResult, steps[..last]),
                        source, mapResult, meanwhile);
      case Others(_) =>
    }
  }

  /** So the skipping stream yields one own result for each item that is there, in order. */
  lemma OneOwnResultPerRealItem<I(!new), R, O>(s: System<I, R, O>, source: Source<Option<I>>,
                                               mapResult: R -> Result<O>, steps: seq<Step<I, R>>)
    requires FiniteRuns(source) && Initial(s) && WorldInv(s.world)
    ensures var e := SkipRun(s, source, mapResult, steps);
            var items := RealItems(source, e.cursor);
            var results := Yields(SkipOutcomes(s, source, mapResult, steps));
            && |e.requests| == |items|
            && |results| <= |items| <= |results| + 1
            && (e.state.Next? ==> |results| == |items|)
            && (forall k | 0 <= k < |items| :: e.requests[k].item == items[k])
            && (forall k | 0 <= k < |results| :: Answers(e.world, mapResult, e.requests[k], results[k]))
  {
    SkipIsPlainRun(s, source, mapResult, steps);
    OneOwnResultPerItem(s, Dense(source), mapResult, steps);
  }

  /** The first poll from the n-th on that is not a None is the m-th. */
  predicate FirstReal<I(==)>(source: Source<Option<I>>, n: nat, m: nat) {
    n <= m && source(m) != Item(None) && forall i: nat | n <= i < m :: source(i) == Item(None)
  }

  lemma FirstRealIsNext<I>(source: Source<Option<I>>, n: nat, m: nat)
    requires FirstReal(source, n, m)
    ensures HasReal(source, n) && NextReal(source, n) == m
  {
  }

  lemma DenseHere<I>(source: Source<Option<I>>, a: nat, b: nat, m: nat)
    requires FiniteRuns(source) && FirstReal(source, a, m)
    requires HasReal(source, a) && NextReal(source, a) == Position(source, b)
    ensures Dense(source)(b) == Present(source(m))
  {
    FirstRealIsNext(source, a, m);
    assert Dense(source)(b) == DenseAt(source, b);
  }

  lemma SkipCursor<I, R, O>(s: System<I, R, O>, source: Source<Option<I>>, mapResult: R -> Result<O>,
                            meanwhile: seq<Act<I, R>>, m: nat)
    requires FirstReal(source, s.cursor, m)
    ensures HasReal(source, s.cursor)
    ensures SkipNext(s, source, mapResult, meanwhile).0.cursor == if s.state.Next? then m + 1 else s.cursor
  {
    FirstRealIsNext(source, s.cursor, m);
  }

  /** In every run, a poll of the skipping stream reports the end exactly if no reply is awaited and the first thing
      behind the Nones is the end; it is pending exactly if no reply is awaited and that is a source not ready, or the
      awaited reply is not there yet. */
  lemma SkipMeans<I(!new), R, O>(s: System<I, R, O>, source: Source<Option<I>>, mapResult: R -> Result<O>,
                                 steps: seq<Step<I, R>>, meanwhile: seq<Act<I, R>>, m: nat)
    requires FiniteRuns(source) && Initial(s) && WorldInv(s.world)
    requires FirstReal(source, SkipRun(s, source, mapResult, steps).cursor, m)
    ensures HasReal(source, SkipRun(s, source, mapResult, steps).cursor)
    ensures var e := SkipRun(s, source, mapResult, steps);
            var (t, outcome) := SkipNext(e, source, mapResult, meanwhile);
            && (outcome == Ready(None) <==> e.state.Next? && source(m) == End)
            && (outcome.Pending? <==>
                  if e.state.Next? && source(m) == NotReady then true
                  else t.state.Last? && StillEmpty(t.world, t.state.channel))
            && (e.state.Next? && source(m).Item? && e.world.closed ==> outcome == Ready(Some(Err(Closed))))
            && t.cursor == if e.state.Next? then m + 1 else e.cursor
  {
    hide PollWith, RealItems, ItemsOf, FiniteRuns, Position, DenseAt, PollNext, SkipNext, SkipRun, Run, Inv;
    var e := SkipRun(s, source, mapResult, steps);
    var p := Run(s, Dense(source), mapResult, steps);
    SkipIsPlainRun(s, source, mapResult, steps);
    EveryRun(s, Dense(source), mapResult, steps);
    PollMeans(p, Dense(source), mapResult, meanwhile);
    SkipCursor(e, source, mapResult, meanwhile, m);
    SkipIsPlainPoll(e, p, source, mapResult, meanwhile);
    DenseHere(source, e.cursor, p.cursor, m);
  }
}
