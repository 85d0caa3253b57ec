/** The interval futures shared by the contexts of one address: keys from an atomic counter, and a locked map. */
module Intervals {
  import opened Wrappers

  type Future = nat

  /** What a context is doing with an interval message. Running a future keeps the lock until it is done. */
  datatype Pc =
    | Free
    | Inserting(key: nat, future: Future)
    | WantsRun(key: nat)
    | Executing(key: nat, future: Future)
    | WantsRemove(key: nat)
    | Panicked

  /** What came of the messages, in order: a registration is inserted, or lost with a panic; a Run executes a
      future, or finds none. */
  datatype Event =
    | Inserted(key: nat, future: Future)
    | Lost(future: Future)
    | Removed(key: nat)
    | Executed(key: nat, future: Future)
    | Missed(key: nat)

  /** `limit` is the largest value of the counter's type. `issued` lists the keys in the order of registration,
      `inserted` are those whose registration is complete, `log` is the history of the map, and `posted` and `taken`
      are those of the queue. */
  datatype System = System(limit: nat, nextKey: nat, futures: map<nat, Future>, lockedBy: Option<nat>,
                           contexts: seq<Pc>, queue: seq<Message>, issued: seq<nat>, inserted: set<nat>,
                           log: seq<Event>, posted: seq<Message>, taken: seq<Message>)

  datatype Message = Register(future: Future) | Run(key: nat) | Remove(key: nat)

  datatype Step = Post(msg: Message) | Take(c: nat) | Proceed(c: nat)

  predicate Initial(s: System) {
    && s.nextKey == 0 && s.futures == map[] && s.lockedBy.None? && s.queue == []
    && (forall c | 0 <= c < |s.contexts| :: s.contexts[c] == Free)
    && s.issued == [] && s.inserted == {} && s.log == [] && s.posted == [] && s.taken == []
  }

  /** Run and Remove carry a key that only a finished registration hands out. */
  predicate Enabled(s: System, step: Step) {
    match step
    case Post(msg) => msg.Register? || msg.key in s.inserted
    case Take(c) => c < |s.contexts| && s.contexts[c] == Free && s.queue != []
    case Proceed(c) =>
      && c < |s.contexts|
      && match s.contexts[c]
         case Free => false
         case Panicked => false
         case Executing(_, _) => true
         case _ => s.lockedBy.None?
  }

  function Do(s: System, step: Step): System
    requires Enabled(s, step)
  {
    match step
    case Post(msg) => s.(queue := s.queue + [msg], posted := s.posted + [msg])
    case Take(c) =>
      var s1 := s.(queue := s.queue[1..], taken := s.taken + [s.queue[0]]);
      (match s.queue[0]
       case Register(future) =>
         // The counter wraps around; the key is checked only afterwards.
         var key := s.nextKey;
         s1.(nextKey := if key == s.limit then 0 else key + 1, issued := s.issued + [key],
             contexts := s.contexts[c := if key < s.limit then Inserting(key, future) else Panicked],
             log := if key < s.limit then s.log else s.log + [Lost(future)])
       case Run(key) => s1.(contexts := s.contexts[c := WantsRun(key)])
       case Remove(key) => s1.(contexts := s.contexts[c := WantsRemove(key)]))
    case Proceed(c) =>
      match s.contexts[c]
      case Inserting(key, future) =>
        s.(futures := s.futures[key := future], inserted := s.inserted + {key}, log := s.log + [Inserted(key, future)],
           contexts := s.contexts[c := Free])
      case WantsRun(key) =>
        if key in s.futures then
          s.(lockedBy := Some(c), contexts := s.contexts[c := Executing(key, s.futures[key])],
             log := s.log + [Executed(key, s.futures[key])])
        else s.(log := s.log + [Missed(key)], contexts := s.contexts[c := Free])
      case Executing(_, _) => s.(lockedBy := None, contexts := s.contexts[c := Free])
      case WantsRemove(key) =>
        s.(futures := s.futures - {key}, log := s.log + [Removed(key)], contexts := s.contexts[c := Free])
      case Free => s
      case Panicked => s
  }

  ghost predicate IsRun(s: System, steps: seq<Step>)
    decreases |steps|, 0
  {
    steps == [] ||
    var last := |steps| - 1;
    IsRun(s, steps[..last]) && Enabled(After(s, steps[..last]), steps[last])
  }

  ghost function After(s: System, steps: seq<Step>): System
    requires IsRun(s, steps)
    decreases |steps|, 1
  {
    if steps == [] then s else
      var last := |steps| - 1;
      Do(After(s, steps[..last]), steps[last])
  }

  // ---- Always ----

  /** The lock belongs to the one context that is executing, if any. */
  ghost predicate LockInv(s: System) {
    && (forall c: nat | c < |s.contexts| && s.contexts[c].Executing? :: s.lockedBy == Some(c))
    && (s.lockedBy.Some? ==> s.lockedBy.value < |s.contexts| && s.contexts[s.lockedBy.value].Executing?)
  }

  /** The key of the n-th registration, counting from 0. */
  function NthKey(limit: nat, n: nat): nat {
    if n == 0 then 0 else
      var before := NthKey(limit, n - 1);
      if before == limit then 0 else before + 1
  }

  ghost predicate KeyInv(s: System) {
    && s.nextKey == NthKey(s.limit, |s.issued|)
    && (forall n: nat | n < |s.issued| :: s.issued[n] == NthKey(s.limit, n))
  }

  lemma {:induction false} NthKeyIsN(limit: nat, n: nat)
    requires n <= limit
    ensures NthKey(limit, n) == n
  {
    if n > 0 {
      NthKeyIsN(limit, n - 1);
    }
  }

  lemma LockStep(s: System, step: Step)
    requires Enabled(s, step) && LockInv(s)
    ensures LockInv(Do(s, step))
  {
  }

  lemma KeyStep(s: System, step: Step)
    requires Enabled(s, step) && KeyInv(s)
    ensures KeyInv(Do(s, step))
  {
  }

  /** The future last registered under a key, unless that was removed since. */
  function Current(log: seq<Event>, key: nat): Option<Future> {
    if log == [] then None else
      var last := |log| - 1;
      match log[last]
      case Inserted(k, future) => if k == key then Some(future) else Current(log[..last], key)
      case Removed(k) => if k == key then None else Current(log[..last], key)
      case _ => Current(log[..last], key)
  }

  /** Whatever was executed was current when it was. */
  ghost predicate RanCurrent(log: seq<Event>) {
    forall j | 0 <= j < |log| && log[j].Executed? :: Current(log[..j], log[j].key) == Some(log[j].future)
  }

  ghost predicate MapInv(s: System) {
    && (forall key: nat :: Current(s.log, key) == if key in s.futures then Some(s.futures[key]) else None)
    && (forall c | 0 <= c < |s.contexts| && s.contexts[c].Executing? ::
          Current(s.log, s.contexts[c].key) == Some(s.contexts[c].future))
    && RanCurrent(s.log)
  }

  lemma LogAppend(log: seq<Event>, e: Event)
    requires RanCurrent(log) && (e.Executed? ==> Current(log, e.key) == Some(e.future))
    ensures RanCurrent(log + [e])
    ensures forall key: nat ::
              Current(log + [e], key)
              == if e.Inserted? && e.key == key then Some(e.future)
                 else if e.Removed? && e.key == key then None
                 else Current(log, key)
  {
    var more := log + [e];
    assert more[..|log|] == log;
    forall j | 0 <= j < |more| && more[j].Executed? ensures Current(more[..j], more[j].key) == Some(more[j].future) {
      if j < |log| {
        assert more[..j] == log[..j];
      }
    }
  }

  /** The map after one more event. */
  predicate Follows(futures: map<nat, Future>, e: Event, after: map<nat, Future>) {
    match e
    case Inserted(key, future) => after == futures[key := future]
    case Removed(key) => after == futures - {key}
    case Executed(key, future) => after == futures && key in futures && futures[key] == future
    case _ => after == futures
  }

  lemma MapAppend(s: System, t: System, e: Event)
    requires MapInv(s) && t.log == s.log + [e] && Follows(s.futures, e, t.futures)
    ensures forall key: nat :: Current(t.log, key) == if key in t.futures then Some(t.futures[key]) else None
    ensures RanCurrent(t.log)
  {
    LogAppend(s.log, e);
  }

  lemma StepFollows(s: System, step: Step)
    requires Enabled(s, step)
    ensures var t := Do(s, step);
            || (t.log == s.log && t.futures == s.futures)
            || (|t.log| == |s.log| + 1 && t.log == s.log + [t.log[|s.log|]] && Follows(s.futures, t.log[|s.log|], t.futures))
  {
  }

  /** Who holds the lock still finds its future in the map. */
  lemma ExecutingStep(s: System, step: Step)
    requires Enabled(s, step) && LockInv(s)
    requires forall c | 0 <= c < |s.contexts| && s.contexts[c].Executing? ::
               s.contexts[c].key in s.futures && s.futures[s.contexts[c].key] == s.contexts[c].future
    ensures var t := Do(s, step);
            forall c | 0 <= c < |t.contexts| && t.contexts[c].Executing? ::
              t.contexts[c].key in t.futures && t.futures[t.contexts[c].key] == t.contexts[c].future
  {
  }

  lemma MapStep(s: System, step: Step)
    requires Enabled(s, step) && LockInv(s) && MapInv(s)
    ensures MapInv(Do(s, step))
  {
    var t := Do(s, step);
    StepFollows(s, step);
    assert forall c | 0 <= c < |s.contexts| && s.contexts[c].Executing? ::
        s.contexts[c].key in s.futures && s.futures[s.contexts[c].key] == s.contexts[c].future;
    ExecutingStep(s, step);
    hide Do, Current, Follows;
    if t.log != s.log {
      MapAppend(s, t, t.log[|s.log|]);
    }
  }

  lemma {:induction false} EveryRun(s: System, steps: seq<Step>)
    requires Initial(s) && IsRun(s, steps)
    ensures LockInv(After(s, steps)) && KeyInv(After(s, steps)) && MapInv(After(s, steps))
    ensures After(s, steps).limit == s.limit && |After(s, steps).contexts| == |s.contexts|
  {
    if steps != [] {
      var last := |steps| - 1;
      EveryRun(s, steps[..last]);
      LockStep(After(s, steps[..last]), steps[last]);
      KeyStep(After(s, steps[..last]), steps[last]);
      MapStep(After(s, steps[..last]), steps[last]);
    }
  }

  /** Two interval futures never run at the same time. */
  lemma OneFutureAtATime(s: System, steps: seq<Step>, c: nat, d: nat)
    requires Initial(s) && IsRun(s, steps)
    requires c < |After(s, steps).contexts| && d < |After(s, steps).contexts|
    requires After(s, steps).contexts[c].Executing? && After(s, steps).contexts[d].Executing?
    ensures c == d
  {
    EveryRun(s, steps);
  }

  /** Keys are all different exactly as long as there have been no more registrations than the counter has values. */
  lemma KeysAreDistinctUntilTheCounterWraps(s: System, steps: seq<Step>)
    requires Initial(s) && IsRun(s, steps)
    ensures var issued := After(s, steps).issued;
            (forall m, n | 0 <= m < n < |issued| :: issued[m] != issued[n]) <==> |issued| <= s.limit + 1
  {
    EveryRun(s, steps);
    var issued := After(s, steps).issued;
    if |issued| > s.limit + 1 {
      NthKeyIsN(s.limit, s.limit);
      assert issued[0] == issued[s.limit + 1];
    } else {
      forall n: nat | n < |issued| ensures issued[n] == n {
        NthKeyIsN(s.limit, n);
      }
    }
  }

  /** A registration is lost exactly when its key is the last value of the counter. */
  ghost predicate LimitInv(s: System) {
    && (forall c | 0 <= c < |s.contexts| && s.contexts[c].Inserting? :: s.contexts[c].key < s.limit)
    && (forall m | 0 <= m < |s.log| && s.log[m].Inserted? :: s.log[m].key < s.limit)
    && (s.limit in s.issued <==> exists m :: 0 <= m < |s.log| && s.log[m].Lost?)
  }

  lemma LimitStep(s: System, step: Step)
    requires Enabled(s, step) && LimitInv(s) && s.nextKey <= s.limit
    ensures LimitInv(Do(s, step)) && Do(s, step).nextKey <= s.limit
  {
    var t := Do(s, step);
    assert t.log == s.log || (|t.log| == |s.log| + 1 && t.log == s.log + [t.log[|s.log|]]);
    if m :| 0 <= m < |s.log| && s.log[m].Lost? {
      assert t.log[m].Lost?;
    }
    if m :| 0 <= m < |t.log| && t.log[m].Lost? {
      assert m < |s.log| ==> s.log[m].Lost?;
    }
  }

  lemma {:induction false} LostExactlyAtTheLimit(s: System, steps: seq<Step>)
    requires Initial(s) && IsRun(s, steps)
    ensures After(s, steps).limit == s.limit && After(s, steps).nextKey <= s.limit && LimitInv(After(s, steps))
  {
    if steps != [] {
      LostExactlyAtTheLimit(s, steps[..|steps| - 1]);
      LimitStep(After(s, steps[..|steps| - 1]), steps[|steps| - 1]);
    }
  }

  // ---- What runs ----

  lemma {:induction false} CurrentWasInserted(log: seq<Event>, key: nat) returns (m: nat)
    requires Current(log, key).Some?
    ensures m < |log| && log[m] == Inserted(key, Current(log, key).value)
    ensures forall j | m < j < |log| :: log[j] != Removed(key)
  {
    var last := |log| - 1;
    if log[last].Inserted? && log[last].key == key {
      m := last;
    } else {
      m := CurrentWasInserted(log[..last], key);
      assert forall j | m < j < last :: log[j] == log[..last][j];
    }
  }

  /** In every run, what is executed under a key is the future last registered under it, and never one that a
      Remove was processed for since. */
  lemma RunsWhatWasRegistered(s: System, steps: seq<Step>, x: nat) returns (m: nat)
    requires Initial(s) && IsRun(s, steps)
    requires x < |After(s, steps).log| && After(s, steps).log[x].Executed?
    ensures var log := After(s, steps).log;
            && m < x && log[m] == Inserted(log[x].key, log[x].future)
            && (forall j | m < j < x :: log[j] != Removed(log[x].key))
  {
    EveryRun(s, steps);
    var log := After(s, steps).log;
    m := CurrentWasInserted(log[..x], log[x].key);
    assert forall j | m <= j < x :: log[..x][j] == log[j];
  }

  /** A Run that gets the lock executes exactly if its key has been inserted and not removed since. */
  lemma RunDecides(s: System, steps: seq<Step>, c: nat)
    requires Initial(s) && IsRun(s, steps) && Enabled(After(s, steps), Proceed(c))
    requires After(s, steps).contexts[c].WantsRun?
    ensures var t := After(s, steps);
            var key := t.contexts[c].key;
            var current := Current(t.log, key);
            Do(t, Proceed(c)).log
            == t.log + [if current.Some? then Executed(key, current.value) else Missed(key)]
  {
    EveryRun(s, steps);
  }

  /** At `m` the key was inserted, and it has not been removed since. */
  predicate InsertedAt(log: seq<Event>, m: nat, key: nat) {
    && m < |log| && log[m].Inserted? && log[m].key == key
    && forall j | m < j < |log| :: log[j] != Removed(key)
  }

  /** Since the event at `r`, the key has been inserted again, and not removed since. */
  ghost predicate Reinserted(log: seq<Event>, r: nat, key: nat) {
    exists m: nat :: r < m && InsertedAt(log, m, key)
  }

  lemma RemovedIsGone(log: seq<Event>, r: nat, key: nat)
    requires r < |log| && log[r] == Removed(key)
    ensures Current(log, key).Some? <==> Reinserted(log, r, key)
  {
    if Current(log, key).Some? {
      var m := CurrentWasInserted(log, key);
      assert m != r && InsertedAt(log, m, key);
    } else if Reinserted(log, r, key) {
      var m: nat :| r < m && InsertedAt(log, m, key);
      InsertedIsCurrent(log, m, key);
    }
  }

  lemma {:induction false} InsertedIsCurrent(log: seq<Event>, m: nat, key: nat)
    requires InsertedAt(log, m, key)
    ensures Current(log, key).Some?
  {
    var last := |log| - 1;
    if m < last {
      InsertedIsCurrent(log[..last], m, key);
    }
  }

  /** After a Remove was processed, a Run with its key that gets the lock executes exactly if the counter has come
      round: if the key has been inserted again, and not removed since. */
  lemma RunsAgainOnlyIfReissued(s: System, steps: seq<Step>, r: nat, c: nat)
    requires Initial(s) && IsRun(s, steps) && Enabled(After(s, steps), Proceed(c))
    requires After(s, steps).contexts[c].WantsRun?
    requires r < |After(s, steps).log| && After(s, steps).log[r] == Removed(After(s, steps).contexts[c].key)
    ensures var t := After(s, steps);
            var key := t.contexts[c].key;
            Do(t, Proceed(c)).log[|t.log|].Executed? <==> Reinserted(t.log, r, key)
  {
    RunDecides(s, steps, c);
    RemovedIsGone(After(s, steps).log, r, After(s, steps).contexts[c].key);
  }

  // ---- What becomes of the messages ----

  /** The message that an event settles. */
  function MessageOf(e: Event): Message {
    match e
    case Inserted(_, future) => Register(future)
    case Lost(future) => Register(future)
    case Removed(key) => Remove(key)
    case Executed(key, _) => Run(key)
    case Missed(key) => Run(key)
  }

  /** The message that a context has in hand and not settled yet. */
  function InHand(pc: Pc): multiset<Message> {
    match pc
    case Inserting(_, future) => multiset{Register(future)}
    case WantsRun(key) => multiset{Run(key)}
    case WantsRemove(key) => multiset{Remove(key)}
    case _ => multiset{}
  }

  function AllInHand(contexts: seq<Pc>): multiset<Message> {
    if contexts == [] then multiset{} else AllInHand(contexts[..|contexts| - 1]) + InHand(contexts[|contexts| - 1])
  }

  function Settled(log: seq<Event>): multiset<Message> {
    if log == [] then multiset{} else Settled(log[..|log| - 1]) + multiset{MessageOf(log[|log| - 1])}
  }

  ghost predicate DealtWith(s: System) {
    && s.taken + s.queue == s.posted
    && multiset(s.taken) == Settled(s.log) + AllInHand(s.contexts)
  }

  lemma {:induction false} InHandUpdate(contexts: seq<Pc>, c: nat, pc: Pc)
    requires c < |contexts|
    ensures AllInHand(contexts[c := pc]) + InHand(contexts[c]) == AllInHand(contexts) + InHand(pc)
  {
    hide InHand;
    var last := |contexts| - 1;
    var rest := contexts[..last];
    if c < last {
      InHandUpdate(rest, c, pc);
      assert contexts[c := pc][..last] == rest[c := pc];
      Swap(AllInHand(rest[c := pc]), InHand(contexts[c]), AllInHand(rest), InHand(pc), InHand(contexts[last]));
    } else {
      assert contexts[c := pc][..last] == rest;
    }
  }

  lemma Swap(a: multiset<Message>, b: multiset<Message>, c: multiset<Message>, d: multiset<Message>, e: multiset<Message>)
    requires a + b == c + d
    ensures (a + e) + b == (c + e) + d
  {
    assert (a + e) + b == (a + b) + e;
    assert (c + e) + d == (c + d) + e;
  }

  lemma SettledAppend(log: seq<Event>, e: Event)
    ensures Settled(log + [e]) == Settled(log) + multiset{MessageOf(e)}
  {
    assert (log + [e])[..|log|] == log;
  }

  /** What comes in, `more`, is settled or stays in hand. */
  lemma Balance(taken: multiset<Message>, more: multiset<Message>, settled: multiset<Message>, done: multiset<Message>,
                before: multiset<Message>, after: multiset<Message>, old_: multiset<Message>, new_: multiset<Message>)
    requires taken == settled + before && after + old_ == before + new_ && more + old_ == done + new_
    ensures taken + more == (settled + done) + after
  {
    forall m: Message ensures (taken + more)[m] == ((settled + done) + after)[m] {
      assert (after + old_)[m] == (before + new_)[m] && (more + old_)[m] == (done + new_)[m];
    }
  }

  /** A step of context `c` that takes the messages `more` and settles `done`. */
  lemma StepDeals(s: System, t: System, c: nat, more: multiset<Message>, done: multiset<Message>)
    requires multiset(s.taken) == Settled(s.log) + AllInHand(s.contexts)
    requires c < |s.contexts| == |t.contexts| && t.contexts == s.contexts[c := t.contexts[c]]
    requires multiset(t.taken) == multiset(s.taken) + more && Settled(t.log) == Settled(s.log) + done
    requires more + InHand(s.contexts[c]) == done + InHand(t.contexts[c])
    ensures multiset(t.taken) == Settled(t.log) + AllInHand(t.contexts)
  {
    hide Settled, InHand;
    InHandUpdate(s.contexts, c, t.contexts[c]);
    Balance(multiset(s.taken), more, Settled(s.log), done, AllInHand(s.contexts), AllInHand(t.contexts),
            InHand(s.contexts[c]), InHand(t.contexts[c]));
  }

  lemma TakeIs(s: System, c: nat)
    requires Enabled(s, Take(c))
    ensures var t := Do(s, Take(c));
            && t.taken == s.taken + [s.queue[0]] && t.queue == s.queue[1..] && t.posted == s.posted
            && |t.contexts| == |s.contexts| && t.contexts == s.contexts[c := t.contexts[c]]
            && InHand(s.contexts[c]) == multiset{}
            && (|| (t.log == s.log && InHand(t.contexts[c]) == multiset{s.queue[0]})
                || (exists e :: t.log == s.log + [e] && MessageOf(e) == s.queue[0] && InHand(t.contexts[c]) == multiset{}))
  {
    if s.queue[0].Register? {
      var e := Lost(s.queue[0].future);
      assert MessageOf(e) == s.queue[0];
    }
  }

  lemma TakeKeepsOrder(s: System, c: nat)
    requires Enabled(s, Take(c)) && s.taken + s.queue == s.posted
    ensures var t := Do(s, Take(c));
            t.taken + t.queue == t.posted && multiset(t.taken) == multiset(s.taken) + multiset{s.queue[0]}
  {
    TakeIs(s, c);
    hide Do;
    assert s.queue == [s.queue[0]] + s.queue[1..];
  }

  lemma TakeDeals(s: System, c: nat)
    requires Enabled(s, Take(c)) && DealtWith(s)
    ensures DealtWith(Do(s, Take(c)))
  {
    var t := Do(s, Take(c));
    var msg := s.queue[0];
    TakeIs(s, c);
    TakeKeepsOrder(s, c);
    hide AllInHand, Settled, Do, InHand, MessageOf, Enabled;
    if t.log == s.log {
      assert Settled(s.log) + multiset{} == Settled(s.log);
      StepDeals(s, t, c, multiset{msg}, multiset{});
    } else {
      var e :| t.log == s.log + [e] && MessageOf(e) == msg && InHand(t.contexts[c]) == multiset{};
      SettledAppend(s.log, e);
      StepDeals(s, t, c, multiset{msg}, multiset{msg});
    }
  }

  lemma ProceedDeals(s: System, c: nat)
    requires Enabled(s, Proceed(c)) && DealtWith(s)
    ensures DealtWith(Do(s, Proceed(c)))
  {
    hide AllInHand, Settled;
    var t := Do(s, Proceed(c));
    if s.contexts[c].Executing? {
      StepDeals(s, t, c, multiset{}, multiset{});
    } else {
      SettledAppend(s.log, t.log[|s.log|]);
      StepDeals(s, t, c, multiset{}, multiset{MessageOf(t.log[|s.log|])});
    }
  }

  lemma {:induction false} NothingInHand(contexts: seq<Pc>)
    requires forall c | 0 <= c < |contexts| :: contexts[c] == Free
    ensures AllInHand(contexts) == multiset{}
  {
    if contexts != [] {
      NothingInHand(contexts[..|contexts| - 1]);
    }
  }

  /** In every run, each message is taken in its turn and settled once, as what it is: with its own key or future. */
  lemma {:induction false} EachMessageDealtWithOnce(s: System, steps: seq<Step>)
    requires Initial(s) && IsRun(s, steps)
    ensures After(s, steps).taken + After(s, steps).queue == After(s, steps).posted
    ensures multiset(After(s, steps).taken) == Settled(After(s, steps).log) + AllInHand(After(s, steps).contexts)
  {
    if steps == [] {
      NothingInHand(s.contexts);
    } else {
      var before := After(s, steps[..|steps| - 1]);
      EachMessageDealtWithOnce(s, steps[..|steps| - 1]);
      match steps[|steps| - 1]
      case Post(msg) => assert before.taken + (before.queue + [msg]) == before.taken + before.queue + [msg];
      case Take(c) => TakeDeals(before, c);
      case Proceed(c) => ProceedDeals(before, c);
    }
  }

  /** A context that is not free to take a message can go on, unless it panicked or waits for a lock held by one
      that can. */
  lemma NobodyIsStuck(s: System, steps: seq<Step>, c: nat)
    requires Initial(s) && IsRun(s, steps) && c < |After(s, steps).contexts|
    ensures var t := After(s, steps);
            || t.contexts[c] == Free || t.contexts[c] == Panicked || Enabled(t, Proceed(c))
            || (t.lockedBy.Some? && Enabled(t, Proceed(t.lockedBy.value)) && Do(t, Proceed(t.lockedBy.value)).lockedBy.None?)
  {
    EveryRun(s, steps);
  }

  // ---- As long as the counter has not wrapped ----

  predicate Unwrapped(s: System) {
    |s.issued| <= s.limit + 1
  }

  /** No key is inserted twice, and none is removed before it was inserted. */
  ghost predicate OnceInv(s: System) {
    && (forall key | key in s.inserted :: key in s.issued)
    && (forall c | 0 <= c < |s.contexts| && s.contexts[c].Inserting? ::
          s.contexts[c].key in s.issued && s.contexts[c].key !in s.inserted)
    && (forall c, d | 0 <= c < d < |s.contexts| && s.contexts[c].Inserting? && s.contexts[d].Inserting? ::
          s.contexts[c].key != s.contexts[d].key)
    && (forall c | 0 <= c < |s.contexts| && s.contexts[c].WantsRemove? :: s.contexts[c].key in s.inserted)
    && (forall k | 0 <= k < |s.queue| && !s.queue[k].Register? :: s.queue[k].key in s.inserted)
    && (forall m | 0 <= m < |s.log| && Settles(s.log[m]) :: s.log[m].key in s.inserted)
    && OnceEach(s.log)
  }

  predicate Settles(e: Event) {
    e.Inserted? || e.Removed?
  }

  predicate OnceEach(log: seq<Event>) {
    forall r, m | 0 <= r < m < |log| && Settles(log[r]) && log[m].Inserted? :: log[m].key != log[r].key
  }

  lemma OnceStep(s: System, step: Step)
    requires Enabled(s, step) && KeyInv(s) && OnceInv(s) && Unwrapped(Do(s, step))
    ensures OnceInv(Do(s, step))
  {
    match step
    case Post(_) =>
    case Proceed(c) => ProceedStep(s, c);
    case Take(c) =>
      if s.queue[0].Register? {
        RegisterStep(s, c);
      } else {
        TakeStep(s, c);
      }
  }

  lemma TakeStep(s: System, c: nat)
    requires Enabled(s, Take(c)) && !s.queue[0].Register? && OnceInv(s)
    ensures OnceInv(Do(s, Take(c)))
  {
  }

  lemma RegisterStep(s: System, c: nat)
    requires Enabled(s, Take(c)) && s.queue[0].Register?
    requires KeyInv(s) && OnceInv(s) && Unwrapped(Do(s, Take(c)))
    ensures OnceInv(Do(s, Take(c)))
  {
    var t := Do(s, Take(c));
    var n := |s.issued|;
    forall m: nat | m <= n ensures NthKey(s.limit, m) == m {
      NthKeyIsN(s.limit, m);
    }
    assert s.nextKey !in s.issued;
    assert t.issued[n] == n;
    assert forall key | key in s.issued :: key in t.issued;
  }

  lemma ProceedStep(s: System, c: nat)
    requires Enabled(s, Proceed(c)) && OnceInv(s)
    ensures OnceInv(Do(s, Proceed(c)))
  {
    var t := Do(s, Proceed(c));
    assert t.queue == s.queue && t.issued == s.issued && s.inserted <= t.inserted;
    assert forall d | 0 <= d < |t.contexts| && d != c :: t.contexts[d] == s.contexts[d];
  }

  lemma {:induction false} EveryUnwrappedRun(s: System, steps: seq<Step>)
    requires Initial(s) && IsRun(s, steps) && Unwrapped(After(s, steps))
    ensures OnceInv(After(s, steps))
  {
    if steps != [] {
      var last := |steps| - 1;
      var before := After(s, steps[..last]);
      EveryRun(s, steps[..last]);
      assert |before.issued| <= |After(s, steps).issued|;
      EveryUnwrappedRun(s, steps[..last]);
      OnceStep(before, steps[last]);
    }
  }

  /** Once a Remove was processed, no Run with its key, stale or new, ever executes a future again, and none with
      its key is being executed. */
  lemma RemovedStaysRemoved(s: System, steps: seq<Step>, r: nat, key: nat)
    requires Initial(s) && IsRun(s, steps) && Unwrapped(After(s, steps))
    requires r < |After(s, steps).log| && After(s, steps).log[r] == Removed(key)
    ensures var t := After(s, steps);
            && (forall x | r < x < |t.log| && t.log[x].Executed? :: t.log[x].key != key)
            && (forall c | 0 <= c < |t.contexts| && t.contexts[c].Executing? :: t.contexts[c].key != key)
  {
    EveryRun(s, steps);
    EveryUnwrappedRun(s, steps);
    var t := After(s, steps);
    RemovedForGood(t.log, r, key);
    forall x | r < x < |t.log| && t.log[x].Executed? ensures t.log[x].key != key {
      RemovedForGood(t.log[..x], r, key);
    }
  }

  lemma RemovedForGood(log: seq<Event>, r: nat, key: nat)
    requires OnceEach(log) && r < |log| && log[r] == Removed(key)
    ensures Current(log, key).None?
  {
    RemovedIsGone(log, r, key);
  }

  // ---- When it has ----

  ghost predicate Reaches(s: System, t: System) {
    exists steps :: IsRun(s, steps) && After(s, steps) == t
  }

  lemma ReachesNext(s: System, t: System, step: Step)
    requires Reaches(s, t) && Enabled(t, step)
    ensures Reaches(s, Do(t, step))
  {
    var steps :| IsRun(s, steps) && After(s, steps) == t;
    assert (steps + [step])[..|steps|] == steps;
    assert IsRun(s, steps + [step]) && After(s, steps + [step]) == Do(t, step);
  }

  /** One registration, handed to context `c` and completed. */
  lemma ReachesRegistered(s: System, t: System, future: Future, c: nat)
    requires Reaches(s, t) && t.queue == [] && t.lockedBy.None? && c < |t.contexts| && t.contexts[c] == Free
    requires t.nextKey < t.limit
    ensures Reaches(s, t.(nextKey := t.nextKey + 1, issued := t.issued + [t.nextKey],
                          futures := t.futures[t.nextKey := future], inserted := t.inserted + {t.nextKey},
                          log := t.log + [Inserted(t.nextKey, future)],
                          posted := t.posted + [Register(future)], taken := t.taken + [Register(future)]))
  {
    hide Reaches;
    ReachesNext(s, t, Post(Register(future)));
    var u := Do(t, Post(Register(future)));
    ReachesNext(s, u, Take(c));
    var v := Do(u, Take(c));
    ReachesNext(s, v, Proceed(c));
    assert v.queue == t.queue && Do(v, Proceed(c)).contexts == t.contexts;
  }

  lemma ReachesPanicked(s: System, t: System, future: Future, c: nat)
    requires Reaches(s, t) && t.queue == [] && c < |t.contexts| && t.contexts[c] == Free
    requires t.nextKey == t.limit
    ensures Reaches(s, t.(nextKey := 0, issued := t.issued + [t.limit], contexts := t.contexts[c := Panicked],
                          log := t.log + [Lost(future)],
                          posted := t.posted + [Register(future)], taken := t.taken + [Register(future)]))
  {
    hide Reaches;
    ReachesNext(s, t, Post(Register(future)));
    var u := Do(t, Post(Register(future)));
    ReachesNext(s, u, Take(c));
    assert Do(u, Take(c)).queue == t.queue;
  }

  lemma ReachesRemoved(s: System, t: System, key: nat, c: nat)
    requires Reaches(s, t) && t.queue == [] && t.lockedBy.None? && c < |t.contexts| && t.contexts[c] == Free
    requires key in t.inserted
    ensures Reaches(s, t.(futures := t.futures - {key}, log := t.log + [Removed(key)],
                          posted := t.posted + [Remove(key)], taken := t.taken + [Remove(key)]))
  {
    hide Reaches;
    ReachesNext(s, t, Post(Remove(key)));
    var u := Do(t, Post(Remove(key)));
    ReachesNext(s, u, Take(c));
    var v := Do(u, Take(c));
    ReachesNext(s, v, Proceed(c));
    assert v.queue == t.queue && Do(v, Proceed(c)).contexts == t.contexts;
  }

  lemma ReachesExecuted(s: System, t: System, key: nat, c: nat)
    requires Reaches(s, t) && t.queue == [] && t.lockedBy.None? && c < |t.contexts| && t.contexts[c] == Free
    requires key in t.inserted && key in t.futures
    ensures Reaches(s, t.(lockedBy := Some(c), contexts := t.contexts[c := Executing(key, t.futures[key])],
                          log := t.log + [Executed(key, t.futures[key])],
                          posted := t.posted + [Run(key)], taken := t.taken + [Run(key)]))
  {
    hide Reaches;
    ReachesNext(s, t, Post(Run(key)));
    var u := Do(t, Post(Run(key)));
    ReachesNext(s, u, Take(c));
    var v := Do(u, Take(c));
    ReachesNext(s, v, Proceed(c));
    assert v.queue == t.queue && Do(v, Proceed(c)).contexts == t.contexts[c := Executing(key, t.futures[key])];
  }

  lemma ARemovedKeyComesRound(s: System) returns (t: System)
    requires s == System(1, 0, map[], None, [Free, Free], [], [], {}, [], [], [])
    ensures Reaches(s, t) && t.nextKey == 0 && t.limit == 1 && t.queue == [] && t.lockedBy.None?
    ensures t.contexts == [Free, Panicked] && t.log == [Inserted(0, 7), Removed(0), Lost(8)]
  {
    assert IsRun(s, []) && After(s, []) == s;
    assert Reaches(s, s);
    hide Reaches;
    ReachesRegistered(s, s, 7, 0);
    var first := [Register(7)];
    t := System(1, 1, map[0 := 7], None, [Free, Free], [], [0], {0}, [Inserted(0, 7)], first, first);
    ReachesRemoved(s, t, 0, 0);
    t := t.(futures := map[0 := 7] - {0}, log := t.log + [Removed(0)],
            posted := t.posted + [Remove(0)], taken := t.taken + [Remove(0)]);
    ReachesPanicked(s, t, 8, 1);
    t := t.(nextKey := 0, issued := t.issued + [1], contexts := [Free, Free][1 := Panicked], log := t.log + [Lost(8)],
            posted := t.posted + [Register(8)], taken := t.taken + [Register(8)]);
  }

  /** A counter with two values: the second registration panics, the third gets the removed key of the first. */
  lemma ARemovedKeyRunsAgain() returns (s: System, t: System)
    ensures Initial(s) && Reaches(s, t)
    ensures t.log == [Inserted(0, 7), Removed(0), Lost(8), Inserted(0, 9), Executed(0, 9)]
  {
    s := System(1, 0, map[], None, [Free, Free], [], [], {}, [], [], []);
    t := ARemovedKeyComesRound(s);
    hide Reaches;
    ReachesRegistered(s, t, 9, 0);
    t := t.(nextKey := 1, issued := t.issued + [0], futures := t.futures[0 := 9], inserted := t.inserted + {0},
            log := t.log + [Inserted(0, 9)], posted := t.posted + [Register(9)], taken := t.taken + [Register(9)]);
    ReachesExecuted(s, t, 0, 0);
    t := t.(lockedBy := Some(0), contexts := t.contexts[0 := Executing(0, 9)], log := t.log + [Executed(0, 9)],
            posted := t.posted + [Run(0)], taken := t.taken + [Run(0)]);
  }
}
