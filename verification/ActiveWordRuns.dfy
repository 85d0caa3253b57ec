/** The steps that the contexts of `Lifecycle` take on the packed counter are the loop of `ActiveWord`. */
module ActiveWordRuns {
  import opened Lifecycle
  import opened LifecycleRuns
  import opened ActiveWord

  function Delta(inc: bool): int {
    if inc then UNIT else -UNIT
  }

  predicate AtLoad(pc: Pc, inc: bool) {
    if inc then pc.IncLoad? else pc.DecLoad?
  }

  predicate AtSwap(pc: Pc, inc: bool) {
    if inc then pc.IncCas? else pc.DecCas?
  }

  /** Where context `i` is in one call: all its steps of the run belong to the loop of an increment or decrement. */
  ghost predicate Loops(s: System, steps: seq<Step>, i: nat, inc: bool)
    requires IsRun(s, steps) && i < |s.contexts|
    decreases |steps|
  {
    steps == [] ||
    var last := |steps| - 1;
    var before := After(s, steps[..last]);
    && Loops(s, steps[..last], i, inc)
    && (steps[last].Run? && steps[last].i == i ==>
          AtLoad(before.contexts[i].pc, inc) || AtSwap(before.contexts[i].pc, inc))
  }

  /** The word that the call loaded. */
  ghost function Loaded(s: System, steps: seq<Step>, i: nat, inc: bool): int
    requires IsRun(s, steps) && i < |s.contexts| && Loops(s, steps, i, inc)
    decreases |steps|
  {
    if steps == [] then s.word else
      var last := |steps| - 1;
      var before := After(s, steps[..last]);
      if steps[last].Run? && steps[last].i == i && AtLoad(before.contexts[i].pc, inc) then before.word
      else Loaded(s, steps[..last], i, inc)
  }

  /** The words that its swaps met. */
  ghost function Turns(s: System, steps: seq<Step>, i: nat, inc: bool): seq<Turn>
    requires IsRun(s, steps) && i < |s.contexts| && Loops(s, steps, i, inc)
    decreases |steps|
  {
    if steps == [] then [] else
      var last := |steps| - 1;
      var before := After(s, steps[..last]);
      var turns := Turns(s, steps[..last], i, inc);
      if steps[last].Run? && steps[last].i == i && AtSwap(before.contexts[i].pc, inc)
         && !Marked(before.contexts[i].pc.seen)
      then turns + [Turn(before.word, steps[last].act == CasFails)]
      else turns
  }

  /** The place of a context in its code agrees with the place of the loop. */
  predicate InStep(c: Context, a: Attempt, turns: seq<Turn>, inc: bool) {
    if AtLoad(c.pc, inc) then turns == [] && (inc ==> !c.counted)
    else if AtSwap(c.pc, inc) then a == Trying(c.pc.seen) && (inc ==> !c.counted)
    else
      && (a.Trying? ==> Marked(a.seen))
      && (if inc then c.pc == Receiving && (c.counted <==> a.Swapped?) else c.pc == Decided(a.Swapped?))
  }

  lemma AttemptsAppend(first: int, delta: int, turns: seq<Turn>, turn: Turn)
    ensures Attempts(first, delta, turns + [turn]) == Retry(Attempts(first, delta, turns), delta, turn)
  {
    assert (turns + [turn])[..|turns|] == turns;
  }

  /** One step of the context itself is one turn of the loop, or its load, or its look at the marker. */
  lemma OwnStep(s: System, act: Act, i: nat, first: int, turns: seq<Turn>, inc: bool)
    requires Enabled(s, Run(i, act))
    requires var c := s.contexts[i];
             && (AtLoad(c.pc, inc) || AtSwap(c.pc, inc)) && InStep(c, Attempts(first, Delta(inc), turns), turns, inc)
    ensures var c, d := s.contexts[i], Do(s, Run(i, act)).contexts[i];
            if AtLoad(c.pc, inc) then InStep(d, Attempts(s.word, Delta(inc), turns), turns, inc)
            else if Marked(c.pc.seen) then InStep(d, Attempts(first, Delta(inc), turns), turns, inc)
            else
              var more := turns + [Turn(s.word, act == CasFails)];
              var a := Attempts(first, Delta(inc), more);
              && InStep(d, a, more, inc)
              && (act == CasSucceeds ==> a == Swapped(Do(s, Run(i, act)).word))
  {
    AttemptsAppend(first, Delta(inc), turns, Turn(s.word, act == CasFails));
  }

  /** In every run of the contexts, whatever the others do in between, the steps of one increment or decrement go
      the way the loop goes on the words they meet, and end as it ends. */
  lemma {:induction false} StepsAreTheLoop(s: System, steps: seq<Step>, i: nat, inc: bool)
    requires IsRun(s, steps) && i < |s.contexts|
    requires AtLoad(s.contexts[i].pc, inc) && CounterInv(s) && Loops(s, steps, i, inc)
    ensures var turns := Turns(s, steps, i, inc);
            && |After(s, steps).contexts| == |s.contexts|
            && InStep(After(s, steps).contexts[i], Attempts(Loaded(s, steps, i, inc), Delta(inc), turns), turns, inc)
  {
    if steps == [] {
      assert CounterOk(s.word, s.contexts[i]);
    } else {
      var last := |steps| - 1;
      var before := After(s, steps[..last]);
      StepsAreTheLoop(s, steps[..last], i, inc);
      if steps[last].Run? && steps[last].i == i {
        OwnStep(before, steps[last].act, i, Loaded(s, steps[..last], i, inc), Turns(s, steps[..last], i, inc), inc);
      } else {
        OthersStep(before, steps[last], i);
      }
    }
  }

  lemma OthersStep(s: System, step: Step, i: nat)
    requires Enabled(s, step) && i < |s.contexts| && !(step.Run? && step.i == i)
    ensures var t := Do(s, step);
            && |t.contexts| == |s.contexts|
            && t.contexts[i].pc == s.contexts[i].pc && t.contexts[i].counted == s.contexts[i].counted
  {
  }
}
