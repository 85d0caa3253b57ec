/** The retry loop on the packed counter, as the code runs it. */
module ActiveWord {
  import opened Wrappers
  import opened Lifecycle

  /** What the loop meets at one swap: the word as other contexts and `shutdown` left it, and whether the weak
      swap fails without a reason. */
  datatype Turn = Turn(word: int, spurious: bool)

  /** Where the loop is: about to try again with the word it has `seen`, or done. */
  datatype Attempt = Trying(seen: int) | Swapped(word: int)

  function Retry(a: Attempt, delta: int, turn: Turn): Attempt {
    if a.Swapped? || Marked(a.seen) then a
    else if turn.word == a.seen && !turn.spurious then Swapped(a.seen + delta)
    else Trying(turn.word)
  }

  /** Where the loop is after these turns, having loaded `first`. */
  function Attempts(first: int, delta: int, turns: seq<Turn>): Attempt {
    if turns == [] then Trying(first) else
      Retry(Attempts(first, delta, turns[..|turns| - 1]), delta, turns[|turns| - 1])
  }

  class ActiveWord {
    var word: int

    constructor ()
      ensures word == 0
    {
      word := 0;
    }

    /** Add `delta` once, unless the marker is there. `turns` is as long as the caller cares to watch:
        the result is none when the loop is still trying after that. */
    method ModifyActive(delta: int, turns: seq<Turn>) returns (outcome: Option<bool>, used: nat)
      modifies this
      ensures used <= |turns|
      ensures var end := Attempts(old(word), delta, turns[..used]);
              && (outcome == Some(true) <==> end.Swapped?)
              && (outcome == Some(false) <==> end.Trying? && Marked(end.seen))
              && (outcome.None? ==> used == |turns|)
              && word == (if end.Swapped? then end.word else end.seen)
      ensures forall n: nat | n < used ::
                var a := Attempts(old(word), delta, turns[..n]); a.Trying? && !Marked(a.seen)
    {
      used := 0;
      var active := word;
      while true
        invariant used <= |turns|
        invariant active == word && Attempts(old(word), delta, turns[..used]) == Trying(active)
        invariant forall n: nat | n < used ::
                    var a := Attempts(old(word), delta, turns[..n]); a.Trying? && !Marked(a.seen)
        decreases |turns| - used
      {
        if Marked(active) {
          return Some(false), used;
        }
        if used == |turns| {
          return None, used;
        }
        assert turns[..used + 1][..used] == turns[..used];
        var new_ := active + delta;
        word := turns[used].word;
        used := used + 1;
        if word == active && !turns[used - 1].spurious {
          word := new_;
          return Some(true), used;
        }
        active := word;
      }
    }

    method IncActive(turns: seq<Turn>) returns (outcome: Option<bool>, used: nat)
      modifies this
      ensures used <= |turns|
      ensures outcome == Some(true) ==> used > 0 && !Marked(turns[used - 1].word) && word == turns[used - 1].word + UNIT
      ensures outcome == Some(false) ==> Marked(word)
      ensures var end := Attempts(old(word), UNIT, turns[..used]);
              && (outcome == Some(true) <==> end.Swapped?)
              && word == (if end.Swapped? then end.word else end.seen)
    {
      outcome, used := ModifyActive(UNIT, turns);
      assert used > 0 ==> turns[..used][..used - 1] == turns[..used - 1];
      SwapIsOnTheLastWord(old(word), UNIT, turns[..used]);
    }

    method DecActive(turns: seq<Turn>) returns (outcome: Option<bool>, used: nat)
      modifies this
      ensures used <= |turns|
      ensures outcome == Some(true) ==> used > 0 && !Marked(turns[used - 1].word) && word == turns[used - 1].word - UNIT
      ensures outcome == Some(false) ==> Marked(word)
      ensures var end := Attempts(old(word), -UNIT, turns[..used]);
              && (outcome == Some(true) <==> end.Swapped?)
              && word == (if end.Swapped? then end.word else end.seen)
    {
      outcome, used := ModifyActive(-UNIT, turns);
      assert used > 0 ==> turns[..used][..used - 1] == turns[..used - 1];
      SwapIsOnTheLastWord(old(word), -UNIT, turns[..used]);
    }

    method CurrentActive() returns (n: int)
      ensures word == 2 * n || word == 2 * n + MARKER
    {
      n := word / 2;
    }

    method MarkShutdown()
      modifies this
      ensures Marked(word) && word / 2 == old(word) / 2
    {
      if !Marked(word) {
        word := word + MARKER;
      }
    }
  }

  /** A loop that has just swapped has added its change to the word that it met, which was not marked. */
  lemma SwapIsOnTheLastWord(first: int, delta: int, turns: seq<Turn>)
    ensures var end := Attempts(first, delta, turns);
            end.Swapped? && (turns != [] ==> Attempts(first, delta, turns[..|turns| - 1]).Trying?) ==>
              && turns != []
              && !Marked(turns[|turns| - 1].word) && end.word == turns[|turns| - 1].word + delta
  {
  }
}
