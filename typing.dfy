/**
 * TypingEffect: the hero text that types one string character by character,
 * pauses, deletes it, and moves on to the next string, forever. Each call of
 * type() shows one more (or one fewer) character and yields the delay before
 * the next call.
 */
module Typing {

  const TypeSpeed := 100
  const DeleteSpeed := 50
  const PauseDelay := 2000

  const DefaultStrings: seq<string> := ["Cloud Engineer", "Problem Solver", "Tech Innovator"]

  /** currentStringIndex, currentCharIndex and isDeleting. */
  datatype TypingState = TypingState(stringIndex: nat, charIndex: int, isDeleting: bool)

  /** What one call of type() produces: the next state, the text shown and the delay before the next call. */
  datatype Tick = Tick(next: TypingState, text: string, delay: nat)

  predicate NonEmptyStrings(strings: seq<string>) {
    |strings| > 0 && forall i :: 0 <= i < |strings| ==> |strings[i]| > 0
  }

  /**
   * The states type() passes through: while typing, the current string is
   * not yet complete; while deleting, at least one character is still shown.
   */
  predicate Reachable(strings: seq<string>, st: TypingState) {
    st.stringIndex < |strings| &&
    if st.isDeleting then 1 <= st.charIndex <= |strings[st.stringIndex]|
    else 0 <= st.charIndex < |strings[st.stringIndex]|
  }

  /** String.prototype.substring(0, end): the end is clamped to the string. */
  function Prefix(s: string, end: int): (r: string)
    ensures 0 <= end <= |s| ==> r == s[..end]
  {
    if end <= 0 then "" else if end >= |s| then s else s[..end]
  }

  /** One call of type(). */
  function Step(strings: seq<string>, st: TypingState): (t: Tick)
    requires NonEmptyStrings(strings) && Reachable(strings, st)
    ensures Reachable(strings, t.next)
    ensures 0 <= t.next.charIndex <= |strings[st.stringIndex]|
    ensures t.text == strings[st.stringIndex][..t.next.charIndex]
  {
    var currentString := strings[st.stringIndex];
    var text := if st.isDeleting then Prefix(currentString, st.charIndex - 1)
                else Prefix(currentString, st.charIndex + 1);
    var charIndex := if st.isDeleting then st.charIndex - 1 else st.charIndex + 1;
    var delay := if st.isDeleting then DeleteSpeed else TypeSpeed;
    if !st.isDeleting && charIndex == |currentString| then
      Tick(TypingState(st.stringIndex, charIndex, true), text, PauseDelay)
    else if st.isDeleting && charIndex == 0 then
      Tick(TypingState((st.stringIndex + 1) % |strings|, charIndex, false), text, delay)
    else
      Tick(st.(charIndex := charIndex), text, delay)
  }

  /**
   * The phases of type(): one character more while typing, one fewer while
   * deleting; a pause and a turn to deleting at full length; a turn to typing
   * the next string (cyclically) at zero length; otherwise the phase is kept.
   */
  lemma StepPhases(strings: seq<string>, st: TypingState)
    requires NonEmptyStrings(strings) && Reachable(strings, st)
    ensures var t := Step(strings, st);
      var length := |strings[st.stringIndex]|;
      t.next.charIndex == (if st.isDeleting then st.charIndex - 1 else st.charIndex + 1) &&
      (!st.isDeleting && t.next.charIndex == length ==>
        t.next.isDeleting && t.next.stringIndex == st.stringIndex && t.delay == PauseDelay) &&
      (st.isDeleting && t.next.charIndex == 0 ==>
        !t.next.isDeleting && t.next.stringIndex == (st.stringIndex + 1) % |strings| && t.delay == DeleteSpeed) &&
      ((if st.isDeleting then t.next.charIndex != 0 else t.next.charIndex != length) ==>
        t.next.isDeleting == st.isDeleting && t.next.stringIndex == st.stringIndex &&
        t.delay == if st.isDeleting then DeleteSpeed else TypeSpeed)
  {
  }

  /** The state after `k` calls of type(). */
  function Run(strings: seq<string>, st: TypingState, k: nat): (r: TypingState)
    requires NonEmptyStrings(strings) && Reachable(strings, st)
    ensures Reachable(strings, r)
    decreases k
  {
    if k == 0 then st else Run(strings, Step(strings, st).next, k - 1)
  }

  lemma {:induction false} RunAdds(strings: seq<string>, st: TypingState, a: nat, b: nat)
    requires NonEmptyStrings(strings) && Reachable(strings, st)
    ensures Run(strings, st, a + b) == Run(strings, Run(strings, st, a), b)
    decreases a
  {
    if a > 0 {
      RunAdds(strings, Step(strings, st).next, a - 1, b);
    }
  }

  /** Typing from any point reaches the full string, then turns to deleting. */
  lemma {:induction false} TypesToTheEnd(strings: seq<string>, i: nat, c: int)
    requires NonEmptyStrings(strings) && i < |strings| && 0 <= c < |strings[i]|
    ensures Run(strings, TypingState(i, c, false), |strings[i]| - c) == TypingState(i, |strings[i]|, true)
    decreases |strings[i]| - c
  {
    if c + 1 < |strings[i]| {
      TypesToTheEnd(strings, i, c + 1);
    }
  }

  /** Deleting from any point empties the text, then types the next string. */
  lemma {:induction false} DeletesToTheStart(strings: seq<string>, i: nat, c: int)
    requires NonEmptyStrings(strings) && i < |strings| && 1 <= c <= |strings[i]|
    ensures Run(strings, TypingState(i, c, true), c) == TypingState((i + 1) % |strings|, 0, false)
    decreases c
  {
    if c > 1 {
      DeletesToTheStart(strings, i, c - 1);
    }
  }

  /**
   * Each string is typed out and deleted in exactly twice its length calls,
   * after which the next string (cyclically) starts from nothing.
   */
  lemma OneStringPerCycle(strings: seq<string>, i: nat)
    requires NonEmptyStrings(strings) && i < |strings|
    ensures Run(strings, TypingState(i, 0, false), 2 * |strings[i]|) == TypingState((i + 1) % |strings|, 0, false)
  {
    var n := |strings[i]|;
    RunAdds(strings, TypingState(i, 0, false), n, n);
    TypesToTheEnd(strings, i, 0);
    DeletesToTheStart(strings, i, n);
  }

  class TypingEffect {
    const strings: seq<string>
    var currentStringIndex: nat
    var currentCharIndex: int
    var isDeleting: bool

    function State(): TypingState
      reads this
    {
      TypingState(currentStringIndex, currentCharIndex, isDeleting)
    }

    ghost predicate Valid()
      reads this
    {
      NonEmptyStrings(strings) && Reachable(strings, State())
    }

    constructor ()
      ensures Valid()
      ensures strings == DefaultStrings && State() == TypingState(0, 0, false)
    {
      strings := DefaultStrings;
      currentStringIndex := 0;
      currentCharIndex := 0;
      isDeleting := false;
    }

    /** type(): returns the text to show and the delay before the next call. */
    method Type() returns (text: string, delay: nat)
      requires Valid()
      modifies this
      ensures Valid()
      ensures Tick(State(), text, delay) == Step(strings, old(State()))
    {
      var currentString := strings[currentStringIndex];
      if isDeleting {
        text := Prefix(currentString, currentCharIndex - 1);
        currentCharIndex := currentCharIndex - 1;
      } else {
        text := Prefix(currentString, currentCharIndex + 1);
        currentCharIndex := currentCharIndex + 1;
      }
      delay := if isDeleting then DeleteSpeed else TypeSpeed;
      if !isDeleting && currentCharIndex == |currentString| {
        delay := PauseDelay;
        isDeleting := true;
      } else if isDeleting && currentCharIndex == 0 {
        isDeleting := false;
        currentStringIndex := (currentStringIndex + 1) % |strings|;
      }
    }
  }
}
