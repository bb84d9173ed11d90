/** Queue numbers as the driver returns them: its answer to a request repeats each number, and two
    bits say what went wrong. */
module QueueNumbers {

  const ERROR: nat := 0x4000_0000
  const INVALID: nat := 0x8000_0000

  predicate HasInvalid(n: nat) { n / INVALID % 2 == 1 }

  /** The number without the two bits. */
  function Unmasked(n: nat): nat { n % ERROR }

  /** The answer to a request: the numbers asked about, in order, some of them marked invalid. */
  ghost predicate AnswerTo(asked: seq<nat>, numbers: seq<nat>) {
    |numbers| == |asked| && forall i :: 0 <= i < |asked| ==> Repeats(asked[i], numbers[i])
  }

  predicate Repeats(id: nat, n: nat) {
    id < ERROR && (n == id || n == id + INVALID)
  }

  /** The number in which the loop over an answer looks for the mark. The one of a suspend looks
      in the number returned, the one of a resume in the number it has just unmasked. */
  function Tested(n: nat, unmasked: bool): nat {
    if unmasked then Unmasked(n) else n
  }

  /** The queues a loop finds marked. */
  function Marks(numbers: seq<nat>, unmasked: bool): set<nat> {
    if numbers == [] then {}
    else
      var last := numbers[|numbers| - 1];
      Marks(numbers[..|numbers| - 1], unmasked) + if HasInvalid(Tested(last, unmasked)) then {Unmasked(last)} else {}
  }

  function SuspendMarks(numbers: seq<nat>): set<nat> { Marks(numbers, false) }
  function ResumeMarks(numbers: seq<nat>): set<nat> { Marks(numbers, true) }

  predicate NoneMarked(numbers: seq<nat>) {
    forall i :: 0 <= i < |numbers| ==> !HasInvalid(numbers[i])
  }

  lemma UnmaskedHasNoMark(n: nat)
    ensures !HasInvalid(Unmasked(n))
  {
  }

  /** The loop of a resume finds nothing, whatever the answer is, and so it finds what the loop of
      a suspend finds if and only if no number is marked. */
  lemma {:induction false} ResumeMarksNothing(numbers: seq<nat>)
    ensures ResumeMarks(numbers) == {}
    ensures ResumeMarks(numbers) == SuspendMarks(numbers) <==> NoneMarked(numbers)
  {
    if numbers != [] {
      var front, last := numbers[..|numbers| - 1], numbers[|numbers| - 1];
      ResumeMarksNothing(front);
      UnmaskedHasNoMark(last);
      assert NoneMarked(numbers) <==> NoneMarked(front) && !HasInvalid(last);
    }
  }

  lemma {:induction false} MarkIsFound(numbers: seq<nat>, i: nat)
    requires i < |numbers| && HasInvalid(numbers[i])
    ensures Unmasked(numbers[i]) in SuspendMarks(numbers)
  {
    if i < |numbers| - 1 { MarkIsFound(numbers[..|numbers| - 1], i); }
  }

  /** An answer has marks only for queues asked about. */
  lemma {:induction false} MarkedWereAsked(asked: seq<nat>, numbers: seq<nat>, unmasked: bool)
    requires AnswerTo(asked, numbers)
    ensures forall id :: id in Marks(numbers, unmasked) ==> id in asked
  {
    if numbers != [] {
      var n := |numbers| - 1;
      ShorterAnswer(asked, numbers);
      MarkedWereAsked(asked[..n], numbers[..n], unmasked);
      assert asked[n] in asked;
    }
  }

  lemma ShorterAnswer(asked: seq<nat>, numbers: seq<nat>)
    requires AnswerTo(asked, numbers) && numbers != []
    ensures var n := |numbers| - 1; AnswerTo(asked[..n], numbers[..n]) && Unmasked(numbers[n]) == asked[n]
  {
    var n := |numbers| - 1;
    assert forall i :: 0 <= i < n ==> Repeats(asked[i], numbers[i]);
    assert Repeats(asked[n], numbers[n]);
  }

  /** The driver resumes the queues it does not mark. Their number and the number of marks the loop
      finds add up to the number asked for, as an assertion says they do, if and only if there
      is no mark. */
  lemma ResumedAddsUpExactly(numbers: seq<nat>, resumed: nat)
    requires resumed + |SuspendMarks(numbers)| == |numbers|
    ensures resumed + |ResumeMarks(numbers)| == |numbers| <==> NoneMarked(numbers)
  {
    ResumeMarksNothing(numbers);
    if i :| 0 <= i < |numbers| && HasInvalid(numbers[i]) {
      MarkIsFound(numbers, i);
    }
  }
}
