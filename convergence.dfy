/**
 * Convergence detection for one node's strategy history
 * (identify_convergence, rps.py lines 59-73): the shortest period with
 * which the tail of the history repeats, searched from 2 upward.
 */
module Convergence {
  import opened Wrappers
  import opened Strategies

  /** The largest period tried: the loop runs while `length <= 21`. */
  const MaxPeriod: nat := 21

  datatype ConvergenceError =
    | IndexOutOfRange  // the history is too short for the period being tried
    | NotConverged     // no period up to MaxPeriod matched

  /** states[-i] in the program's negative indexing. */
  function FromEnd(states: seq<Strategy>, i: nat): Strategy
    requires 1 <= i <= |states|
  {
    states[|states| - i]
  }

  /** The last `length` states repeat the `length` states before them. */
  predicate RepeatsWithPeriod(states: seq<Strategy>, length: nat)
    requires 2 * length <= |states|
  {
    forall i :: 1 <= i <= length ==> FromEnd(states, i) == FromEnd(states, length + i)
  }

  /** The outcome of the search when the periods below `length` have already failed. */
  function ConvergenceFrom(states: seq<Strategy>, length: nat): Result<nat, ConvergenceError>
    decreases MaxPeriod + 1 - length
  {
    if length > MaxPeriod then Failure(NotConverged)
    else if |states| < 2 * length then Failure(IndexOutOfRange)
    else if RepeatsWithPeriod(states, length) then Success(length)
    else ConvergenceFrom(states, length + 1)
  }

  /** identify_convergence on one history. */
  method IdentifyConvergence(states: seq<Strategy>) returns (r: Result<nat, ConvergenceError>)
    ensures r == ConvergenceFrom(states, 2)
  {
    var length := 2;
    var converged := false;
    while !converged && length <= MaxPeriod
      invariant 2 <= length <= MaxPeriod + 1
      invariant converged ==> ConvergenceFrom(states, 2) == Success(length - 1)
      invariant !converged ==> ConvergenceFrom(states, 2) == ConvergenceFrom(states, length)
    {
      var compared := ComparePeriod(states, length);
      if compared.Failure? {
        assert ConvergenceFrom(states, length) == Failure(IndexOutOfRange);
        return Failure(compared.error);
      }
      converged := compared.value;
      assert ConvergenceFrom(states, length) ==
        if converged then Success(length) else ConvergenceFrom(states, length + 1);
      length := length + 1;
    }
    if converged {
      r := Success(length - 1);
    } else {
      r := Failure(NotConverged);
    }
  }

  /**
   * The body of identify_convergence's outer loop: compares the last
   * `length` states with the `length` before them, from the newest back,
   * failing as Python's indexing would when the history is too short.
   */
  method ComparePeriod(states: seq<Strategy>, length: nat) returns (r: Result<bool, ConvergenceError>)
    ensures |states| < 2 * length ==> r == Failure(IndexOutOfRange)
    ensures 2 * length <= |states| ==> r == Success(RepeatsWithPeriod(states, length))
  {
    var converged := true;
    for i := 1 to length + 1
      invariant i == 1 || length + i - 1 <= |states|
      invariant converged <==> forall k :: 1 <= k < i ==> FromEnd(states, k) == FromEnd(states, length + k)
    {
      if length + i > |states| {
        return Failure(IndexOutOfRange);
      }
      var stateToMatch := FromEnd(states, i);
      if FromEnd(states, length + i) != stateToMatch {
        converged := false;
      }
    }
    return Success(converged);
  }


  /** A period `length` that can be tested at all. */
  predicate Testable(states: seq<Strategy>, length: nat) {
    2 <= length <= MaxPeriod && 2 * length <= |states|
  }

  /**
   * The search from `length` finds the smallest matching period at or above
   * `length`, reports IndexOutOfRange when it reaches a period the history
   * is too short for, and NotConverged only when every period up to
   * MaxPeriod was testable and failed.
   */
  lemma {:induction false} ConvergenceFromCharacterised(states: seq<Strategy>, length: nat)
    requires 2 <= length
    ensures forall p :: ConvergenceFrom(states, length) == Success(p) ==>
              length <= p && Testable(states, p) && RepeatsWithPeriod(states, p)
              && forall q :: length <= q < p ==> !RepeatsWithPeriod(states, q)
    ensures (exists p :: length <= p && Testable(states, p) && RepeatsWithPeriod(states, p))
              <==> ConvergenceFrom(states, length).Success?
    ensures ConvergenceFrom(states, length) == Failure(NotConverged) <==>
              forall q :: length <= q <= MaxPeriod ==> Testable(states, q) && !RepeatsWithPeriod(states, q)
    decreases MaxPeriod + 1 - length
  {
    if length <= MaxPeriod {
      if !Testable(states, length) || RepeatsWithPeriod(states, length) {
        assert !(Testable(states, length) && !RepeatsWithPeriod(states, length));
      } else {
        ConvergenceFromCharacterised(states, length + 1);
      }
    }
  }

  /** The period reported is the shortest one from 2 to MaxPeriod. */
  lemma ShortestPeriod(states: seq<Strategy>, p: nat)
    requires ConvergenceFrom(states, 2) == Success(p)
    ensures Testable(states, p) && RepeatsWithPeriod(states, p)
    ensures forall q :: 2 <= q < p ==> !RepeatsWithPeriod(states, q)
  {
    ConvergenceFromCharacterised(states, 2);
  }

  /** Any testable repeating period bounds the reported one from above. */
  lemma PeriodFound(states: seq<Strategy>, p: nat)
    requires Testable(states, p) && RepeatsWithPeriod(states, p)
    ensures ConvergenceFrom(states, 2).Success?
    ensures ConvergenceFrom(states, 2).value <= p
  {
    ConvergenceFromCharacterised(states, 2);
  }

  /** A constant history of at least four entries has period 2, never 1. */
  lemma ConstantHistoryHasPeriodTwo(states: seq<Strategy>)
    requires |states| >= 4
    requires forall i :: 0 <= i < |states| ==> states[i] == states[0]
    ensures ConvergenceFrom(states, 2) == Success(2)
  {
    assert RepeatsWithPeriod(states, 2);
  }

  /** Two runs of rock, paper, scissors have period 3. */
  lemma RockPaperScissorsHasPeriodThree()
    ensures ConvergenceFrom([Rock, Paper, Scissors, Rock, Paper, Scissors], 2) == Success(3)
  {
    var s := [Rock, Paper, Scissors, Rock, Paper, Scissors];
    assert FromEnd(s, 1) != FromEnd(s, 3);
    assert !RepeatsWithPeriod(s, 2);
    assert RepeatsWithPeriod(s, 3);
  }
}
