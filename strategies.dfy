/**
 * The cyclic-dominance relation of the rock-paper-scissors dynamics
 * (rps.py, lines 15-56): the best-response table, the three outcome
 * predicates and the outcome classification.
 *
 * The program keeps strategies as lower-case-folded strings; here they are
 * a three-valued enumeration, so `.lower()` and unknown strings disappear.
 */
module Strategies {
  import opened Wrappers

  datatype Strategy = Rock | Paper | Scissors

  datatype Outcome = Win | Tie | Lose

  /** The strategy that beats `s`: the table of optimize_choice. */
  function Beater(s: Strategy): (r: Strategy)
    ensures r != s
    ensures IsWinning(r, s) && IsLosing(s, r)
  {
    match s
    case Rock => Paper
    case Paper => Scissors
    case Scissors => Rock
  }

  /** The position of a strategy in the cycle rock, paper, scissors. */
  function Rank(s: Strategy): (r: nat)
    ensures r < 3
  {
    match s
    case Rock => 0
    case Paper => 1
    case Scissors => 2
  }

  /** `me` loses to `other`: `other` is the next strategy in the cycle. */
  predicate IsLosing(me: Strategy, other: Strategy)
    ensures IsLosing(me, other) <==> Rank(other) == (Rank(me) + 1) % 3
  {
    match me
    case Rock => other == Paper
    case Paper => other == Scissors
    case Scissors => other == Rock
  }

  /** `me` beats `other`: `me` is the next strategy in the cycle. */
  predicate IsWinning(me: Strategy, other: Strategy)
    ensures IsWinning(me, other) <==> Rank(me) == (Rank(other) + 1) % 3
  {
    match me
    case Rock => other == Scissors
    case Paper => other == Rock
    case Scissors => other == Paper
  }

  /** `me` and `other` tie: they are the same strategy. */
  predicate IsTied(me: Strategy, other: Strategy)
    ensures IsTied(me, other) <==> me == other
  {
    match me
    case Rock => other == Rock
    case Paper => other == Paper
    case Scissors => other == Scissors
  }

  /**
   * Classifies `other` relative to `me`. The program falls back to None
   * when no predicate holds; for valid strategies that branch is dead.
   */
  function GetOutcome(me: Strategy, other: Strategy): (r: Option<Outcome>)
    ensures r.Some?
    ensures r == Some(Win) <==> IsWinning(me, other)
    ensures r == Some(Tie) <==> IsTied(me, other)
    ensures r == Some(Lose) <==> IsLosing(me, other)
  {
    if IsWinning(me, other) then Some(Win)
    else if IsTied(me, other) then Some(Tie)
    else if IsLosing(me, other) then Some(Lose)
    else None
  }

  /** Exactly one of winning, tying and losing holds. */
  lemma Trichotomy(a: Strategy, b: Strategy)
    ensures IsWinning(a, b) || IsTied(a, b) || IsLosing(a, b)
    ensures !(IsWinning(a, b) && IsTied(a, b))
    ensures !(IsWinning(a, b) && IsLosing(a, b))
    ensures !(IsTied(a, b) && IsLosing(a, b))
  {
  }

  /** Winning and losing are converse relations; tying is reflexive and symmetric. */
  lemma OutcomeSymmetry(a: Strategy, b: Strategy)
    ensures IsWinning(a, b) <==> IsLosing(b, a)
    ensures IsTied(a, a)
    ensures IsTied(a, b) <==> IsTied(b, a)
    ensures IsTied(a, b) <==> a == b
  {
  }

  /** The best-response table is a fixed-point-free permutation of order three. */
  lemma BeaterIsCyclicPermutation(a: Strategy, b: Strategy)
    ensures Beater(a) == Beater(b) ==> a == b
    ensures exists c :: Beater(c) == a
    ensures Beater(a) != a && Beater(Beater(a)) != a
    ensures Beater(Beater(Beater(a))) == a
  {
    assert Beater(Beater(Beater(a))) == a;
  }

  /** How many times `x` occurs in `s`. */
  function Occurrences(s: seq<Strategy>, x: Strategy): nat {
    multiset(s)[x]
  }

  /** Position of the first occurrence of `x` in `s`. */
  function FirstIndex(s: seq<Strategy>, x: Strategy): (k: nat)
    requires x in s
    ensures k < |s| && s[k] == x
    ensures forall j :: 0 <= j < k ==> s[j] != x
  {
    if s[0] == x then 0 else 1 + FirstIndex(s[1..], x)
  }

  /**
   * `m` is what Counter(s).most_common(1) reports: an element of `s` that
   * occurs at least as often as any other, and, among the elements that do,
   * the one whose first occurrence comes first.
   */
  ghost predicate IsMode(s: seq<Strategy>, m: Strategy) {
    && m in s
    && (forall x :: Occurrences(s, x) <= Occurrences(s, m))
    && (forall j :: 0 <= j < FirstIndex(s, m) ==> Occurrences(s, s[j]) < Occurrences(s, m))
  }

  /**
   * Scans `s` from position `i`, keeping in `best` the earliest position
   * whose element has the largest count so far (a later element replaces it
   * only with a strictly larger count).
   */
  function ModeIndexFrom(s: seq<Strategy>, i: nat, best: nat): (r: nat)
    requires best < i <= |s|
    requires forall j :: 0 <= j < i ==> Occurrences(s, s[j]) <= Occurrences(s, s[best])
    requires forall j :: 0 <= j < best ==> Occurrences(s, s[j]) < Occurrences(s, s[best])
    ensures r < |s|
    ensures forall j :: 0 <= j < |s| ==> Occurrences(s, s[j]) <= Occurrences(s, s[r])
    ensures forall j :: 0 <= j < r ==> Occurrences(s, s[j]) < Occurrences(s, s[r])
    decreases |s| - i
  {
    if i == |s| then best
    else if Occurrences(s, s[i]) > Occurrences(s, s[best]) then ModeIndexFrom(s, i + 1, i)
    else ModeIndexFrom(s, i + 1, best)
  }

  /** The most common strategy of a non-empty list, first-encountered on ties. */
  function Mode(s: seq<Strategy>): (m: Strategy)
    requires |s| > 0
    ensures IsMode(s, m)
  {
    var k := ModeIndexFrom(s, 1, 0);
    assert forall x :: x in s ==> exists j :: 0 <= j < |s| && s[j] == x;
    assert FirstIndex(s, s[k]) <= k;
    s[k]
  }

  /** The mode is unique: the description of most_common(1) leaves no choice. */
  lemma ModeUnique(s: seq<Strategy>, m1: Strategy, m2: Strategy)
    requires IsMode(s, m1) && IsMode(s, m2)
    ensures m1 == m2
  {
    // Each first occurrence precedes the other's unless they coincide.
    assert s[FirstIndex(s, m1)] == m1 && s[FirstIndex(s, m2)] == m2;
  }

  /**
   * optimize_choice: the strategy that beats the most common strategy of
   * `states`. The program indexes the empty result of most_common and fails
   * on an empty list; that failure is None here.
   */
  function OptimizeChoice(states: seq<Strategy>): (r: Option<Strategy>)
    ensures r.None? <==> states == []
    ensures r.Some? ==> forall m :: IsMode(states, m) ==> IsWinning(r.value, m)
    ensures r.Some? ==> r.value != Mode(states)
  {
    if states == [] then None
    else
      var m := Mode(states);
      forall m' | IsMode(states, m') ensures m' == m {
        ModeUnique(states, m, m');
      }
      Some(Beater(m))
  }

  /**
   * A strict majority decides the choice; on a tie the strategy seen first
   * is treated as the most common one.
   */
  lemma OptimizeChoiceExamples()
    ensures OptimizeChoice([Rock, Rock, Paper]) == Some(Paper)
    ensures OptimizeChoice([Rock, Paper]) == Some(Paper)
    ensures OptimizeChoice([Paper, Rock]) == Some(Scissors)
  {
    var s1 := [Rock, Rock, Paper];
    assert Occurrences(s1, Rock) == 2 && Occurrences(s1, Paper) == 1 && Occurrences(s1, Scissors) == 0;
    assert FirstIndex(s1, Rock) == 0;
    ModeUnique(s1, Rock, Mode(s1));
    var s2 := [Rock, Paper];
    assert Occurrences(s2, Rock) == 1 && Occurrences(s2, Paper) == 1 && Occurrences(s2, Scissors) == 0;
    assert FirstIndex(s2, Rock) == 0;
    ModeUnique(s2, Rock, Mode(s2));
    var s3 := [Paper, Rock];
    assert Occurrences(s3, Rock) == 1 && Occurrences(s3, Paper) == 1 && Occurrences(s3, Scissors) == 0;
    assert FirstIndex(s3, Paper) == 0;
    ModeUnique(s3, Paper, Mode(s3));
  }
}
