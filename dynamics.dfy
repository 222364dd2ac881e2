/**
 * The rock-paper-scissors dynamics over a graph (rps.py): the synchronous
 * two-phase round of `simulate`, the state-driven `rewire`, the per-node
 * win/tie/lose counts of `save_reward_distribution`, and the schedule on
 * which rounds are followed by a rewiring and the convergence pass of
 * `create_convergence_plot`.
 *
 * The graph the program keeps in a module-global is explicit state here:
 * a Network object holding the edge set and, per node, the strategy
 * history (`states`) and the scratch slot (`next`, None standing for the
 * empty string). Random choices are indices supplied by the caller.
 */
module Dynamics {
  import opened Wrappers
  import opened Strategies
  import opened Graphs
  import opened Convergence

  function Last(h: seq<Strategy>): Strategy
    requires |h| > 0
  {
    h[|h| - 1]
  }

  /** One non-empty history per node. */
  predicate Histories(n: nat, states: seq<seq<Strategy>>) {
    |states| == n && forall u :: 0 <= u < n ==> |states[u]| > 0
  }

  /** Every history in `after` is the one in `before` with `k` more entries appended. */
  ghost predicate Extends(before: seq<seq<Strategy>>, after: seq<seq<Strategy>>, k: nat) {
    && |after| == |before|
    && forall u :: 0 <= u < |before| ==>
         |after[u]| == |before[u]| + k && after[u][..|before[u]|] == before[u]
  }

  lemma ExtendsStep(a: seq<seq<Strategy>>, b: seq<seq<Strategy>>, c: seq<seq<Strategy>>, k: nat)
    requires Extends(a, b, k) && Extends(b, c, 1)
    ensures Extends(a, c, k + 1)
  {
    forall u | 0 <= u < |a|
      ensures |c[u]| == |a[u]| + k + 1 && c[u][..|a[u]|] == a[u]
    {
      assert c[u][..|a[u]|] == c[u][..|b[u]|][..|a[u]|];
    }
  }

  /** Every node's current strategy, states[-1]. */
  function LastStates(states: seq<seq<Strategy>>): (cur: seq<Strategy>)
    requires forall u :: 0 <= u < |states| ==> |states[u]| > 0
    ensures |cur| == |states|
    ensures forall u :: 0 <= u < |states| ==> cur[u] == Last(states[u])
  {
    seq(|states|, u requires 0 <= u < |states| => Last(states[u]))
  }

  /** The current strategies of u's neighbours, in neighbour order. */
  function NeighbourStates(n: nat, edges: set<Edge>, cur: seq<Strategy>, u: nat): (r: seq<Strategy>)
    requires |cur| == n
    ensures |r| == Degree(n, edges, u)
    ensures forall i :: 0 <= i < |r| ==> r[i] == cur[Neighbours(n, edges, u)[i]]
  {
    var neigh := Neighbours(n, edges, u);
    seq(|neigh|, i requires 0 <= i < |neigh| => cur[neigh[i]])
  }

  /**
   * The strategy `simulate` stages for node u: the one beating the most
   * common current strategy among its neighbours, or its own current
   * strategy when it has none.
   */
  function StagedChoice(n: nat, edges: set<Edge>, cur: seq<Strategy>, u: nat): (c: Strategy)
    requires |cur| == n && u < n
    ensures Degree(n, edges, u) == 0 ==> c == cur[u]
    ensures Degree(n, edges, u) > 0 ==>
      forall m :: IsMode(NeighbourStates(n, edges, cur, u), m) ==> IsWinning(c, m)
  {
    var ns := NeighbourStates(n, edges, cur, u);
    if ns == [] then cur[u] else OptimizeChoice(ns).value
  }

  /**
   * The staged strategy of u reads nothing but the current strategies of u
   * and of its neighbours.
   */
  lemma StagedChoiceIsLocal(n: nat, edges: set<Edge>, cur1: seq<Strategy>, cur2: seq<Strategy>, u: nat)
    requires |cur1| == n && |cur2| == n && u < n
    requires cur1[u] == cur2[u]
    requires forall v :: 0 <= v < n && Adjacent(edges, u, v) ==> cur1[v] == cur2[v]
    ensures StagedChoice(n, edges, cur1, u) == StagedChoice(n, edges, cur2, u)
  {
    var neigh := Neighbours(n, edges, u);
    assert forall i :: 0 <= i < |neigh| ==> neigh[i] in neigh;
    assert NeighbourStates(n, edges, cur1, u) == NeighbourStates(n, edges, cur2, u);
  }

  /** A count of the outcomes one strategy scores against a list of others. */
  function Tally(me: Strategy, others: seq<Strategy>, o: Outcome): nat {
    if others == [] then 0
    else Tally(me, others[..|others| - 1], o) + (if GetOutcome(me, others[|others| - 1]) == Some(o) then 1 else 0)
  }

  /** Every neighbour lands in exactly one of the three buckets. */
  lemma {:induction false} TallyPartition(me: Strategy, others: seq<Strategy>)
    ensures Tally(me, others, Win) + Tally(me, others, Tie) + Tally(me, others, Lose) == |others|
  {
    if others != [] {
      TallyPartition(me, others[..|others| - 1]);
    }
  }

  /** One row of save_reward_distribution. */
  datatype OutcomeRow = OutcomeRow(id: nat, win: nat, tie: nat, lose: nat)

  /** The row save_reward_distribution writes for node u. */
  function OutcomeRowOf(n: nat, edges: set<Edge>, cur: seq<Strategy>, u: nat): (row: OutcomeRow)
    requires |cur| == n && u < n
    ensures row.id == u
    ensures row.win + row.tie + row.lose == Degree(n, edges, u)
  {
    var ns := NeighbourStates(n, edges, cur, u);
    TallyPartition(cur[u], ns);
    OutcomeRow(u, Tally(cur[u], ns, Win), Tally(cur[u], ns, Tie), Tally(cur[u], ns, Lose))
  }

  /** The inner loop of save_reward_distribution: one bucket per neighbour state. */
  method CountOutcomes(me: Strategy, others: seq<Strategy>) returns (win: nat, tie: nat, lose: nat)
    ensures win == Tally(me, others, Win) && tie == Tally(me, others, Tie) && lose == Tally(me, others, Lose)
    ensures win + tie + lose == |others|
  {
    win, tie, lose := 0, 0, 0;
    for i := 0 to |others|
      invariant win == Tally(me, others[..i], Win)
      invariant tie == Tally(me, others[..i], Tie)
      invariant lose == Tally(me, others[..i], Lose)
    {
      assert others[..i + 1][..i] == others[..i];
      match GetOutcome(me, others[i]) {
        case Some(Win) => win := win + 1;
        case Some(Tie) => tie := tie + 1;
        case Some(Lose) => lose := lose + 1;
      }
    }
    assert others[..|others|] == others;
    TallyPartition(me, others);
  }

  /** Which random choices rewire makes for one node: indices into its two lists. */
  datatype RewirePick = RewirePick(drop: nat, add: nat)

  /** The elements of `s` that satisfy `p`, in order. */
  function Filter(s: seq<nat>, p: nat -> bool): (r: seq<nat>)
    ensures forall x :: x in r <==> x in s && p(x)
    ensures |r| <= |s|
  {
    if s == [] then []
    else Filter(s[..|s| - 1], p) + (if p(s[|s| - 1]) then [s[|s| - 1]] else [])
  }

  /** The nodes 0..k-1 that satisfy `p`, ascending. */
  function NodesWhere(k: nat, p: nat -> bool): (r: seq<nat>)
    ensures forall x: nat :: x in r <==> x < k && p(x)
  {
    if k == 0 then [] else NodesWhere(k - 1, p) + (if p(k - 1) then [k - 1] else [])
  }

  /** winning_neighbors: the neighbours of u whose strategy beats u's. */
  function WinningNeighbours(n: nat, edges: set<Edge>, cur: seq<Strategy>, u: nat): (r: seq<nat>)
    requires |cur| == n && u < n
    ensures forall v: nat :: v in r <==> v < n && Adjacent(edges, u, v) && IsLosing(cur[u], cur[v])
  {
    Filter(Neighbours(n, edges, u), (v: nat) => v < |cur| && IsLosing(cur[u], cur[v]))
  }

  /** Some node of the graph is beaten by u's strategy. */
  predicate AnyBeatable(n: nat, cur: seq<Strategy>, u: nat)
    requires |cur| == n && u < n
  {
    exists v :: 0 <= v < n && IsWinning(cur[u], cur[v])
  }

  /**
   * possible_new_neighbors, ascending: the nodes u beats (or, when u beats
   * no node at all, the nodes it ties with), less u and its neighbours.
   */
  function Candidates(n: nat, edges: set<Edge>, cur: seq<Strategy>, u: nat): (r: seq<nat>)
    requires |cur| == n && u < n
    ensures forall v: nat :: v in r <==>
      && v < n && v != u && !Adjacent(edges, u, v)
      && (if AnyBeatable(n, cur, u) then IsWinning(cur[u], cur[v]) else IsTied(cur[u], cur[v]))
  {
    var beats := AnyBeatable(n, cur, u);
    NodesWhere(n, (v: nat) => v < |cur| && v != u && !Adjacent(edges, u, v)
                       && (if beats then IsWinning(cur[u], cur[v]) else IsTied(cur[u], cur[v])))
  }

  /** One iteration of rewire's node loop: the edge set after node u is handled. */
  function RewireNode(n: nat, edges: set<Edge>, cur: seq<Strategy>, u: nat, pick: RewirePick): (r: set<Edge>)
    requires |cur| == n && u < n
    ensures forall e :: e in r && e !in edges ==> e.lo == u || e.hi == u
    ensures forall e :: e in edges && e !in r ==> e.lo == u || e.hi == u
  {
    var winning := WinningNeighbours(n, edges, cur, u);
    if winning == [] then edges
    else
      var disconnectFrom := winning[pick.drop % |winning|];
      var pool := Candidates(n, edges, cur, u);
      if pool == [] then edges
      else edges - {Link(u, disconnectFrom)} + {Link(u, pool[pick.add % |pool|])}
  }

  /** The rewire loop over the nodes u..n-1. */
  function RewireFrom(n: nat, edges: set<Edge>, cur: seq<Strategy>, picks: seq<RewirePick>, u: nat): (r: set<Edge>)
    requires |cur| == n && |picks| == n && u <= n
    ensures forall e :: e in r && e !in edges ==> e.lo >= u || e.hi >= u
    ensures forall e :: e in edges && e !in r ==> e.lo >= u || e.hi >= u
    decreases n - u
  {
    if u == n then edges
    else RewireFrom(n, RewireNode(n, edges, cur, u, picks[u]), cur, picks, u + 1)
  }

  /**
   * `after` stays among the n nodes, has as many edges as `before`, and
   * has no self-loop that `before` lacks.
   */
  ghost predicate KeepsShape(n: nat, before: set<Edge>, after: set<Edge>) {
    && WellFormed(n, after)
    && |after| == |before|
    && forall e :: e in after && e.lo == e.hi ==> e in before
  }

  lemma KeepsShapeTransitive(n: nat, a: set<Edge>, b: set<Edge>, c: set<Edge>)
    requires KeepsShape(n, a, b) && KeepsShape(n, b, c)
    ensures KeepsShape(n, a, c)
  {
  }

  /**
   * One node's rewiring keeps the node range, the number of edges and that
   * node's degree, and adds no self-loop.
   */
  lemma RewireNodeShape(n: nat, edges: set<Edge>, cur: seq<Strategy>, u: nat, pick: RewirePick)
    requires WellFormed(n, edges) && |cur| == n && u < n
    ensures KeepsShape(n, edges, RewireNode(n, edges, cur, u, pick))
    ensures Degree(n, RewireNode(n, edges, cur, u, pick), u) == Degree(n, edges, u)
  {
    var winning := WinningNeighbours(n, edges, cur, u);
    var pool := Candidates(n, edges, cur, u);
    if winning != [] && pool != [] {
      var d := winning[pick.drop % |winning|];
      var c := pool[pick.add % |pool|];
      assert d in winning && c in pool;
      SwapKeepsShape(n, edges, u, d, c);
    }
  }

  /**
   * What one node's rewiring does: nothing unless a neighbour beats it and
   * the candidate pool is non-empty; otherwise exactly one edge to a
   * beating neighbour is swapped for one edge to a candidate.
   */
  lemma RewireNodeEffect(n: nat, edges: set<Edge>, cur: seq<Strategy>, u: nat, pick: RewirePick)
    requires |cur| == n && u < n
    ensures WinningNeighbours(n, edges, cur, u) == [] ==> RewireNode(n, edges, cur, u, pick) == edges
    ensures Candidates(n, edges, cur, u) == [] ==> RewireNode(n, edges, cur, u, pick) == edges
    ensures WinningNeighbours(n, edges, cur, u) != [] && Candidates(n, edges, cur, u) != [] ==>
      exists d, c :: SwapsEdge(n, edges, cur, u, d, c, RewireNode(n, edges, cur, u, pick))
  {
    var winning := WinningNeighbours(n, edges, cur, u);
    var pool := Candidates(n, edges, cur, u);
    if winning != [] && pool != [] {
      var d := winning[pick.drop % |winning|];
      var c := pool[pick.add % |pool|];
      assert d in winning && c in pool;
      assert SwapsEdge(n, edges, cur, u, d, c, RewireNode(n, edges, cur, u, pick));
    }
  }

  /**
   * `after` is `edges` with the edge from u to d, a neighbour beating u,
   * replaced by an edge from u to c, a candidate.
   */
  ghost predicate SwapsEdge(n: nat, edges: set<Edge>, cur: seq<Strategy>, u: nat, d: nat, c: nat, after: set<Edge>)
    requires |cur| == n && u < n
  {
    && d < n && Adjacent(edges, u, d) && IsLosing(cur[u], cur[d])
    && c in Candidates(n, edges, cur, u)
    && after == edges - {Link(u, d)} + {Link(u, c)}
  }

  /** Swapping an edge u-d for a new edge u-c keeps the counts and the node range. */
  lemma SwapKeepsShape(n: nat, edges: set<Edge>, u: nat, d: nat, c: nat)
    requires WellFormed(n, edges) && u < n && d < n && c < n
    requires Adjacent(edges, u, d) && !Adjacent(edges, u, c) && c != u
    ensures var after := edges - {Link(u, d)} + {Link(u, c)};
      && WellFormed(n, after)
      && |after| == |edges|
      && NeighbourSet(n, after, u) == NeighbourSet(n, edges, u) - {d} + {c}
      && Degree(n, after, u) == Degree(n, edges, u)
  {
    var after := edges - {Link(u, d)} + {Link(u, c)};
    assert Link(u, d) != Link(u, c);
    SwapNeighbours(n, edges, u, d, c);
    var before := NeighbourSet(n, edges, u);
    assert d in before && c !in before;
  }

  /** The swap moves u's neighbour d out and c in, and touches no other neighbour of u. */
  lemma SwapNeighbours(n: nat, edges: set<Edge>, u: nat, d: nat, c: nat)
    requires u < n && d < n && c < n && c != d
    ensures NeighbourSet(n, edges - {Link(u, d)} + {Link(u, c)}, u) == NeighbourSet(n, edges, u) - {d} + {c}
  {
    var after := edges - {Link(u, d)} + {Link(u, c)};
    forall v: nat ensures v in NeighbourSet(n, after, u) <==> v in NeighbourSet(n, edges, u) - {d} + {c} {
      LinkSameEdge(u, v, u, d);
      LinkSameEdge(u, v, u, c);
    }
  }

  datatype ScheduleError = ZeroDivision

  /**
   * The test `step != 0 and step % (steps // rewires) == 0`. The first
   * conjunct short-circuits, so the division by zero that a zero rewire
   * count or a zero period causes is reached only on a non-zero step.
   */
  function RewireDue(step: nat, steps: nat, rewires: nat): (r: Result<bool, ScheduleError>)
    ensures r.Failure? <==> step != 0 && (rewires == 0 || steps / rewires == 0)
  {
    if step == 0 then Success(false)
    else if rewires == 0 || steps / rewires == 0 then Failure(ZeroDivision)
    else Success(step % (steps / rewires) == 0)
  }

  /** How many of the steps 0..k-1 are followed by a rewiring. */
  function RewiresBefore(k: nat, steps: nat, rewires: nat): nat
    requires 0 < rewires <= steps
  {
    if k == 0 then 0
    else RewiresBefore(k - 1, steps, rewires) + (if RewireDue(k - 1, steps, rewires) == Success(true) then 1 else 0)
  }

  /**
   * With period p = steps / rewires, rewiring follows exactly the non-zero
   * multiples of p, so (k - 1) / p of the first k steps (k > 0) have it.
   */
  lemma {:induction false} RewiresBeforeCount(k: nat, steps: nat, rewires: nat)
    requires 0 < rewires <= steps && 0 < k
    ensures RewiresBefore(k, steps, rewires) == (k - 1) / (steps / rewires)
  {
    var p := steps / rewires;
    assert p > 0 by {
      DivisionLowerBound(steps, rewires);
    }
    if k > 1 {
      RewiresBeforeCount(k - 1, steps, rewires);
      StepQuotient(k - 1, p);
    }
  }

  lemma DivisionLowerBound(a: nat, b: nat)
    requires 0 < b <= a
    ensures a / b >= 1
  {
  }

  /** Going from k-1 to k, the quotient by p rises by one exactly at multiples of p. */
  lemma StepQuotient(k: nat, p: nat)
    requires 0 < k && 0 < p
    ensures k / p == (k - 1) / p + (if k % p == 0 then 1 else 0)
  {
    var q, r := (k - 1) / p, (k - 1) % p;
    assert k - 1 == q * p + r && 0 <= r < p;
    if r + 1 < p {
      DivMod(k, p, q, r + 1);
    } else {
      assert k == (q + 1) * p;
      DivMod(k, p, q + 1, 0);
    }
  }

  /** Quotient and remainder are determined by k == q * p + r with 0 <= r < p. */
  lemma DivMod(k: nat, p: nat, q: nat, r: nat)
    requires 0 < p && 0 <= r < p && k == q * p + r
    ensures k / p == q && k % p == r
  {
    var q', r' := k / p, k % p;
    assert k == q' * p + r';
    MulMonotone(q' + 1, q, p);
    MulMonotone(q + 1, q', p);
  }

  lemma MulMonotone(a: nat, b: nat, p: nat)
    ensures a <= b ==> a * p <= b * p
    ensures (a + 1) * p == a * p + p
  {
  }

  /** With 100 steps and 4 rewires, as the program runs, rewiring happens three times. */
  lemma DefaultScheduleRewiresThrice()
    ensures RewiresBefore(100, 100, 4) == 3
    ensures forall s :: 0 <= s < 100 ==> (RewireDue(s, 100, 4) == Success(true) <==> s in {25, 50, 75})
  {
    RewiresBeforeCount(100, 100, 4);
  }

  /** The histories after one round of simulate: each gains its staged choice. */
  function RoundStates(n: nat, edges: set<Edge>, states: seq<seq<Strategy>>): (r: seq<seq<Strategy>>)
    requires Histories(n, states)
    ensures Histories(n, r)
    ensures forall u :: 0 <= u < n ==> r[u] == states[u] + [StagedChoice(n, edges, LastStates(states), u)]
    ensures Extends(states, r, 1)
  {
    seq(n, u requires 0 <= u < n => states[u] + [StagedChoice(n, edges, LastStates(states), u)])
  }

  /** Why a run stops before its last step. */
  datatype RunError =
    | Schedule(problem: ScheduleError)                   // steps // rewires is zero
    | NoConvergence(node: nat, error: ConvergenceError)  // identify_convergence raised for this node
    | NoNodes                                            // the plot's max() over an empty graph's periods

  /** identify_convergence's answer for every history, in node order. */
  function Convergences(histories: seq<seq<Strategy>>): (r: seq<Result<nat, ConvergenceError>>)
    ensures |r| == |histories|
  {
    if |histories| == 0 then []
    else [ConvergenceFrom(histories[0], 2)] + Convergences(histories[1..])
  }

  /** Entry u of Convergences is identify_convergence on node u's history. */
  lemma {:induction false} ConvergencesAt(histories: seq<seq<Strategy>>, u: nat)
    requires u < |histories|
    ensures Convergences(histories)[u] == ConvergenceFrom(histories[u], 2)
  {
    if u > 0 {
      ConvergencesAt(histories[1..], u - 1);
    }
  }

  /**
   * The first node, from u on, whose identify_convergence answer is an
   * error, as the convergence pass of create_convergence_plot meets it.
   */
  function FirstUnconverged(results: seq<Result<nat, ConvergenceError>>, u: nat): (r: Option<RunError>)
    requires u <= |results|
    ensures r.Some? ==>
      && r.value.NoConvergence? && u <= r.value.node < |results|
      && results[r.value.node] == Failure(r.value.error)
      && forall v :: u <= v < r.value.node ==> results[v].Success?
    ensures r.None? <==> forall v :: u <= v < |results| ==> results[v].Success?
    decreases |results| - u
  {
    if u == |results| then None
    else if results[u].Failure? then Some(NoConvergence(u, results[u].error))
    else FirstUnconverged(results, u + 1)
  }

  /**
   * One step of run: a round of simulate and then, when the schedule says
   * so, a rewiring pass over the new strategies with the given picks and
   * the convergence pass. Returns the edges, the histories and the error
   * that stops the run, if any.
   */
  function StepFrom(n: nat, edges: set<Edge>, states: seq<seq<Strategy>>, pick: seq<RewirePick>,
                    s: nat, steps: nat, rewires: nat): (r: (set<Edge>, seq<seq<Strategy>>, Option<RunError>))
    requires Histories(n, states) && |pick| == n
    ensures r.1 == RoundStates(n, edges, states)
    ensures r.2 == Some(Schedule(ZeroDivision)) <==> s != 0 && (rewires == 0 || steps / rewires == 0)
    ensures r.2.Some? && r.2.value.NoConvergence? ==>
      && s != 0 && !(rewires == 0 || steps / rewires == 0)
      && r.2.value.node < n && ConvergenceFrom(r.1[r.2.value.node], 2) == Failure(r.2.value.error)
    ensures r.2 == Some(NoNodes) <==> n == 0 && RewireDue(s, steps, rewires) == Success(true)
  {
    var after := RoundStates(n, edges, states);
    var due := RewireDue(s, steps, rewires);
    if due.Failure? then (edges, after, Some(Schedule(due.error)))
    else if !due.value then (edges, after, None)
    else
      var check := FirstUnconverged(Convergences(after), 0);
      if check.Some? then
        ConvergencesAt(after, check.value.node);
        (RewireFrom(n, edges, LastStates(after), pick, 0), after, check)
      else (RewireFrom(n, edges, LastStates(after), pick, 0), after, if n == 0 then Some(NoNodes) else None)
  }

  /** run, from step s on: its steps until the first error. */
  function RunFrom(n: nat, edges: set<Edge>, states: seq<seq<Strategy>>, picks: seq<seq<RewirePick>>,
                   s: nat, steps: nat, rewires: nat): (r: (set<Edge>, seq<seq<Strategy>>, Option<RunError>))
    requires Histories(n, states) && s <= steps && |picks| == steps
    requires forall t :: 0 <= t < steps ==> |picks[t]| == n
    ensures Histories(n, r.1)
    ensures r.2.None? ==> forall u :: 0 <= u < n ==> |r.1[u]| == |states[u]| + (steps - s)
    ensures r.2.Some? ==> forall u :: 0 <= u < n ==> |states[u]| < |r.1[u]| <= |states[u]| + (steps - s)
    decreases steps - s
  {
    if s == steps then (edges, states, None)
    else
      var step := StepFrom(n, edges, states, picks[s], s, steps, rewires);
      if step.2.Some? then step
      else RunFrom(n, step.0, step.1, picks, s + 1, steps, rewires)
  }

  /** identify_convergence on node u's history. */
  method NodeConvergence(histories: seq<seq<Strategy>>, u: nat) returns (r: Result<nat, ConvergenceError>)
    requires u < |histories|
    ensures r == Convergences(histories)[u]
  {
    r := IdentifyConvergence(histories[u]);
    ConvergencesAt(histories, u);
  }

  /**
   * The first loop of create_convergence_plot: identify_convergence on
   * every node's history in node order, stopping at the first that raises.
   */
  method ConvergencePass(histories: seq<seq<Strategy>>) returns (r: Result<seq<nat>, RunError>)
    ensures r.Failure? <==> FirstUnconverged(Convergences(histories), 0).Some?
    ensures r.Failure? ==> Some(r.error) == FirstUnconverged(Convergences(histories), 0)
    ensures r.Success? ==> |r.value| == |histories|
    ensures r.Success? ==> forall u :: 0 <= u < |histories| ==> Convergences(histories)[u] == Success(r.value[u])
  {
    ghost var results := Convergences(histories);
    var periods := [];
    for u := 0 to |histories|
      invariant |periods| == u
      invariant forall v :: 0 <= v < u ==> results[v] == Success(periods[v])
      invariant FirstUnconverged(results, u) == FirstUnconverged(results, 0)
    {
      var period := NodeConvergence(histories, u);
      if period.Failure? {
        assert FirstUnconverged(results, u) == Some(NoConvergence(u, period.error));
        return Failure(NoConvergence(u, period.error));
      }
      assert FirstUnconverged(results, u) == FirstUnconverged(results, u + 1);
      periods := periods + [period.value];
    }
    r := Success(periods);
  }

  class Network {
    const n: nat
    var edges: set<Edge>
    var states: seq<seq<Strategy>>
    var next: seq<Option<Strategy>>

    /** Between rounds every node has a history and an empty scratch slot. */
    ghost predicate Valid()
      reads this
    {
      && WellFormed(n, edges)
      && Histories(n, states)
      && |next| == n
      && forall u :: 0 <= u < n ==> next[u] == None
    }

    /** The current strategy of every node. */
    function Current(): (cur: seq<Strategy>)
      reads this
      requires Valid()
      ensures |cur| == n
    {
      LastStates(states)
    }

    /**
     * A graph whose nodes carry the attributes {"states": list, "next": str},
     * each node's history seeded with one strategy drawn at random.
     */
    constructor (g: Graph, initial: seq<Strategy>)
      requires WellFormed(g.n, g.edges) && |initial| == g.n
      ensures Valid() && n == g.n && edges == g.edges
      ensures forall u :: 0 <= u < n ==> states[u] == [initial[u]]
    {
      n := g.n;
      edges := g.edges;
      states := seq(g.n, u requires 0 <= u < g.n => [initial[u]]);
      next := seq(g.n, u => None);
    }

    /**
     * One round of simulate: every node first stages its choice from the
     * strategies of the previous round, then every node appends its staged
     * choice to its history and clears the slot.
     */
    method Round()
      requires Valid()
      modifies this
      ensures Valid() && edges == old(edges)
      ensures forall u :: 0 <= u < n ==>
        states[u] == old(states[u]) + [StagedChoice(n, edges, old(Current()), u)]
      ensures Extends(old(states), states, 1)
      ensures states == RoundStates(n, edges, old(states))
    {
      Stage();
      Commit();
      assert forall u :: 0 <= u < n ==> states[u][..|old(states[u])|] == old(states[u]);
    }

    /** The first loop of a round: every node's `next` slot gets its staged choice. */
    method Stage()
      requires Valid()
      modifies this`next
      ensures Histories(n, states) && WellFormed(n, edges) && |next| == n
      ensures forall v :: 0 <= v < n ==> next[v] == Some(StagedChoice(n, edges, LastStates(states), v))
    {
      ghost var cur := Current();
      for u := 0 to n
        invariant |next| == n
        invariant forall v :: 0 <= v < u ==> next[v] == Some(StagedChoice(n, edges, cur, v))
      {
        var neigh := NeighbourStates(n, edges, LastStates(states), u);
        var choice := if neigh != [] then OptimizeChoice(neigh) else Some(Last(states[u]));
        assert choice == Some(StagedChoice(n, edges, cur, u));
        next := next[u := choice];
      }
    }

    /** The second loop of a round: every node appends its staged choice and clears the slot. */
    method Commit()
      requires Histories(n, states) && WellFormed(n, edges) && |next| == n
      requires forall v :: 0 <= v < n ==> next[v].Some?
      modifies this`states, this`next
      ensures Valid()
      ensures forall v :: 0 <= v < n ==> states[v] == old(states[v]) + [old(next[v]).value]
    {
      for u := 0 to n
        invariant |states| == n && |next| == n
        invariant forall v :: 0 <= v < u ==> states[v] == old(states[v]) + [old(next[v]).value] && next[v] == None
        invariant forall v :: u <= v < n ==> states[v] == old(states[v]) && next[v] == old(next[v])
      {
        states := states[u := states[u] + [next[u].value]];
        next := next[u := None];
      }
    }

    /**
     * rewire: each node in turn, while a neighbour beats it, drops the edge
     * to one such neighbour and links to one candidate, if there is one.
     * Histories are not touched.
     */
    method Rewire(picks: seq<RewirePick>)
      requires Valid() && |picks| == n
      modifies this`edges
      ensures Valid() && states == old(states)
      ensures edges == RewireFrom(n, old(edges), Current(), picks, 0)
      ensures |edges| == |old(edges)|
      ensures forall e :: e in edges && e.lo == e.hi ==> e in old(edges)
    {
      var cur := Current();
      for u := 0 to n
        invariant KeepsShape(n, old(edges), edges)
        invariant RewireFrom(n, edges, cur, picks, u) == RewireFrom(n, old(edges), cur, picks, 0)
      {
        var winning := WinningNeighbours(n, edges, cur, u);
        if winning != [] {
          var disconnectFrom := winning[picks[u].drop % |winning|];
          var pool := Candidates(n, edges, cur, u);
          if pool != [] {
            ghost var before := edges;
            RewireNodeShape(n, edges, cur, u, picks[u]);
            edges := edges - {Link(u, disconnectFrom)};
            edges := edges + {Link(u, pool[picks[u].add % |pool|])};
            KeepsShapeTransitive(n, old(edges), before, edges);
          }
        }
      }
    }

    /** The counting half of save_reward_distribution: one row per node. */
    method OutcomeCounts() returns (rows: seq<OutcomeRow>)
      requires Valid()
      ensures |rows| == n
      ensures forall u :: 0 <= u < n ==> rows[u] == OutcomeRowOf(n, edges, Current(), u)
      ensures forall u :: 0 <= u < n ==>
        rows[u].id == u && rows[u].win + rows[u].tie + rows[u].lose == Degree(n, edges, u)
    {
      var cur := Current();
      rows := [];
      for u := 0 to n
        invariant |rows| == u
        invariant forall v :: 0 <= v < u ==> rows[v] == OutcomeRowOf(n, edges, cur, v)
      {
        var win, tie, lose := CountOutcomes(cur[u], NeighbourStates(n, edges, cur, u));
        rows := rows + [OutcomeRow(u, win, tie, lose)];
      }
    }

    /** One step of run's loop: the round, then the due rewiring and convergence pass. */
    method Step(s: nat, steps: nat, rewires: nat, pick: seq<RewirePick>) returns (err: Option<RunError>)
      requires Valid() && |pick| == n
      modifies this
      ensures Valid()
      ensures (edges, states, err) == StepFrom(n, old(edges), old(states), pick, s, steps, rewires)
      ensures KeepsShape(n, old(edges), edges)
    {
      Round();
      ghost var after := states;
      var due := RewireDue(s, steps, rewires);
      if due.Failure? {
        return Some(Schedule(due.error));
      }
      if due.value {
        Rewire(pick);
        assert states == after;
        var periods := ConvergencePass(states);
        if periods.Failure? {
          return Some(periods.error);
        }
        if n == 0 {
          return Some(NoNodes);
        }
      }
      err := None;
    }

    /**
     * run: `steps` steps, each a round of simulate followed, when the
     * schedule says so, by a rewiring pass with that step's picks and the
     * convergence pass. The first error stops the run.
     */
    method Run(steps: nat, rewires: nat, picks: seq<seq<RewirePick>>) returns (err: Option<RunError>)
      requires Valid() && |picks| == steps
      requires forall s :: 0 <= s < steps ==> |picks[s]| == n
      modifies this
      ensures Valid()
      ensures (edges, states, err) == RunFrom(n, old(edges), old(states), picks, 0, steps, rewires)
      ensures err == Some(Schedule(ZeroDivision)) <==> 2 <= steps && (rewires == 0 || steps / rewires == 0)
      ensures err.Some? && err.value.NoConvergence? ==>
        err.value.node < n && ConvergenceFrom(states[err.value.node], 2) == Failure(err.value.error)
      ensures err == Some(NoNodes) ==> n == 0 && 2 <= steps
      ensures err.None? ==> Extends(old(states), states, steps)
      ensures err.Some? ==> exists k :: 1 <= k <= steps && Extends(old(states), states, k)
      ensures KeepsShape(n, old(edges), edges)
    {
      for s := 0 to steps
        invariant Valid()
        invariant RunFrom(n, edges, states, picks, s, steps, rewires)
               == RunFrom(n, old(edges), old(states), picks, 0, steps, rewires)
        invariant s >= 2 ==> !(rewires == 0 || steps / rewires == 0)
        invariant Extends(old(states), states, s)
        invariant KeepsShape(n, old(edges), edges)
      {
        ghost var before := states;
        ghost var beforeEdges := edges;
        err := Step(s, steps, rewires, picks[s]);
        ExtendsStep(old(states), before, states, s);
        KeepsShapeTransitive(n, old(edges), beforeEdges, edges);
        if err.Some? {
          assert RunFrom(n, beforeEdges, before, picks, s, steps, rewires) == (edges, states, err);
          assert Extends(old(states), states, s + 1);
          return;
        }
        assert RunFrom(n, beforeEdges, before, picks, s, steps, rewires)
            == RunFrom(n, edges, states, picks, s + 1, steps, rewires);
      }
      err := None;
    }
  }
}
