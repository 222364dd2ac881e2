# Rock-paper-scissors network dynamics and clustered graph builder, in Dafny

This project models the two algorithmic cores of a small network-simulation
repository and proves properties of them.

- **The rock-paper-scissors dynamics (`rps.py`).**
  - The cyclic-dominance relation (`is_winning`, `is_losing`, `is_tied`, `get_outcome`) and the best response `optimize_choice`, modelled as functions over a three-valued `Strategy`.
  - The period search `identify_convergence`, modelled as a method with its two loops, proved against a recursive specification function.
  - The simulation state: a `Network` object that holds the edge set, each node's strategy history (`states`) and each node's scratch slot (`next`).
    - `Round` is one two-phase round of `simulate`.
    - `Rewire` is the state-driven rewiring pass.
    - `OutcomeCounts` is the counting half of `save_reward_distribution`.
    - `Run` interleaves rounds with rewiring, on the schedule `step != 0 and step % (steps // rewires) == 0`, and each rewiring is followed by the convergence pass of `create_convergence_plot`.
- **The clustered stub-matching builder (`factories.py`, `ClusteredGraphBuilder`).**
  - A class with the four optional fields the setters fill in.
  - Per-distribution parameter validation.
  - The rejection loop that draws per-node degrees and shuffles the stub lists.
  - The two pop loops that pair edge stubs and group triangle stubs.
  - The per-node attribute initialisation.

A graph is a node count `n` plus a set of normalised unordered pairs, `Edge(lo, hi)` with `lo <= hi`. Self-loops are allowed, and a repeated edge collapses as it does in an undirected simple graph. Randomness is always an input:
- rewire's two `random.choice` calls become caller-supplied indices, taken modulo the list length;
- the initial strategies are a constructor argument;
- the degree samplers and `random.shuffle` are functions of the attempt number, and the shuffles are required to permute their input.

Modules (one file each): `Wrappers` (Option, Result), `Strategies`, `Convergence`, `Graphs`, `Dynamics`, `Factories`.

## Model

| member | source | states |
|---|---|---|
| Strategies.Beater | rps.py:17-21 | the best-response table sends each strategy to one that differs from it, beats it, and that it loses to |
| Strategies.IsLosing | rps.py:24-29 | a strategy loses exactly to the next one in the cycle rock, paper, scissors (rock to paper, paper to scissors, scissors to rock) |
| Strategies.IsWinning | rps.py:32-37 | a strategy beats exactly the previous one in that cycle (rock beats scissors, paper beats rock, scissors beats paper) |
| Strategies.IsTied | rps.py:40-45 | two strategies tie exactly when they are the same strategy |
| Strategies.GetOutcome | rps.py:48-56 | never None for a valid pair; Win, Tie, Lose exactly when is_winning, is_tied, is_losing holds (each an if-and-only-if) |
| Strategies.Trichotomy | rps.py:24-45 | for any two strategies exactly one of winning, tying, losing holds |
| Strategies.OutcomeSymmetry | rps.py:24-45 | a beats b iff b loses to a; tying is reflexive, symmetric, and is equality |
| Strategies.BeaterIsCyclicPermutation | rps.py:17-21 | the table is injective and onto, has no fixed point and no 2-cycle, and applied three times is the identity |
| Strategies.Mode | rps.py:16 | the result is what Counter.most_common(1) reports: in the list, occurring at least as often as any strategy, and every earlier list entry strictly less frequent |
| Strategies.ModeUnique | rps.py:16 | that description of most_common(1) admits only one strategy |
| Strategies.OptimizeChoice | rps.py:15-21 | fails (None, the IndexError) exactly on the empty list; otherwise the choice beats every most-common strategy and never equals the mode |
| Strategies.OptimizeChoiceExamples | rps.py:15-21 | [rock, rock, paper] gives paper; on a frequency tie the strategy seen first counts as the mode ([rock, paper] gives paper, [paper, rock] gives scissors) |
| Convergence.IdentifyConvergence | rps.py:59-73 | the while/for loops return exactly the recursive search result from period 2: a period, IndexOutOfRange, or NotConverged |
| Convergence.ComparePeriod | rps.py:63-68 | IndexOutOfRange exactly when the history is shorter than twice the period; otherwise whether the last `length` states repeat the `length` before them |
| Convergence.ConvergenceFromCharacterised | rps.py:59-73 | a reported period is testable, repeats, and no smaller period from the start repeats; a period is reported iff some testable period repeats; NotConverged iff every period up to 21 is testable and fails |
| Convergence.ShortestPeriod | rps.py:59-73 | the period returned is the smallest repeating period in 2..21 |
| Convergence.PeriodFound | rps.py:59-73 | any testable repeating period guarantees success with a period no larger than it |
| Convergence.ConstantHistoryHasPeriodTwo | rps.py:59-70 | a constant history of length at least 4 gives 2, never 1 |
| Convergence.RockPaperScissorsHasPeriodThree | rps.py:59-70 | rock, paper, scissors twice over gives 3 |
| Graphs.Link | rps.py:226-227 | the normalised edge between two nodes joins exactly those two nodes |
| Graphs.LinkSameEdge | factories.py:111 | an edge has no direction; two links are equal iff they join the same two nodes |
| Graphs.Neighbours | rps.py:195 | graph[n] lists exactly the adjacent nodes, ascending and without repeats, and its length is the degree |
| Graphs.NeighboursBelowCount | rps.py:195 | the neighbour list and the neighbour set have the same size |
| Dynamics.NeighbourStates | rps.py:197 | one current strategy per neighbour, in neighbour order |
| Dynamics.StagedChoice | rps.py:195-200 | an isolated node keeps its last strategy; otherwise the staged strategy beats every most-common neighbour strategy |
| Dynamics.StagedChoiceIsLocal | rps.py:194-200 | the staged strategy depends only on the node's own and its neighbours' current strategies |
| Dynamics.Network.Stage | rps.py:194-200 | the first loop fills every node's `next` with its staged choice from the previous round's strategies |
| Dynamics.Network.Commit | rps.py:202-204 | the second loop appends each node's `next` to its history and clears every `next` |
| Dynamics.RoundStates | rps.py:193-204 | one round of simulate on the histories: each history extends the old one by exactly one entry, the node's staged choice from the old strategies |
| Dynamics.Network.Round | rps.py:193-204 | every history grows by exactly one entry, the staged choice computed from the old strategies; edges are unchanged and `next` is cleared |
| Dynamics.Network.constructor | rps.py:182-183 | every node's history starts with its one initial strategy |
| Dynamics.TallyPartition | rps.py:161-163 | every neighbour lands in exactly one of the win, tie, lose buckets |
| Dynamics.CountOutcomes | rps.py:161-163 | the counting loop yields the three tallies, summing to the number of neighbours |
| Dynamics.OutcomeRowOf | rps.py:157-164 | a node's row carries its id, and win + tie + lose equals its degree |
| Dynamics.Network.OutcomeCounts | rps.py:156-164 | one row per node, equal to that node's row, with win + tie + lose equal to its current degree |
| Dynamics.WinningNeighbours | rps.py:211-215 | exactly the neighbours whose strategy beats the node's |
| Dynamics.Candidates | rps.py:220-224 | exactly the non-neighbours other than the node that it beats, or, when it beats no node of the graph, that it ties |
| Dynamics.RewireNode | rps.py:209-227 | one iteration of the node loop adds and removes only edges at that node; its full effect is stated by RewireNodeEffect |
| Dynamics.RewireNodeEffect | rps.py:211-227 | nothing changes without a beating neighbour or with an empty pool; otherwise one edge to a beating neighbour is swapped for one edge to a candidate |
| Dynamics.RewireNodeShape | rps.py:216-227 | one node's step keeps the node range, the edge count and that node's degree, and adds no self-loop |
| Dynamics.SwapKeepsShape | rps.py:226-227 | removing u-d and adding u-c keeps the node range, the edge count and u's degree |
| Dynamics.SwapNeighbours | rps.py:226-227 | the swap replaces neighbour d of u by c and changes no other neighbour of u |
| Dynamics.RewireFrom | rps.py:208-227 | the node loop from node u on adds and removes only edges with an end at node u or later |
| Dynamics.Network.Rewire | rps.py:208-227 | the node loop ends in the edge set of the recursive rewiring specification; the edge count is kept, no self-loop is added, and histories are untouched |
| Dynamics.RewireDue | rps.py:230 | fails with division by zero exactly when the step is non-zero and rewires is zero or steps // rewires is zero |
| Dynamics.RewiresBeforeCount | rps.py:230 | rewiring follows exactly the non-zero multiples of the period, so (k - 1) / period of the first k steps have it |
| Dynamics.DefaultScheduleRewiresThrice | rps.py:189-190 | with 100 steps and 4 rewires, rewiring happens exactly after steps 25, 50 and 75 |
| Dynamics.ConvergencesAt | rps.py:77-78 | entry u of the per-node answers is identify_convergence on node u's history |
| Dynamics.FirstUnconverged | rps.py:77-78 | names the first node, from the start node on, whose answer is an error, with that error, every earlier node having converged; names none iff every node converged |
| Dynamics.NodeConvergence | rps.py:78 | identify_convergence on one node's history gives that node's entry of the per-node answers |
| Dynamics.ConvergencePass | rps.py:77-78 | fails iff some node's identify_convergence raises, and then with the first such node and its error; otherwise gives one period per node, each that node's answer |
| Dynamics.StepFrom | rps.py:229-234 | the histories are one round of simulate; the division error iff the step is non-zero and rewires is zero or steps // rewires is zero; a convergence error only on a due rewiring step, naming a node whose history identify_convergence rejects; the empty-graph error iff the graph is empty and rewiring is due |
| Dynamics.Network.Step | rps.py:229-234 | one iteration of run's loop ends in exactly the edges, histories and error of StepFrom, keeping the node range and edge count and adding no self-loop |
| Dynamics.RunFrom | rps.py:229-234 | one non-empty history per node throughout; without an error every history grows by one entry per remaining step, with an error by at least one entry and at most that many |
| Dynamics.Network.Run | rps.py:229-234 | ends in exactly the edges, histories and error of the recursive run specification RunFrom: one round per step, and only on due steps a rewiring with that step's picks followed by the convergence pass, the first error stopping the run; the division error iff there are at least two steps and rewires is zero or steps // rewires is zero; a convergence error names a node whose history identify_convergence rejects; the empty-graph error only with no nodes; without error every history has grown by one entry per step, with an error by at least one entry; the node range and edge count are kept and no self-loop is added |
| Factories.ValidateDistribution | factories.py:24-47 | zipf needs `a`, uniform needs `high` and `low`, constant needs `k` and k * n divisible by the divisor (an unset n fails), any other sampler fails; each as an if-and-only-if |
| Factories.ClusteredGraphBuilder.constructor | factories.py:11-15 | all four fields start unset |
| Factories.ClusteredGraphBuilder.SetGraphSize | factories.py:17-19 | sets only the node count and returns the builder |
| Factories.ClusteredGraphBuilder.WithEdgeDegreeDistribution | factories.py:21-50 | succeeds iff validation with divisor 2 passes, then stores the sampler and returns the builder; on failure reports the problem and leaves the field unchanged |
| Factories.ClusteredGraphBuilder.WithTriangleDegreeDistribution | factories.py:52-81 | as the edge setter, with divisor 3 (see Findings) |
| Factories.ClusteredGraphBuilder.InitializeNodeAttributesUsing | factories.py:83-85 | sets only the attribute factory and returns the builder |
| Factories.ClusteredGraphBuilder.Build | factories.py:87-120 | fails iff not configured; once configured, fails with NegativeNodeCount iff the size is negative (nx.empty_graph's error); otherwise fails iff no attempt is accepted; on success the graph has exactly the configured nodes, the pair and triangle edges of the accepted attempt's stubs, stays within the nodes, and every node gets the factory's attributes |
| Factories.Stubs | factories.py:101-102 | node v appears exactly degree[v] times, nothing else appears, and the length is the degree sum |
| Factories.ShuffledStubsKeepDegrees | factories.py:101-105 | after the shuffle each node still appears exactly its drawn degree times, and only nodes appear |
| Factories.FirstAccepted | factories.py:100-108 | the first accepted attempt within the bound, and None only when every attempt is rejected |
| Factories.SampleStubs | factories.py:100-108 | the loop stops at the first accepted attempt with its shuffled stubs (even edge count, triangle count divisible by 3), or fails when none is accepted |
| Factories.ConnectStubs | factories.py:110-113 | the edges added are the pair edges plus the triangle edges of the stub lists |
| Factories.ConnectPairs | factories.py:110-111 | popping two stubs at a time adds exactly the pair edges |
| Factories.ConnectTriangles | factories.py:112-113 | popping three stubs at a time adds exactly the triangle edges |
| Factories.PairEdgesCharacterised | factories.py:110-111 | an edge is added iff it joins stubs 2j and 2j+1 for some j |
| Factories.TriangleEdgesCharacterised | factories.py:112-113 | an edge is added iff it is a side of the triangle on stubs 3j, 3j+1, 3j+2 for some j |
| Factories.PairEdgesWithin | factories.py:110-111 | pairing stubs that name nodes only joins nodes |
| Factories.TriangleEdgesWithin | factories.py:112-113 | grouping stubs that name nodes only joins nodes |
| Factories.PairingExamples | factories.py:110-113 | two stubs of one node make a self-loop; a repeated pair adds one edge; a triple adds its three sides |
| Factories.NodeAttributes | factories.py:115-118 | every node gets every key of the factory map with its value; without a factory the maps stay empty |
| Factories.SumOfConstantDraws | factories.py:101-102 | constant degree k on n nodes yields k * n stubs |
| Factories.ConstantEdgeCheckExact | factories.py:35-45 | the constant edge check accepts exactly when every attempt's edge stub count is even |
| Factories.TriangleCheckAsWrittenAdmitsUnbuildable | factories.py:72-76 | the check by 2 accepts k = 1 on 2 nodes, for which no attempt is ever accepted |
| Factories.TriangleCheckAsWrittenRefusesBuildable | factories.py:72-76 | the check by 2 refuses k = 1 on 3 nodes, for which every attempt passes the triangle test |
| Factories.ConstantTriangleCheckCorrected | factories.py:66-76 | the check by 3 accepts exactly when every attempt's triangle stub count is divisible by 3 |
| Factories.ConstantDegreesBuildFirstTime | factories.py:100-108 | constant degrees that pass both checks are accepted at the first attempt |

## Left out

- Plotting, animation and the layout (`create_degree_dist_plot`, `update`, the FuncAnimation setup, and all of `create_convergence_plot` after its first loop and the `max` over the periods): these are I/O and floating point. This includes matplotlib's own errors, such as bars of unequal length when a cycle length in between has no nodes. The CSV writing in `save_reward_distribution` is left out too; only its counting is modelled.
- `BarabasiAlbertGraphBuilder` and the `distributions` module (`zipf`, `uniform`, `constant`) are not part of this model. The network is built from any well-formed graph. A sampler is a `DistributionKind` tag with its keyword arguments; the degrees it draws are an input function of the attempt number and the node.
- Randomness:
  - `random.choice` in rewire is an index chosen by the caller, reduced modulo the list length;
  - the initial `random.choice` of strategies is the constructor's `initial` argument;
  - `random.shuffle` is any function that permutes its input.
  - Uniformity is not modelled.
- Neighbour order: networkx enumerates neighbours in insertion order; the model enumerates them in ascending node id. So on a frequency tie in `optimize_choice` the entry that `Round` appends can differ from the program's, and a given pick index can name a different neighbour. The rest does not depend on the order: the staged choice beats a most-common neighbour strategy, the history lengths, the effect and shape of rewiring, and the outcome counts.
- Strings and `.lower()`: strategies are an enumeration, so case folding, unknown strings and the `None` branch of `get_outcome` do not arise. The empty string `""` in `next` is `None`.
- Factories.ClusteredGraphBuilder.Build: the source's rejection loop is unbounded; the model makes at most `maxAttempts` attempts and reports `RetriesExhausted` otherwise.
- Factories.Stubs: degrees are natural numbers. A negative draw, which `repeat` would treat as zero, is not modelled; the samplers draw non-negative degrees.
- Factories.NodeAttributes: each attribute is the value its factory produces. The per-node factory call, with fresh objects per node and no aliasing between nodes, is not modelled.
- The driver: `__main__`, the generator plumbing of `run`/`simulate` and the module-global graph become the explicit `Network` object. `Run` has the per-step rewire picks as input; of the convergence plot it keeps the per-node periods only as the pass's result, since the program stores them only to draw the plot.
- The model follows the code:
  - `identify_convergence` tests the periods 2 to 21 inclusive (`length <= 21`).
  - rewire's first-choice pool is the nodes the node beats (falling back to ties only when it beats no node at all).
  - rewire removes the edge to the beating neighbour only when the candidate pool is non-empty.

## Findings

| source | as written | input that shows it | evidently intended | confidence | as-written member | corrected member |
|---|---|---|---|---|---|---|
| factories.py:72-76 | the constant triangle-degree check rejects when `k * num_nodes % 2 != 0` | constant k = 1 on 2 nodes passes the check, yet every attempt has 2 triangle stubs, so the unbounded rejection loop never ends; k = 1 on 3 nodes is refused, although it always builds | the test is `% 3`, as the error message ("divisible by three") states | not executed | Factories.TriangleCheckAsWrittenAdmitsUnbuildable, Factories.TriangleCheckAsWrittenRefusesBuildable | Factories.ConstantTriangleCheckCorrected, Factories.ClusteredGraphBuilder.WithTriangleDegreeDistribution |
