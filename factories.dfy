/**
 * The clustered stub-matching graph builder (factories.py,
 * ClusteredGraphBuilder): a configuration-model generator that draws, per
 * node, a pairwise-edge degree and a triangle degree, turns them into stub
 * lists, and pairs the edge stubs two at a time and the triangle stubs
 * three at a time.
 *
 * The degree samplers and random.shuffle are not part of this model: build
 * receives them as functions of the attempt number, and the shuffles are
 * only required to permute their input.
 */
module Factories {
  import opened Wrappers
  import opened Graphs

  /** The samplers the setters recognise; any other callable is refused. */
  datatype DistributionKind = Zipf | Uniform | Constant | OtherDistribution

  /** A sampler together with the keyword arguments bound to it. */
  datatype Distribution = Distribution(kind: DistributionKind, params: map<string, int>)

  datatype ParameterProblem =
    | ZipfNeedsA
    | UniformNeedsBounds
    | ConstantNeedsK
    | ConstantNotDivisible
    | UnknownDistribution

  datatype BuildError =
    | ParameterError(problem: ParameterProblem)  // raised by a distribution setter
    | NodeCountUnset                             // `k * None`: constant set before the graph size
    | ConfigurationError                         // build called before size and both distributions are set
    | NegativeNodeCount                          // nx.empty_graph rejects a negative node count
    | RetriesExhausted                           // no sampling attempt within the bound was accepted

  /**
   * The validation a distribution setter runs. The constant distribution
   * needs k * n divisible by `divisor`: 2 for the edge setter, 3 for the
   * triangle setter (whose source tests by 2; see the finding lemmas below).
   */
  function ValidateDistribution(d: Distribution, numNodes: Option<int>, divisor: nat): (r: Option<BuildError>)
    requires divisor > 0
    ensures d.kind == Zipf ==> (r.None? <==> "a" in d.params)
    ensures d.kind == Uniform ==> (r.None? <==> "high" in d.params && "low" in d.params)
    ensures d.kind == Constant ==>
      (r.None? <==> "k" in d.params && numNodes.Some? && (d.params["k"] * numNodes.value) % divisor == 0)
    ensures d.kind == Constant && "k" in d.params && numNodes.None? ==> r == Some(NodeCountUnset)
    ensures d.kind == OtherDistribution ==> r == Some(ParameterError(UnknownDistribution))
  {
    match d.kind
    case Zipf =>
      if "a" !in d.params then Some(ParameterError(ZipfNeedsA)) else None
    case Uniform =>
      if "high" !in d.params || "low" !in d.params then Some(ParameterError(UniformNeedsBounds)) else None
    case Constant =>
      if "k" !in d.params then Some(ParameterError(ConstantNeedsK))
      else if numNodes.None? then Some(NodeCountUnset)
      else if (d.params["k"] * numNodes.value) % divisor != 0 then Some(ParameterError(ConstantNotDivisible))
      else None
    case OtherDistribution =>
      Some(ParameterError(UnknownDistribution))
  }

  function Sum(s: seq<nat>): nat {
    if s == [] then 0 else Sum(s[..|s| - 1]) + s[|s| - 1]
  }

  /** `v` repeated `k` times. */
  function Repeat(v: nat, k: nat): (r: seq<nat>)
    ensures |r| == k
    ensures forall x :: x in r ==> x == v
    ensures multiset(r)[v] == k
    ensures forall x :: x != v ==> multiset(r)[x] == 0
  {
    if k == 0 then [] else Repeat(v, k - 1) + [v]
  }

  /** The stub list: node v appears degrees[v] times, nodes in order. */
  function Stubs(degrees: seq<nat>): (r: seq<nat>)
    ensures |r| == Sum(degrees)
    ensures forall x :: x in r ==> x < |degrees|
    ensures forall v :: 0 <= v < |degrees| ==> multiset(r)[v] == degrees[v]
  {
    if degrees == [] then []
    else
      var front := Stubs(degrees[..|degrees| - 1]);
      var last := |degrees| - 1;
      assert last !in front;
      assert forall v :: 0 <= v < last ==> degrees[..last][v] == degrees[v];
      front + Repeat(last, degrees[last])
  }

  /** The randomness build consumes, as functions of the attempt number. */
  datatype Randomness = Randomness(
    edgeDegree: (nat, nat) -> nat,                // attempt, node -> edge degree drawn
    triangleDegree: (nat, nat) -> nat,            // attempt, node -> triangle degree drawn
    shuffleEdges: (nat, seq<nat>) -> seq<nat>,    // random.shuffle of the edge stubs
    shuffleTriangles: (nat, seq<nat>) -> seq<nat>)

  /** random.shuffle only reorders. */
  ghost predicate Permutes(rnd: Randomness) {
    && (forall a: nat, s: seq<nat> :: multiset(rnd.shuffleEdges(a, s)) == multiset(s))
    && (forall a: nat, s: seq<nat> :: multiset(rnd.shuffleTriangles(a, s)) == multiset(s))
  }

  /** One draw per node, in node order. */
  function Draws(f: (nat, nat) -> nat, attempt: nat, count: nat): (r: seq<nat>)
    ensures |r| == count
    ensures forall v :: 0 <= v < count ==> r[v] == f(attempt, v)
  {
    seq(count, v requires 0 <= v < count => f(attempt, v))
  }

  function EdgeStubsAt(rnd: Randomness, count: nat, attempt: nat): seq<nat> {
    rnd.shuffleEdges(attempt, Stubs(Draws(rnd.edgeDegree, attempt, count)))
  }

  function TriangleStubsAt(rnd: Randomness, count: nat, attempt: nat): seq<nat> {
    rnd.shuffleTriangles(attempt, Stubs(Draws(rnd.triangleDegree, attempt, count)))
  }

  /** The exit test of the rejection loop. */
  predicate AttemptAccepted(rnd: Randomness, count: nat, attempt: nat) {
    |EdgeStubsAt(rnd, count, attempt)| % 2 == 0 && |TriangleStubsAt(rnd, count, attempt)| % 3 == 0
  }

  /** The first attempt among attempt..maxAttempts-1 that `accepted` holds of. */
  function FirstAccepted(accepted: nat -> bool, attempt: nat, maxAttempts: nat): (r: Option<nat>)
    ensures r.Some? ==> attempt <= r.value < maxAttempts && accepted(r.value)
    ensures r.Some? ==> forall b :: attempt <= b < r.value ==> !accepted(b)
    ensures r.None? ==> forall b :: attempt <= b < maxAttempts ==> !accepted(b)
    decreases maxAttempts - attempt
  {
    if attempt >= maxAttempts then None
    else if accepted(attempt) then Some(attempt)
    else FirstAccepted(accepted, attempt + 1, maxAttempts)
  }

  /** The attempt the rejection loop of build stops at, if any within the bound. */
  function AcceptedAttempt(rnd: Randomness, count: nat, maxAttempts: nat): Option<nat> {
    FirstAccepted((a: nat) => AttemptAccepted(rnd, count, a), 0, maxAttempts)
  }

  /** Stub multisets survive the shuffle, so every node keeps its degree. */
  lemma ShuffledStubsKeepDegrees(rnd: Randomness, count: nat, attempt: nat)
    requires Permutes(rnd)
    ensures var e := EdgeStubsAt(rnd, count, attempt);
      && |e| == Sum(Draws(rnd.edgeDegree, attempt, count))
      && (forall x :: x in e ==> x < count)
      && (forall v :: 0 <= v < count ==> multiset(e)[v] == rnd.edgeDegree(attempt, v))
    ensures var t := TriangleStubsAt(rnd, count, attempt);
      && |t| == Sum(Draws(rnd.triangleDegree, attempt, count))
      && (forall x :: x in t ==> x < count)
      && (forall v :: 0 <= v < count ==> multiset(t)[v] == rnd.triangleDegree(attempt, v))
  {
    var se := Stubs(Draws(rnd.edgeDegree, attempt, count));
    var st := Stubs(Draws(rnd.triangleDegree, attempt, count));
    assert multiset(EdgeStubsAt(rnd, count, attempt)) == multiset(se);
    assert multiset(TriangleStubsAt(rnd, count, attempt)) == multiset(st);
    assert |multiset(EdgeStubsAt(rnd, count, attempt))| == |multiset(se)|;
    assert |multiset(TriangleStubsAt(rnd, count, attempt))| == |multiset(st)|;
    forall x | x in EdgeStubsAt(rnd, count, attempt) ensures x < count {
      assert x in multiset(EdgeStubsAt(rnd, count, attempt));
      assert x in se;
    }
    forall x | x in TriangleStubsAt(rnd, count, attempt) ensures x < count {
      assert x in multiset(TriangleStubsAt(rnd, count, attempt));
      assert x in st;
    }
  }

  /** The edge that pairs stubs 2j and 2j+1. */
  function PairAt(s: seq<nat>, j: nat): Edge
    requires 2 * j + 1 < |s|
  {
    Link(s[2 * j + 1], s[2 * j])
  }

  /** The loop `while edges: G.add_edge(edges.pop(), edges.pop())`. */
  function PairEdges(s: seq<nat>): set<Edge>
    requires |s| % 2 == 0
  {
    if s == [] then {} else {Link(s[|s| - 1], s[|s| - 2])} + PairEdges(s[..|s| - 2])
  }

  /**
   * The edges are exactly the pairs of consecutive stubs 2j, 2j+1; two
   * stubs of the same node give a self-loop.
   */
  lemma {:induction false} PairEdgesCharacterised(s: seq<nat>)
    requires |s| % 2 == 0
    ensures forall e :: e in PairEdges(s) <==> exists j :: 0 <= j < |s| / 2 && e == PairAt(s, j)
  {
    if s != [] {
      var front := s[..|s| - 2];
      PairEdgesCharacterised(front);
      forall j | 0 <= j < |front| / 2 ensures PairAt(front, j) == PairAt(s, j) { }
      assert Link(s[|s| - 1], s[|s| - 2]) == PairAt(s, |s| / 2 - 1);
    }
  }

  /** The three edges of the triangle formed by stubs 3j, 3j+1, 3j+2. */
  function TriangleAt(s: seq<nat>, j: nat): set<Edge>
    requires 3 * j + 2 < |s|
  {
    {Link(s[3 * j + 2], s[3 * j + 1]), Link(s[3 * j + 2], s[3 * j]), Link(s[3 * j + 1], s[3 * j])}
  }

  /** The loop adding combinations((pop, pop, pop), 2) until the list is empty. */
  function TriangleEdges(s: seq<nat>): set<Edge>
    requires |s| % 3 == 0
  {
    if s == [] then {}
    else
      var a, b, c := s[|s| - 1], s[|s| - 2], s[|s| - 3];
      {Link(a, b), Link(a, c), Link(b, c)} + TriangleEdges(s[..|s| - 3])
  }

  /** Dropping the last triple leaves the earlier triangles as they were. */
  lemma TriangleAtPrefix(s: seq<nat>, j: nat)
    requires |s| >= 3 && 3 * j + 2 < |s| - 3
    ensures TriangleAt(s[..|s| - 3], j) == TriangleAt(s, j)
  {
    var front := s[..|s| - 3];
    assert front[3 * j] == s[3 * j] && front[3 * j + 1] == s[3 * j + 1] && front[3 * j + 2] == s[3 * j + 2];
  }

  /** The last stub triple adds the sides of the last triangle. */
  lemma TriangleEdgesStep(s: seq<nat>)
    requires |s| % 3 == 0 && s != []
    ensures TriangleEdges(s) == TriangleAt(s, (|s| - 3) / 3) + TriangleEdges(s[..|s| - 3])
  {
    assert 3 * ((|s| - 3) / 3) == |s| - 3;
  }

  /** Each side of each stub triangle is an edge of the result. */
  lemma {:induction false} TriangleSideIsEdge(s: seq<nat>, j: nat, e: Edge)
    requires |s| % 3 == 0 && 3 * j + 2 < |s| && e in TriangleAt(s, j)
    ensures e in TriangleEdges(s)
  {
    TriangleEdgesStep(s);
    if 3 * j + 2 < |s| - 3 {
      TriangleAtPrefix(s, j);
      TriangleSideIsEdge(s[..|s| - 3], j, e);
    } else {
      assert j == (|s| - 3) / 3;
    }
  }

  /** The edges are exactly the sides of the triangles of consecutive stub triples. */
  lemma {:induction false} TriangleEdgesCharacterised(s: seq<nat>)
    requires |s| % 3 == 0
    ensures forall e :: e in TriangleEdges(s) <==> exists j: nat :: 3 * j + 2 < |s| && e in TriangleAt(s, j)
  {
    if s != [] {
      var front := s[..|s| - 3];
      var last := (|s| - 3) / 3;
      assert 3 * last + 2 == |s| - 1;
      TriangleEdgesCharacterised(front);
      TriangleEdgesStep(s);
      forall e | e in TriangleEdges(s) ensures exists j: nat :: 3 * j + 2 < |s| && e in TriangleAt(s, j) {
        if e !in TriangleAt(s, last) {
          var j: nat :| 3 * j + 2 < |front| && e in TriangleAt(front, j);
          TriangleAtPrefix(s, j);
        }
      }
      forall e, j: nat | 3 * j + 2 < |s| && e in TriangleAt(s, j) ensures e in TriangleEdges(s) {
        TriangleSideIsEdge(s, j, e);
      }
    }
  }

  /** Every paired edge joins two stubs, so it stays among the nodes. */
  lemma {:induction false} PairEdgesWithin(s: seq<nat>, count: nat)
    requires |s| % 2 == 0 && forall x :: x in s ==> x < count
    ensures WellFormed(count, PairEdges(s))
  {
    if s != [] {
      assert s[|s| - 1] in s && s[|s| - 2] in s;
      var front := s[..|s| - 2];
      forall x | x in front ensures x < count {
        var i :| 0 <= i < |front| && front[i] == x;
        assert s[i] in s;
      }
      PairEdgesWithin(front, count);
    }
  }

  lemma {:induction false} TriangleEdgesWithin(s: seq<nat>, count: nat)
    requires |s| % 3 == 0 && forall x :: x in s ==> x < count
    ensures WellFormed(count, TriangleEdges(s))
  {
    if s != [] {
      assert s[|s| - 1] in s && s[|s| - 2] in s && s[|s| - 3] in s;
      var front := s[..|s| - 3];
      forall x | x in front ensures x < count {
        var i :| 0 <= i < |front| && front[i] == x;
        assert s[i] in s;
      }
      TriangleEdgesWithin(front, count);
    }
  }

  /** The graph build returns, with the attribute map of every node. */
  datatype BuiltGraph<V> = BuiltGraph(graph: Graph, attributes: seq<map<string, V>>)

  class ClusteredGraphBuilder<V> {
    var numNodes: Option<int>
    var edgeDegree: Option<Distribution>
    var triangleDegree: Option<Distribution>
    var attributeFactory: Option<map<string, V>>

    constructor ()
      ensures numNodes == None && edgeDegree == None && triangleDegree == None
      ensures attributeFactory == None
    {
      numNodes := None;
      edgeDegree := None;
      triangleDegree := None;
      attributeFactory := None;
    }

    method SetGraphSize(nodes: int) returns (self: ClusteredGraphBuilder<V>)
      modifies this`numNodes
      ensures numNodes == Some(nodes) && self == this
    {
      numNodes := Some(nodes);
      self := this;
    }

    /** Validates and stores the edge-degree sampler; on failure nothing changes. */
    method WithEdgeDegreeDistribution(d: Distribution) returns (r: Result<ClusteredGraphBuilder<V>, BuildError>)
      modifies this`edgeDegree
      ensures r.Success? <==> ValidateDistribution(d, numNodes, 2).None?
      ensures r.Success? ==> r.value == this && edgeDegree == Some(d)
      ensures r.Failure? ==> Some(r.error) == ValidateDistribution(d, numNodes, 2)
      ensures r.Failure? ==> edgeDegree == old(edgeDegree)
    {
      var problem := ValidateDistribution(d, numNodes, 2);
      if problem.Some? {
        return Failure(problem.value);
      }
      edgeDegree := Some(d);
      r := Success(this);
    }

    /**
     * Validates and stores the triangle-degree sampler; on failure nothing
     * changes. The constant check is by 3, as its error message states;
     * the source tests by 2.
     */
    method WithTriangleDegreeDistribution(d: Distribution) returns (r: Result<ClusteredGraphBuilder<V>, BuildError>)
      modifies this`triangleDegree
      ensures r.Success? <==> ValidateDistribution(d, numNodes, 3).None?
      ensures r.Success? ==> r.value == this && triangleDegree == Some(d)
      ensures r.Failure? ==> Some(r.error) == ValidateDistribution(d, numNodes, 3)
      ensures r.Failure? ==> triangleDegree == old(triangleDegree)
    {
      var problem := ValidateDistribution(d, numNodes, 3);
      if problem.Some? {
        return Failure(problem.value);
      }
      triangleDegree := Some(d);
      r := Success(this);
    }

    method InitializeNodeAttributesUsing(data: map<string, V>) returns (self: ClusteredGraphBuilder<V>)
      modifies this`attributeFactory
      ensures attributeFactory == Some(data) && self == this
    {
      attributeFactory := Some(data);
      self := this;
    }

    /** The graph size and both distributions are set; the attribute factory is optional. */
    predicate Configured()
      reads this
    {
      numNodes.Some? && edgeDegree.Some? && triangleDegree.Some?
    }

    /**
     * build: the rejection loop (bounded here by `maxAttempts`), the two
     * pairing loops, and the per-node attribute initialisation.
     */
    method Build(rnd: Randomness, maxAttempts: nat) returns (r: Result<BuiltGraph<V>, BuildError>)
      requires Permutes(rnd)
      ensures !Configured() <==> r == Failure(ConfigurationError)
      ensures Configured() && numNodes.value < 0 <==> r == Failure(NegativeNodeCount)
      ensures Configured() && numNodes.value >= 0 ==>
        var count: nat := numNodes.value;
        var accepted := AcceptedAttempt(rnd, count, maxAttempts);
        && (accepted.None? <==> r == Failure(RetriesExhausted))
        && (accepted.Some? ==>
              && r.Success?
              && r.value.graph.n == count
              && r.value.graph.edges == PairEdges(EdgeStubsAt(rnd, count, accepted.value))
                                         + TriangleEdges(TriangleStubsAt(rnd, count, accepted.value)))
      ensures r.Success? ==> WellFormed(r.value.graph.n, r.value.graph.edges)
      ensures r.Success? ==> |r.value.attributes| == r.value.graph.n
      ensures r.Success? ==> forall v :: 0 <= v < r.value.graph.n ==>
        r.value.attributes[v] == if attributeFactory.Some? then attributeFactory.value else map[]
    {
      if numNodes.None? || edgeDegree.None? || triangleDegree.None? {
        return Failure(ConfigurationError);
      }
      if numNodes.value < 0 {
        return Failure(NegativeNodeCount);
      }
      var count: nat := numNodes.value;
      var sampled := SampleStubs(rnd, count, maxAttempts);
      if sampled.None? {
        return Failure(RetriesExhausted);
      }
      var edges, triangles := sampled.value.0, sampled.value.1;
      ShuffledStubsKeepDegrees(rnd, count, AcceptedAttempt(rnd, count, maxAttempts).value);
      PairEdgesWithin(edges, count);
      TriangleEdgesWithin(triangles, count);
      var g := ConnectStubs(edges, triangles);
      var attributes := NodeAttributes(count, attributeFactory);
      r := Success(BuiltGraph(Graph(count, g), attributes));
    }
  }

  /**
   * The rejection loop of build: draw degrees and shuffle stubs until the
   * edge stubs are even in number and the triangle stubs a multiple of
   * three. The program loops without bound; here at most `maxAttempts`
   * attempts are made.
   */
  method SampleStubs(rnd: Randomness, count: nat, maxAttempts: nat) returns (r: Option<(seq<nat>, seq<nat>)>)
    ensures r.None? <==> AcceptedAttempt(rnd, count, maxAttempts).None?
    ensures r.Some? ==>
      var a := AcceptedAttempt(rnd, count, maxAttempts).value;
      r.value == (EdgeStubsAt(rnd, count, a), TriangleStubsAt(rnd, count, a))
    ensures r.Some? ==> |r.value.0| % 2 == 0 && |r.value.1| % 3 == 0
  {
    ghost var accepts := (a: nat) => AttemptAccepted(rnd, count, a);
    var attempt := 0;
    while attempt < maxAttempts
      invariant attempt <= maxAttempts
      invariant AcceptedAttempt(rnd, count, maxAttempts) == FirstAccepted(accepts, attempt, maxAttempts)
    {
      var edges := rnd.shuffleEdges(attempt, Stubs(Draws(rnd.edgeDegree, attempt, count)));
      var triangles := rnd.shuffleTriangles(attempt, Stubs(Draws(rnd.triangleDegree, attempt, count)));
      var accepted := |edges| % 2 == 0 && |triangles| % 3 == 0;
      assert accepted == accepts(attempt);
      if accepted {
        return Some((edges, triangles));
      }
      attempt := attempt + 1;
    }
    r := None;
  }

  /**
   * The two pairing loops of build: pop two edge stubs at a time and join
   * them, then pop three triangle stubs at a time and join all three pairs.
   */
  method ConnectStubs(edges: seq<nat>, triangles: seq<nat>) returns (g: set<Edge>)
    requires |edges| % 2 == 0 && |triangles| % 3 == 0
    ensures g == PairEdges(edges) + TriangleEdges(triangles)
  {
    g := ConnectPairs({}, edges);
    g := ConnectTriangles(g, triangles);
  }

  /** `while edges: G.add_edge(edges.pop(), edges.pop())`, adding to `g`. */
  method ConnectPairs(g0: set<Edge>, edges: seq<nat>) returns (g: set<Edge>)
    requires |edges| % 2 == 0
    ensures g == g0 + PairEdges(edges)
  {
    g := g0;
    var es := edges;
    while |es| > 0
      invariant |es| % 2 == 0
      invariant g + PairEdges(es) == g0 + PairEdges(edges)
      decreases |es|
    {
      ghost var before := es;
      var u := es[|es| - 1];
      es := es[..|es| - 1];
      var v := es[|es| - 1];
      es := es[..|es| - 1];
      assert es == before[..|before| - 2] && v == before[|before| - 2];
      assert PairEdges(before) == {Link(u, v)} + PairEdges(es);
      g := g + {Link(u, v)};
    }
  }

  /** The triangle loop: pop three stubs and add the three edges among them, adding to `g`. */
  method ConnectTriangles(g0: set<Edge>, triangles: seq<nat>) returns (g: set<Edge>)
    requires |triangles| % 3 == 0
    ensures g == g0 + TriangleEdges(triangles)
  {
    g := g0;
    var ts := triangles;
    while |ts| > 0
      invariant |ts| % 3 == 0
      invariant g + TriangleEdges(ts) == g0 + TriangleEdges(triangles)
      decreases |ts|
    {
      ghost var before := ts;
      var a := ts[|ts| - 1];
      ts := ts[..|ts| - 1];
      var b := ts[|ts| - 1];
      ts := ts[..|ts| - 1];
      var c := ts[|ts| - 1];
      ts := ts[..|ts| - 1];
      assert ts == before[..|before| - 3] && b == before[|before| - 2] && c == before[|before| - 3];
      assert TriangleEdges(before) == {Link(a, b), Link(a, c), Link(b, c)} + TriangleEdges(ts);
      g := g + {Link(a, b), Link(a, c), Link(b, c)};
    }
  }

  /**
   * The attribute loop of build: every node gets every key of the factory
   * map with the value its factory produces; without a factory map the
   * nodes keep empty attribute maps.
   */
  method NodeAttributes<V>(count: nat, attributeFactory: Option<map<string, V>>) returns (attributes: seq<map<string, V>>)
    ensures |attributes| == count
    ensures forall v :: 0 <= v < count ==>
      attributes[v] == if attributeFactory.Some? then attributeFactory.value else map[]
  {
    attributes := seq(count, v => map[]);
    if attributeFactory.Some? {
      var factory := attributeFactory.value;
      for node := 0 to count
        invariant |attributes| == count
        invariant forall v :: 0 <= v < node ==> attributes[v] == factory
        invariant forall v :: node <= v < count ==> attributes[v] == map[]
      {
        var data := attributes[node];
        var keys := factory.Keys;
        while keys != {}
          invariant keys <= factory.Keys
          invariant data.Keys == factory.Keys - keys
          invariant forall k :: k in data ==> data[k] == factory[k]
          decreases keys
        {
          var k :| k in keys;
          data := data[k := factory[k]];
          keys := keys - {k};
        }
        attributes := attributes[node := data];
      }
    }
  }

  /** Every attempt draws the constant `k` for every node. */
  ghost predicate ConstantDraws(f: (nat, nat) -> nat, k: nat) {
    forall a, v :: f(a, v) == k
  }

  lemma {:induction false} SumOfConstantDraws(f: (nat, nat) -> nat, k: nat, attempt: nat, count: nat)
    requires ConstantDraws(f, k)
    ensures Sum(Draws(f, attempt, count)) == k * count
  {
    if count > 0 {
      SumOfConstantDraws(f, k, attempt, count - 1);
      assert Draws(f, attempt, count)[..count - 1] == Draws(f, attempt, count - 1);
    }
  }

  /**
   * The constant edge-degree check is exact: it accepts k exactly when
   * every attempt's edge stub count is even, so the edge half of the
   * rejection test never rejects.
   */
  lemma ConstantEdgeCheckExact(rnd: Randomness, k: nat, nodes: nat, attempt: nat)
    requires Permutes(rnd) && ConstantDraws(rnd.edgeDegree, k)
    ensures ValidateDistribution(Distribution(Constant, map["k" := k]), Some(nodes), 2).None?
            <==> |EdgeStubsAt(rnd, nodes, attempt)| % 2 == 0
  {
    ShuffledStubsKeepDegrees(rnd, nodes, attempt);
    SumOfConstantDraws(rnd.edgeDegree, k, attempt, nodes);
  }

  /**
   * Finding, as written: the triangle setter tests k * n by 2. It accepts a
   * constant triangle degree 1 on 2 nodes, whose triangle stub count 2 is
   * never divisible by 3, so no attempt is ever accepted (the unbounded
   * loop of the program never ends).
   */
  lemma TriangleCheckAsWrittenAdmitsUnbuildable(rnd: Randomness, maxAttempts: nat)
    requires Permutes(rnd) && ConstantDraws(rnd.triangleDegree, 1)
    ensures ValidateDistribution(Distribution(Constant, map["k" := 1]), Some(2), 2).None?
    ensures AcceptedAttempt(rnd, 2, maxAttempts).None?
  {
    forall a | 0 <= a < maxAttempts ensures !AttemptAccepted(rnd, 2, a) {
      ShuffledStubsKeepDegrees(rnd, 2, a);
      SumOfConstantDraws(rnd.triangleDegree, 1, a, 2);
    }
  }

  /**
   * Finding, as written: the same check refuses a constant triangle degree
   * 1 on 3 nodes, although every attempt would pass the triangle test.
   */
  lemma TriangleCheckAsWrittenRefusesBuildable(rnd: Randomness)
    requires Permutes(rnd) && ConstantDraws(rnd.triangleDegree, 1)
    ensures ValidateDistribution(Distribution(Constant, map["k" := 1]), Some(3), 2).Some?
    ensures forall a :: |TriangleStubsAt(rnd, 3, a)| % 3 == 0
  {
    forall a ensures |TriangleStubsAt(rnd, 3, a)| % 3 == 0 {
      ShuffledStubsKeepDegrees(rnd, 3, a);
      SumOfConstantDraws(rnd.triangleDegree, 1, a, 3);
    }
  }

  /**
   * Corrected: testing k * n by 3 accepts a constant triangle degree exactly
   * when every attempt's triangle stub count is divisible by 3.
   */
  lemma ConstantTriangleCheckCorrected(rnd: Randomness, k: nat, nodes: nat, attempt: nat)
    requires Permutes(rnd) && ConstantDraws(rnd.triangleDegree, k)
    ensures ValidateDistribution(Distribution(Constant, map["k" := k]), Some(nodes), 3).None?
            <==> |TriangleStubsAt(rnd, nodes, attempt)| % 3 == 0
  {
    ShuffledStubsKeepDegrees(rnd, nodes, attempt);
    SumOfConstantDraws(rnd.triangleDegree, k, attempt, nodes);
  }

  /**
   * With constant degrees that pass the edge check and the corrected
   * triangle check, the very first attempt is accepted.
   */
  lemma ConstantDegreesBuildFirstTime(rnd: Randomness, ke: nat, kt: nat, nodes: nat, maxAttempts: nat)
    requires Permutes(rnd) && ConstantDraws(rnd.edgeDegree, ke) && ConstantDraws(rnd.triangleDegree, kt)
    requires ValidateDistribution(Distribution(Constant, map["k" := ke]), Some(nodes), 2).None?
    requires ValidateDistribution(Distribution(Constant, map["k" := kt]), Some(nodes), 3).None?
    requires 0 < maxAttempts
    ensures AcceptedAttempt(rnd, nodes, maxAttempts) == Some(0)
  {
    ConstantEdgeCheckExact(rnd, ke, nodes, 0);
    ConstantTriangleCheckCorrected(rnd, kt, nodes, 0);
  }

  /** Two stubs of one node make a self-loop; a repeated pair adds one edge. */
  lemma PairingExamples()
    ensures PairEdges([3, 3]) == {Edge(3, 3)}
    ensures PairEdges([1, 2, 2, 1]) == {Edge(1, 2)}
    ensures TriangleEdges([0, 1, 2]) == {Edge(0, 1), Edge(0, 2), Edge(1, 2)}
  {
    assert [1, 2, 2, 1][..2] == [1, 2];
  }
}
