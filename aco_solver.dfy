/**
 * aco_solver.py: the problem instance (Graph), the solver's parameters
 * (ACO), and its placeholder solve, which sends one vehicle from the depot
 * to each customer and straight back, and costs the routes by summing the
 * distance matrix over every consecutive pair of nodes.
 */
module AcoSolver {
  import opened Wrappers

  /** A distance matrix as the rows solve indexes into. */
  type Matrix = seq<seq<real>>

  /** A route is the sequence of node indices a vehicle visits. */
  type Route = seq<nat>

  /** The depot is node 0; nodes 1 .. n-1 are customers. */
  const DepotNode: nat := 0

  /** What solve returns: the routes and their total cost. */
  datatype Solution = Solution(routes: seq<Route>, cost: real)

  /** The one way solve can fail: a distance lookup outside the matrix (Python's IndexError). */
  datatype SolveError = IndexError

  /** The placeholder routes `[[0, i, 0] for i in range(1, n)]`. */
  function StubRoutes(n: nat): seq<Route>
  {
    seq(if n == 0 then 0 else n - 1, k => [DepotNode, k + 1, DepotNode])
  }

  /** `zip(route, route[1:])`: each node of a route paired with the next one. */
  function ConsecutivePairs(route: Route): (pairs: seq<(nat, nat)>)
    ensures |pairs| == if |route| == 0 then 0 else |route| - 1
    ensures forall k :: 0 <= k < |pairs| ==> pairs[k] == (route[k], route[k + 1])
  {
    if |route| < 2 then [] else [(route[0], route[1])] + ConsecutivePairs(route[1..])
  }

  /** Every consecutive pair of every route, in the order the generator of solve visits them. */
  function Pairs(routes: seq<Route>): seq<(nat, nat)>
  {
    if routes == [] then [] else Pairs(routes[..|routes| - 1]) + ConsecutivePairs(routes[|routes| - 1])
  }

  /** Every pair indexes a cell of the matrix (a row, then a column of that row). */
  predicate InMatrix(d: Matrix, pairs: seq<(nat, nat)>)
  {
    forall k :: 0 <= k < |pairs| ==> pairs[k].0 < |d| && pairs[k].1 < |d[pairs[k].0]|
  }

  /** `sum(d[i][j] for (i, j) in pairs)`, added from the left starting at zero. */
  function SumOver(d: Matrix, pairs: seq<(nat, nat)>): real
    requires InMatrix(d, pairs)
  {
    if pairs == [] then 0.0
    else
      var (i, j) := pairs[|pairs| - 1];
      SumOver(d, pairs[..|pairs| - 1]) + d[i][j]
  }

  /**
   * solve on the distance matrix alone: build the placeholder routes and sum
   * the matrix over their consecutive pairs, or fail as Python's indexing
   * does when a row is too short.
   */
  function SolveOn(d: Matrix): (r: Result<Solution, SolveError>)
    ensures r.Ok? <==> LookupsInRange(d)
    ensures r.Ok? ==> r.value.routes == StubRoutes(|d|)
    ensures r.Ok? ==> r.value.cost == DepotRoundTrips(d, |d|)
  {
    var routes := StubRoutes(|d|);
    var pairs := Pairs(routes);
    StubPairsInMatrix(d);
    if InMatrix(d, pairs) then
      StubCost(d, |d|);
      Ok(Solution(routes, SumOver(d, pairs)))
    else
      Err(IndexError)
  }

  /**
   * The lookups solve makes all fall inside the matrix: once there is a
   * customer, row 0 has a column for every node, and every customer's row
   * has a column 0.
   */
  predicate LookupsInRange(d: Matrix)
  {
    (|d| >= 2 ==> |d[0]| >= |d|) && forall i :: 1 <= i < |d| ==> 0 < |d[i]|
  }

  /** Every row has as many columns as the matrix has rows. */
  predicate IsSquare(d: Matrix)
  {
    forall i :: 0 <= i < |d| ==> |d[i]| == |d|
  }

  /**
   * Reference value of the cost: the out-and-back distance from the depot to
   * each of the customers 1 .. m-1, `d[0][i] + d[i][0]` summed over i.
   */
  function DepotRoundTrips(d: Matrix, m: nat): real
    requires m <= |d| && LookupsInRange(d)
  {
    if m <= 1 then 0.0
    else
      assert 0 < |d[m - 1]|;
      DepotRoundTrips(d, m - 1) + d[0][m - 1] + d[m - 1][0]
  }

  /** How many of the routes visit node v. */
  function RoutesVisiting(routes: seq<Route>, v: nat): nat
  {
    if routes == [] then 0
    else RoutesVisiting(routes[..|routes| - 1], v) + (if v in routes[|routes| - 1] then 1 else 0)
  }

  /** The routes for n nodes are those for n - 1 nodes followed by the round trip to customer n - 1. */
  lemma StubRoutesGrow(n: nat)
    requires n >= 2
    ensures StubRoutes(n) == StubRoutes(n - 1) + [[DepotNode, n - 1, DepotNode]]
  {
  }

  /**
   * The shape of the placeholder routes: n - 1 of them (none for an empty
   * matrix), route k being `[0, k + 1, 0]`, so that every route has length
   * 3 and starts and ends at the depot.
   */
  lemma StubRoutesShape(n: nat)
    ensures |StubRoutes(n)| == if n == 0 then 0 else n - 1
    ensures forall k :: 0 <= k < |StubRoutes(n)| ==> StubRoutes(n)[k] == [DepotNode, k + 1, DepotNode]
    ensures forall route :: route in StubRoutes(n) ==>
      |route| == 3 && route[0] == DepotNode && route[2] == DepotNode
  {
  }

  /**
   * Coverage: every customer 1 .. n-1 lies on exactly one route, no route
   * visits a node outside 0 .. n-1, and the depot is never the middle node
   * of a route.
   */
  lemma {:induction false} StubRoutesCoverage(n: nat)
    ensures forall c :: 1 <= c < n ==> RoutesVisiting(StubRoutes(n), c) == 1
    ensures forall v :: v >= n ==> RoutesVisiting(StubRoutes(n), v) == 0
    ensures forall route :: route in StubRoutes(n) ==> route[1] != DepotNode
  {
    if n >= 2 {
      StubRoutesCoverage(n - 1);
      StubRoutesGrow(n);
      var routes := StubRoutes(n);
      assert routes[..|routes| - 1] == StubRoutes(n - 1);
      assert routes[|routes| - 1] == [DepotNode, n - 1, DepotNode];
    }
  }

  /** Pairs distributes over concatenation of route lists. */
  lemma {:induction false} PairsAppend(a: seq<Route>, b: seq<Route>)
    ensures Pairs(a + b) == Pairs(a) + Pairs(b)
    decreases |b|
  {
    if b == [] {
      assert a + b == a;
    } else {
      var b' := b[..|b| - 1];
      assert (a + b)[..|a + b| - 1] == a + b';
      assert (a + b)[|a + b| - 1] == b[|b| - 1];
      PairsAppend(a, b');
    }
  }

  /**
   * The pairs of the placeholder routes for n nodes alternate between
   * `(0, i)` and `(i, 0)` for each customer i in turn.
   */
  lemma {:induction false} StubPairsAt(n: nat)
    ensures var pairs := Pairs(StubRoutes(n));
      |pairs| == 2 * |StubRoutes(n)| &&
      forall j :: 0 <= j < |pairs| ==>
        pairs[j] == if j % 2 == 0 then (DepotNode, j / 2 + 1) else (j / 2 + 1, DepotNode)
  {
    if n >= 2 {
      StubPairsAt(n - 1);
      StubRoutesGrow(n);
      var last: Route := [DepotNode, n - 1, DepotNode];
      PairsAppend(StubRoutes(n - 1), [last]);
      assert Pairs([last]) == Pairs([]) + ConsecutivePairs(last);
      assert ConsecutivePairs(last) == [(DepotNode, n - 1), (n - 1, DepotNode)];
    }
  }

  /** The pairs of the placeholder routes are all cells of d exactly when the lookups are in range. */
  lemma StubPairsInMatrix(d: Matrix)
    ensures InMatrix(d, Pairs(StubRoutes(|d|))) <==> LookupsInRange(d)
  {
    var pairs := Pairs(StubRoutes(|d|));
    StubPairsAt(|d|);
    if LookupsInRange(d) {
      forall k | 0 <= k < |pairs|
        ensures pairs[k].0 < |d| && pairs[k].1 < |d[pairs[k].0]|
      {
        var i := k / 2 + 1;
        assert 1 <= i < |d| && 0 < |d[i]|;
        assert pairs[k] == (DepotNode, i) || pairs[k] == (i, DepotNode);
      }
    }
    if InMatrix(d, pairs) {
      forall i | 1 <= i < |d|
        ensures 0 < |d[i]|
      {
        assert pairs[2 * (i - 1) + 1] == (i, DepotNode);
      }
      if |d| >= 2 {
        assert pairs[2 * (|d| - 2)] == (DepotNode, |d| - 1);
      }
    }
  }

  /** The sum over a concatenation is the sum of the two sums. */
  lemma {:induction false} SumOverAppend(d: Matrix, a: seq<(nat, nat)>, b: seq<(nat, nat)>)
    requires InMatrix(d, a) && InMatrix(d, b)
    ensures InMatrix(d, a + b)
    ensures SumOver(d, a + b) == SumOver(d, a) + SumOver(d, b)
    decreases |b|
  {
    assert forall k :: 0 <= k < |a + b| ==> (a + b)[k] == if k < |a| then a[k] else b[k - |a|];
    if b == [] {
      assert a + b == a;
    } else {
      var b' := b[..|b| - 1];
      assert (a + b)[..|a + b| - 1] == a + b';
      SumOverAppend(d, a, b');
    }
  }

  /**
   * The cost of the placeholder routes for the first m nodes is the
   * reference sum of depot round trips.
   */
  lemma {:induction false} StubCost(d: Matrix, m: nat)
    requires m <= |d| && LookupsInRange(d)
    ensures InMatrix(d, Pairs(StubRoutes(m)))
    ensures SumOver(d, Pairs(StubRoutes(m))) == DepotRoundTrips(d, m)
  {
    StubPairsAt(m);
    if m >= 2 {
      StubCost(d, m - 1);
      StubRoutesGrow(m);
      var last: Route := [DepotNode, m - 1, DepotNode];
      PairsAppend(StubRoutes(m - 1), [last]);
      assert Pairs([last]) == Pairs([]) + ConsecutivePairs(last);
      var tail := ConsecutivePairs(last);
      assert tail == [(DepotNode, m - 1), (m - 1, DepotNode)];
      assert 1 <= m - 1 < |d| && m - 1 < |d[0]| && 0 < |d[m - 1]|;
      assert InMatrix(d, tail);
      var first: seq<(nat, nat)> := tail[..1];
      assert first == [(DepotNode, m - 1)] && first[..0] == [];
      assert SumOver(d, first) == d[0][m - 1];
      assert SumOver(d, tail) == d[0][m - 1] + d[m - 1][0];
      SumOverAppend(d, Pairs(StubRoutes(m - 1)), tail);
    }
  }

  /** When the lookups are in range, solve returns the placeholder routes at the reference cost. */
  lemma SolveOnInRange(d: Matrix)
    requires LookupsInRange(d)
    ensures SolveOn(d) == Ok(Solution(StubRoutes(|d|), DepotRoundTrips(d, |d|)))
  {
    var r := SolveOn(d);
    assert r.Ok?;
    assert r.value == Solution(StubRoutes(|d|), DepotRoundTrips(d, |d|));
  }

  /** A square matrix, such as create_distance_matrix returns, never makes solve fail. */
  lemma SquareMatrixSolves(d: Matrix)
    requires IsSquare(d)
    ensures SolveOn(d).Ok?
  {
  }

  /** With only the depot (or nothing at all), solve returns no routes and cost 0. */
  lemma DepotOnlySolution(d: Matrix)
    requires |d| <= 1
    ensures SolveOn(d) == Ok(Solution([], 0.0))
  {
  }

  /** The instance solve is given: distances, per-node demands and the vehicle capacity. */
  class Graph {
    var distanceMatrix: Matrix
    var demands: seq<int>
    var vehicleCapacity: int

    constructor (distanceMatrix: Matrix, demands: seq<int>, vehicleCapacity: int)
      ensures this.distanceMatrix == distanceMatrix
      ensures this.demands == demands
      ensures this.vehicleCapacity == vehicleCapacity
    {
      this.distanceMatrix := distanceMatrix;
      this.demands := demands;
      this.vehicleCapacity := vehicleCapacity;
    }
  }

  /** The ant-colony parameters; the placeholder solve reads none of them. */
  class ACO {
    var numAnts: int
    var numIterations: int
    var alpha: real
    var beta: real
    var evaporationRate: real

    constructor (numAnts: int, numIterations: int, alpha: real, beta: real, evaporationRate: real)
      ensures this.numAnts == numAnts && this.numIterations == numIterations
      ensures this.alpha == alpha && this.beta == beta
      ensures this.evaporationRate == evaporationRate
    {
      this.numAnts := numAnts;
      this.numIterations := numIterations;
      this.alpha := alpha;
      this.beta := beta;
      this.evaporationRate := evaporationRate;
    }

    /**
     * solve: its result is a function of the graph's distance matrix only,
     * and it changes no object.
     */
    method Solve(graph: Graph) returns (r: Result<Solution, SolveError>)
      ensures r == SolveOn(graph.distanceMatrix)
    {
      r := SolveOn(graph.distanceMatrix);
    }
  }
}
