/**
 * The two helpers used together, as the solver page does: solve run on the
 * matrix that create_distance_matrix builds from the depot and the
 * customers' locations.
 */
module Pipeline {
  import opened Wrappers
  import opened Utils
  import opened AcoSolver

  /** The straight-line distance from the depot (location 0) to each of the locations 1 .. m-1, summed. */
  function DepotDistances(sqrt: real -> real, locations: seq<Location>, m: nat): real
    requires m <= |locations|
  {
    if m <= 1 then 0.0
    else
      DepotDistances(sqrt, locations, m - 1)
      + CalculateDistance(sqrt, locations[0].0, locations[0].1, locations[m - 1].0, locations[m - 1].1)
  }

  /** The matrix create_distance_matrix builds is square. */
  lemma DistanceMatrixIsSquare(sqrt: real -> real, locations: seq<Location>)
    ensures IsSquare(DistanceMatrix(sqrt, locations))
    ensures LookupsInRange(DistanceMatrix(sqrt, locations))
  {
    DistanceMatrixEntries(sqrt, locations);
  }

  /** On that matrix the out-and-back sum is twice the depot distances, by symmetry. */
  lemma {:induction false} RoundTripsAreTwiceDepotDistances(sqrt: real -> real, locations: seq<Location>, m: nat)
    requires m <= |locations|
    ensures LookupsInRange(DistanceMatrix(sqrt, locations))
    ensures DepotRoundTrips(DistanceMatrix(sqrt, locations), m) == 2.0 * DepotDistances(sqrt, locations, m)
  {
    DistanceMatrixIsSquare(sqrt, locations);
    if m >= 2 {
      RoundTripsAreTwiceDepotDistances(sqrt, locations, m - 1);
      DistanceMatrixEntries(sqrt, locations);
      DistanceMatrixSymmetric(sqrt, locations);
    }
  }

  /**
   * Proof step: a matrix of n rows whose lookups are in range and whose
   * round trips sum to c is solved by the n - 1 placeholder routes at cost c.
   */
  lemma SolvedAtCost(d: Matrix, n: nat, c: real)
    requires |d| == n && LookupsInRange(d) && DepotRoundTrips(d, n) == c
    ensures SolveOn(d) == Ok(Solution(StubRoutes(n), c))
  {
    SolveOnInRange(d);
  }

  /**
   * solve on a matrix built from n locations never fails; it returns one
   * round trip per customer, and its cost is twice the sum of the
   * distances from the depot to every customer.
   */
  lemma SolveOnBuiltMatrix(sqrt: real -> real, locations: seq<Location>)
    ensures SolveOn(DistanceMatrix(sqrt, locations))
      == Ok(Solution(StubRoutes(|locations|), 2.0 * DepotDistances(sqrt, locations, |locations|)))
  {
    var d := DistanceMatrix(sqrt, locations);
    DistanceMatrixIsSquare(sqrt, locations);
    RoundTripsAreTwiceDepotDistances(sqrt, locations, |locations|);
    SolvedAtCost(d, |locations|, 2.0 * DepotDistances(sqrt, locations, |locations|));
  }
}
