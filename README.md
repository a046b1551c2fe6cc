# CVRP solver stub: a Dafny model

This project models the core of a small Capacitated Vehicle Routing Problem
(CVRP) tool built around an ant-colony optimiser, and proves properties of
that model.

- `aco_solver.py` holds the problem instance (`Graph`: distance matrix,
  per-node demands, vehicle capacity) and the optimiser's parameters (`ACO`).
  Its `solve` is a placeholder. It sends one vehicle from the depot (node 0)
  to each customer and straight back, giving the routes `[0, i, 0]` for
  `i = 1 .. n-1`. The cost is the sum of the distance matrix over every
  consecutive pair of nodes of every route.
- `utils.py` holds the straight-line distance between two points, the
  distance matrix over a list of locations, and the validator of a problem
  configuration.

The code is named and parameterised as an ant-colony optimiser: the `ACO`
class takes a number of ants, a number of iterations, alpha, beta and an
evaporation rate, and the solver page calls `solve` to "Run ACO algorithm"
(pages/1_CVRP_Solver.py:41). But `solve` is marked "Example placeholder
implementation" (aco_solver.py:18). It ignores demands, capacity and every
parameter, and has no pheromone trails or capacity-feasible construction.
The model follows the code.

Files:

- `wrappers.dfy`: module `Wrappers`, with `Option` and `Result`.
- `utils.dfy`: module `Utils`. Distances: `SquaredDistance`,
  `CalculateDistance`, the reference value `DistanceMatrix`, and the method
  `CreateDistanceMatrix`. It fills an `array2<real>` of zeros in place with
  the source's two nested loops. Validation: the `Config` record and the
  method `ValidateConfig`, proved against the predicate `IsValidConfig`.
- `aco_solver.dfy`: module `AcoSolver`. The classes `Graph` and `ACO` have
  constructors that store their arguments. The pure core of `solve` is
  `SolveOn`: `StubRoutes` builds the routes, `ConsecutivePairs`/`Pairs` give
  the pairs in the order the generator visits them, and `SumOver` adds them
  from the left. `ACO.Solve` is the class's method and returns
  `SolveOn(graph.distanceMatrix)`. Its cost is proved equal to the reference
  sum `DepotRoundTrips`, which is Σᵢ (d[0][i] + d[i][0]).
- `pipeline.dfy`: module `Pipeline`. It runs `solve` on a matrix built by
  `create_distance_matrix` and proves the cost is twice the sum of the
  depot-to-customer distances.

Modelling choices:

- Distances are `real`. `np.linalg.norm([lat2 - lat1, lon2 - lon1])` is
  `sqrt` applied to the sum of squared coordinate differences. `sqrt` is a
  parameter (`real -> real`) and is left uninterpreted, so every property
  holds for any choice of it. Symmetry follows because (a − b)² = (b − a)².
- Python's `IndexError` in `solve` is `Err(IndexError)`. It is raised when
  a row of a ragged matrix is too short for `d[0][i]` or `d[i][0]`.
  `SolveOn` succeeds exactly when `LookupsInRange` holds. A square matrix
  always satisfies it.
- `validate_config` receives `Option<Config>`. `None` is Python's `None`.
  `Config` has one optional field per required key ("Depot", "Cities",
  "Vehicles") plus the set of any other keys. A city and the vehicle record
  have one optional field per key. "Falsy" means `None` or a dictionary
  with no keys at all. "Capacity" and "Number" are reals, so both integral
  and fractional values are covered, as Python's `<= 0` compares either.

## Model

| member | source | states |
|---|---|---|
| `AcoSolver.Graph.constructor` | aco_solver.py:4-7 | the graph stores the distance matrix, demands and vehicle capacity it is given, unchanged |
| `AcoSolver.ACO.constructor` | aco_solver.py:10-15 | the solver stores the number of ants, iterations, alpha, beta and evaporation rate it is given, unchanged |
| `AcoSolver.ACO.Solve` | aco_solver.py:17-22 | the result depends only on the graph's distance matrix (never on demands, capacity or any solver parameter); the method has no modifies clause, so it changes no field |
| `AcoSolver.SolveOn` | aco_solver.py:19-22 | solve succeeds exactly when every lookup `d[0][i]`, `d[i][0]` is inside the matrix, and otherwise fails with IndexError; on success the routes are the placeholder routes and the cost equals Σ_{i=1}^{n-1} (d[0][i] + d[i][0]) |
| `AcoSolver.StubRoutes` | aco_solver.py:20 | definition with no contract of its own: the comprehension `[[0, i, 0] for i in range(1, n)]`; its properties are proved by StubRoutesShape, StubRoutesCoverage and StubRoutesGrow |
| `AcoSolver.Pairs` | aco_solver.py:21 | definition with no contract of its own: the pairs `(i, j)` the generator visits, route by route, over `zip(route, route[1:])`; its properties are proved by PairsAppend and StubPairsAt |
| `AcoSolver.SumOver` | aco_solver.py:21 | definition with no contract of its own: `sum` of `distance_matrix[i][j]` over those pairs, added from the left starting at 0; its properties are proved by SumOverAppend and StubCost |
| `AcoSolver.StubRoutesShape` | aco_solver.py:20 | there are n−1 routes (none when the matrix is empty), route k is `[0, k+1, 0]`, and every route has length 3 and starts and ends at depot 0 |
| `AcoSolver.StubRoutesCoverage` | aco_solver.py:20 | every customer 1..n−1 is visited by exactly one route, no route visits a node ≥ n, and the depot is never a route's middle node |
| `AcoSolver.StubRoutesGrow` | aco_solver.py:20 | the routes for n nodes are the routes for n−1 nodes followed by the round trip to customer n−1 |
| `AcoSolver.ConsecutivePairs` | aco_solver.py:21 | `zip(route, route[1:])` has one pair fewer than the route has nodes (none for an empty route), and pair k is (route[k], route[k+1]) |
| `AcoSolver.PairsAppend` | aco_solver.py:21 | the pairs the generator visits for a concatenation of route lists are the pairs of the first list followed by those of the second |
| `AcoSolver.StubPairsAt` | aco_solver.py:20-21 | the placeholder routes yield 2(n−1) pairs that alternate between (0, i) and (i, 0) for each customer i in turn |
| `AcoSolver.StubPairsInMatrix` | aco_solver.py:21 | every pair of the placeholder routes is a cell of the matrix if and only if the lookups are in range (both directions) |
| `AcoSolver.SumOverAppend` | aco_solver.py:21 | the sum over a concatenation of pairs is the sum of the two sums, and the concatenation stays inside the matrix |
| `AcoSolver.StubCost` | aco_solver.py:19-21 | the summed cost of the placeholder routes for the first m nodes equals the reference sum of depot round trips |
| `AcoSolver.SolveOnInRange` | aco_solver.py:19-22 | when the lookups are in range, solve returns exactly the placeholder routes paired with the reference cost Σ (d[0][i] + d[i][0]) |
| `AcoSolver.SquareMatrixSolves` | aco_solver.py:19-21 | on a square matrix solve never raises |
| `AcoSolver.DepotOnlySolution` | aco_solver.py:19-21 | with only the depot, or an empty matrix, the solution has no routes and cost 0 |
| `Utils.SquaredDistance` | utils.py:14 | the squared length of the difference vector is never negative |
| `Utils.CalculateDistance` | utils.py:14 | definition with no contract of its own: `sqrt` of SquaredDistance, as `np.linalg.norm([lat2 - lat1, lon2 - lon1])`; its properties are proved by CalculateDistanceSymmetric and CalculateDistanceToSelf |
| `Utils.CalculateDistanceSymmetric` | utils.py:14 | `calculate_distance(a, b, c, d) == calculate_distance(c, d, a, b)` |
| `Utils.CalculateDistanceToSelf` | utils.py:14 | the distance from a point to itself is the root of zero |
| `Utils.DistanceMatrix` | utils.py:26-33 | definition with no contract of its own: the value of the matrix create_distance_matrix builds, 0 on the diagonal and the distance elsewhere; its properties are proved by DistanceMatrixEntries and DistanceMatrixSymmetric, and CreateDistanceMatrix is proved to produce it |
| `Utils.DistanceMatrixEntries` | utils.py:26-33 | the matrix is n×n for n locations (0×0 for none), its diagonal is 0, and entry [i][j] for i ≠ j is the distance between locations i and j |
| `Utils.DistanceMatrixSymmetric` | utils.py:29-32 | entry [i][j] equals entry [j][i] for all i, j |
| `Utils.CreateDistanceMatrix` | utils.py:26-33 | the method returns a freshly allocated n×n array whose every cell equals the reference matrix: zeros left on the diagonal, distances written everywhere else |
| `Utils.CityKeysPresent` | utils.py:56 | `all(k in city for k in ["City", "Latitude", "Longitude", "Demand"])` holds exactly when the city has all four fields |
| `Utils.ValidateConfig` | utils.py:45-65 | returns True exactly when the configuration is valid: it has a depot, cities that each have all four fields, and a vehicle record with both capacity and number present and positive; otherwise False |
| `Utils.IsFalsy` | utils.py:45 | definition with no contract of its own: Python's `not config`, true for None or an empty dictionary; FalsyConfigInvalid proves such a configuration is rejected |
| `Utils.FalsyConfigInvalid` | utils.py:45-46 | a configuration that is None or an empty dictionary is invalid |
| `Utils.MissingKeyInvalid` | utils.py:49-52 | a configuration missing "Depot", "Cities" or "Vehicles" is invalid |
| `Utils.IncompleteCityInvalid` | utils.py:55-57 | a configuration with a city missing "City", "Latitude", "Longitude" or "Demand" is invalid |
| `Utils.IncompleteVehiclesInvalid` | utils.py:60-61 | a vehicle record missing "Capacity" or "Number" makes the configuration invalid |
| `Utils.DepotAndDemandsIgnored` | utils.py:45-65 | validity is unchanged when the depot's contents or the values of the city fields (demands among them) change, as long as the same city keys are present |
| `Pipeline.DistanceMatrixIsSquare` | utils.py:26-33 | the matrix create_distance_matrix builds is square, so solve's lookups on it are in range |
| `Pipeline.RoundTripsAreTwiceDepotDistances` | aco_solver.py:21 | on that matrix Σᵢ (d[0][i] + d[i][0]) is twice the sum of the depot-to-customer distances |
| `Pipeline.SolvedAtCost` | aco_solver.py:19-22 | when the lookups of an n-node matrix are in range and its depot round trips add up to c, solve returns the placeholder routes for n nodes at cost c |
| `Pipeline.SolveOnBuiltMatrix` | aco_solver.py:19-22 | solve on a matrix built from n locations never fails; it returns the n−1 depot round trips, and its cost is twice the sum of the distances from the depot to each customer |

## Left out

- Home.py and the Streamlit page pages/1_CVRP_Solver.py: input forms, random city generation, maps, session state and JSON download are presentation and I/O. The page's inline matrix loop computes the same matrix as `create_distance_matrix`, and the `Pipeline` module models the page running solve on such a matrix.
- `visualize_route_on_map` (utils.py:67-84): it only draws folium polylines, which is a call into a foreign library.
- Floating point: distances are reals. The square root is the uninterpreted parameter `sqrt`, so its non-negativity and the triangle inequality are not modelled. The order of float additions in `sum` is modelled (left to right), but rounding is not. Python's integer `0` for an empty sum is the real `0.0`.
- The ant-colony algorithm (pheromone matrix, transition probabilities, evaporation, capacity-feasible construction, fleet-size bound, iterations) is not modelled, because the code does not contain it. `solve` is a placeholder.
- Graph: the model stores the distance matrix as its value (rows as sequences), not as a reference to a numpy array. Aliasing of the matrix object is not captured. `CreateDistanceMatrix` returns an array. `DistanceMatrix` gives its value, which is what the `Pipeline` lemmas pass to `SolveOn`.
- `Graph.demands` is a `seq<int>` and `Graph.vehicleCapacity` an `int`; the five `ACO` parameters are `int` (ants, iterations) and `real` (alpha, beta, evaporation rate). Python would accept values of any type here, which does not matter because `solve` never reads any of these seven fields.
- `ValidateConfig`: values of the wrong type are not modelled. Examples: a `null` city list, "Cities" or "Vehicles" that is not a list or dictionary, a non-numeric capacity, a configuration that is not a dictionary. In Python each of these raises a TypeError or is tested by a different `in`. Keys present with a `null` value are not modelled either.
- `CreateDistanceMatrix`: each location is a (latitude, longitude) pair. A location tuple with fewer than two components, which would raise IndexError in Python, is not modelled.
