/**
 * The helpers of utils.py: the straight-line distance between two points,
 * the distance matrix over a list of locations, and the validator of a
 * problem configuration.
 *
 * The square root that np.linalg.norm takes of the sum of squared
 * coordinate differences is a parameter `sqrt`: nothing below depends on
 * what it computes, so every property holds for every choice of it.
 */
module Utils {
  import opened Wrappers

  /** A location as the (latitude, longitude) pair the source passes around. */
  type Location = (real, real)

  /**
   * The squared length of the difference vector [lat2 - lat1, lon2 - lon1].
   * It is never negative, so CalculateDistance only ever takes the square
   * root of a non-negative number, as np.linalg.norm does.
   */
  function SquaredDistance(lat1: real, lon1: real, lat2: real, lon2: real): (s: real)
    ensures s >= 0.0
  {
    var dlat, dlon := lat2 - lat1, lon2 - lon1;
    SquareNonNegative(dlat);
    SquareNonNegative(dlon);
    dlat * dlat + dlon * dlon
  }

  /** A square is never negative. */
  lemma SquareNonNegative(x: real)
    ensures x * x >= 0.0
  {
    if x < 0.0 {
      var y := -x;
      assert y * y > 0.0;
      assert x * x == y * y;
    }
  }

  /**
   * Euclidean distance between two points: the norm of their difference,
   * the square root of the (non-negative) SquaredDistance.
   */
  function CalculateDistance(sqrt: real -> real, lat1: real, lon1: real, lat2: real, lon2: real): real
  {
    sqrt(SquaredDistance(lat1, lon1, lat2, lon2))
  }

  /** Swapping the two points gives the same distance. */
  lemma CalculateDistanceSymmetric(sqrt: real -> real, lat1: real, lon1: real, lat2: real, lon2: real)
    ensures CalculateDistance(sqrt, lat1, lon1, lat2, lon2) == CalculateDistance(sqrt, lat2, lon2, lat1, lon1)
  {
    assert (lat2 - lat1) * (lat2 - lat1) == (lat1 - lat2) * (lat1 - lat2);
    assert (lon2 - lon1) * (lon2 - lon1) == (lon1 - lon2) * (lon1 - lon2);
  }

  /** The distance from a point to itself is the root of zero. */
  lemma CalculateDistanceToSelf(sqrt: real -> real, lat: real, lon: real)
    ensures CalculateDistance(sqrt, lat, lon, lat, lon) == sqrt(0.0)
  {
  }

  /**
   * The matrix create_distance_matrix returns, as a value: zero on the
   * diagonal (the cells the loop never writes), the distance between
   * locations i and j elsewhere.
   */
  function DistanceMatrix(sqrt: real -> real, locations: seq<Location>): seq<seq<real>>
  {
    seq(|locations|, i requires 0 <= i < |locations| =>
      seq(|locations|, j requires 0 <= j < |locations| =>
        if i == j then 0.0
        else CalculateDistance(sqrt, locations[i].0, locations[i].1, locations[j].0, locations[j].1)))
  }

  /** The matrix is square over the locations, with zero diagonal and the pairwise distances. */
  lemma DistanceMatrixEntries(sqrt: real -> real, locations: seq<Location>)
    ensures var m := DistanceMatrix(sqrt, locations);
      |m| == |locations| &&
      (forall i :: 0 <= i < |m| ==> |m[i]| == |locations|) &&
      (forall i :: 0 <= i < |m| ==> m[i][i] == 0.0) &&
      (forall i, j :: 0 <= i < |m| && 0 <= j < |m| && i != j ==>
        m[i][j] == CalculateDistance(sqrt, locations[i].0, locations[i].1, locations[j].0, locations[j].1))
  {
  }

  /** The matrix is symmetric. */
  lemma DistanceMatrixSymmetric(sqrt: real -> real, locations: seq<Location>)
    ensures var m := DistanceMatrix(sqrt, locations);
      forall i, j :: 0 <= i < |m| && 0 <= j < |m| ==> |m[i]| == |m[j]| == |m| && m[i][j] == m[j][i]
  {
    var m := DistanceMatrix(sqrt, locations);
    forall i, j | 0 <= i < |m| && 0 <= j < |m|
      ensures m[i][j] == m[j][i]
    {
      CalculateDistanceSymmetric(sqrt, locations[i].0, locations[i].1, locations[j].0, locations[j].1);
    }
  }

  /**
   * create_distance_matrix: allocate an n-by-n matrix of zeros and fill every
   * off-diagonal cell, row by row, with the distance between two locations.
   */
  method CreateDistanceMatrix(sqrt: real -> real, locations: seq<Location>) returns (m: array2<real>)
    ensures fresh(m)
    ensures m.Length0 == |locations| && m.Length1 == |locations|
    ensures forall i, j :: 0 <= i < m.Length0 && 0 <= j < m.Length1 ==>
      m[i, j] == DistanceMatrix(sqrt, locations)[i][j]
  {
    var n := |locations|;
    ghost var spec := DistanceMatrix(sqrt, locations);
    m := new real[n, n]((i, j) => 0.0);
    for i := 0 to n
      invariant forall a, b :: 0 <= a < n && 0 <= b < n ==>
        m[a, b] == if a < i then spec[a][b] else 0.0
    {
      for j := 0 to n
        invariant forall a, b :: 0 <= a < n && 0 <= b < n ==>
          m[a, b] == if a < i || (a == i && b < j) then spec[a][b] else 0.0
      {
        if i != j {
          m[i, j] := CalculateDistance(sqrt, locations[i].0, locations[i].1, locations[j].0, locations[j].1);
        }
      }
    }
  }

  /*
   * The configuration validate_config inspects: a dictionary with the keys
   * "Depot", "Cities" and "Vehicles" (each possibly absent) and any other
   * keys, whose values are never read. Within a city and within the
   * vehicle record a field is None when its key is absent.
   */

  /** The depot record; validate_config never looks inside it. */
  datatype Depot = Depot(latitude: Option<real>, longitude: Option<real>)

  /** One city record, with its keys "City", "Latitude", "Longitude" and "Demand". */
  datatype City = City(name: Option<string>, latitude: Option<real>, longitude: Option<real>, demand: Option<int>)

  /**
   * The vehicle record, with its keys "Capacity" and "Number". Their values
   * are numbers, integral or not: Python's `<= 0` accepts either.
   */
  datatype Vehicles = Vehicles(capacity: Option<real>, number: Option<real>)

  datatype Config = Config(
    depot: Option<Depot>,
    cities: Option<seq<City>>,
    vehicles: Option<Vehicles>,
    otherKeys: set<string>)

  /** The keys validate_config requires of a configuration, in the order it checks them. */
  const RequiredKeys: seq<string> := ["Depot", "Cities", "Vehicles"]

  /** The keys it requires of every city, in the order it checks them. */
  const CityKeys: seq<string> := ["City", "Latitude", "Longitude", "Demand"]

  /** The keys present in a configuration dictionary. */
  function Keys(c: Config): set<string>
  {
    (c.otherKeys - {"Depot", "Cities", "Vehicles"})
    + (if c.depot.Some? then {"Depot"} else {})
    + (if c.cities.Some? then {"Cities"} else {})
    + (if c.vehicles.Some? then {"Vehicles"} else {})
  }

  /** The keys present in a city dictionary. */
  function CityKeySet(city: City): set<string>
  {
    (if city.name.Some? then {"City"} else {})
    + (if city.latitude.Some? then {"Latitude"} else {})
    + (if city.longitude.Some? then {"Longitude"} else {})
    + (if city.demand.Some? then {"Demand"} else {})
  }

  /** A top-level key is present exactly when its field is. */
  lemma KeysPresent(c: Config)
    ensures "Depot" in Keys(c) <==> c.depot.Some?
    ensures "Cities" in Keys(c) <==> c.cities.Some?
    ensures "Vehicles" in Keys(c) <==> c.vehicles.Some?
  {
    assert "Depot"[0] != "Cities"[0] && "Depot"[0] != "Vehicles"[0] && "Cities"[0] != "Vehicles"[0];
  }

  /** A city has every required key exactly when it has all four fields. */
  lemma CityKeysPresent(city: City)
    ensures (forall key :: key in CityKeys ==> key in CityKeySet(city)) <==> IsCompleteCity(city)
  {
    assert "City"[0] != "Latitude"[0] && "City"[0] != "Longitude"[0] && "City"[0] != "Demand"[0];
    assert "Latitude"[0] != "Demand"[0] && "Longitude"[0] != "Demand"[0];
    assert "Latitude"[1] != "Longitude"[1];
    if IsCompleteCity(city) {
      assert forall key :: key in CityKeys ==> key in CityKeySet(city);
    } else if city.name.None? {
      assert CityKeys[0] !in CityKeySet(city);
    } else if city.latitude.None? {
      assert CityKeys[1] !in CityKeySet(city);
    } else if city.longitude.None? {
      assert CityKeys[2] !in CityKeySet(city);
    } else {
      assert CityKeys[3] !in CityKeySet(city);
    }
  }

  /** Python's `not config`: the configuration is None or an empty dictionary. */
  predicate IsFalsy(config: Option<Config>)
  {
    config.None? || Keys(config.value) == {}
  }

  /** A city that has all four fields. */
  predicate IsCompleteCity(city: City)
  {
    city.name.Some? && city.latitude.Some? && city.longitude.Some? && city.demand.Some?
  }

  /**
   * What a valid configuration is: it has a depot, a list of cities each
   * with all four fields, and a vehicle record whose capacity and number
   * are both present and positive.
   */
  predicate IsValidConfig(config: Option<Config>)
  {
    config.Some? &&
    var c := config.value;
    c.depot.Some? && c.cities.Some? && c.vehicles.Some? &&
    (forall city :: city in c.cities.value ==> IsCompleteCity(city)) &&
    c.vehicles.value.capacity.Some? && c.vehicles.value.number.Some? &&
    c.vehicles.value.capacity.value > 0.0 && c.vehicles.value.number.value > 0.0
  }

  /**
   * validate_config: reject a falsy configuration, then a missing top-level
   * key, then a city missing a field, then a vehicle record missing
   * "Capacity" or "Number", then a capacity or number that is not positive.
   */
  method ValidateConfig(config: Option<Config>) returns (isValid: bool)
    ensures isValid == IsValidConfig(config)
  {
    if IsFalsy(config) {
      return false;
    }
    var c := config.value;
    KeysPresent(c);
    for k := 0 to |RequiredKeys|
      invariant forall k' :: 0 <= k' < k ==> RequiredKeys[k'] in Keys(c)
    {
      if RequiredKeys[k] !in Keys(c) {
        return false;
      }
    }
    assert RequiredKeys[0] in Keys(c) && RequiredKeys[1] in Keys(c) && RequiredKeys[2] in Keys(c);
    var cities := c.cities.value;
    for i := 0 to |cities|
      invariant forall i' :: 0 <= i' < i ==> IsCompleteCity(cities[i'])
    {
      CityKeysPresent(cities[i]);
      if !(forall key :: key in CityKeys ==> key in CityKeySet(cities[i])) {
        return false;
      }
    }
    assert forall city :: city in cities ==> IsCompleteCity(city);
    var vehicles := c.vehicles.value;
    if vehicles.capacity.None? || vehicles.number.None? {
      return false;
    }
    if vehicles.capacity.value <= 0.0 || vehicles.number.value <= 0.0 {
      return false;
    }
    return true;
  }

  /** A falsy configuration (None or an empty dictionary) is invalid. */
  lemma FalsyConfigInvalid(config: Option<Config>)
    requires IsFalsy(config)
    ensures !IsValidConfig(config)
  {
    if config.Some? {
      KeysPresent(config.value);
    }
  }

  /** A configuration that lacks "Depot", "Cities" or "Vehicles" is invalid. */
  lemma MissingKeyInvalid(c: Config, key: string)
    requires key in RequiredKeys && key !in Keys(c)
    ensures !IsValidConfig(Some(c))
  {
    KeysPresent(c);
  }

  /** A configuration with a city that lacks one of its four keys is invalid. */
  lemma IncompleteCityInvalid(c: Config, i: nat, key: string)
    requires c.cities.Some? && i < |c.cities.value|
    requires key in CityKeys && key !in CityKeySet(c.cities.value[i])
    ensures !IsValidConfig(Some(c))
  {
    CityKeysPresent(c.cities.value[i]);
  }

  /** A vehicle record without "Capacity" or without "Number" makes the configuration invalid. */
  lemma IncompleteVehiclesInvalid(c: Config)
    requires c.vehicles.Some?
    requires c.vehicles.value.capacity.None? || c.vehicles.value.number.None?
    ensures !IsValidConfig(Some(c))
  {
  }

  /**
   * Validity does not depend on what the depot holds, nor on the values of
   * the city fields, only on which city fields are present.
   */
  lemma DepotAndDemandsIgnored(c: Config, depot: Depot, cities: seq<City>)
    requires c.depot.Some? && c.cities.Some? && |cities| == |c.cities.value|
    requires forall i :: 0 <= i < |cities| ==> CityKeySet(cities[i]) == CityKeySet(c.cities.value[i])
    ensures IsValidConfig(Some(c)) == IsValidConfig(Some(c.(depot := Some(depot), cities := Some(cities))))
  {
    var before := c.cities.value;
    forall i | 0 <= i < |cities|
      ensures IsCompleteCity(cities[i]) == IsCompleteCity(before[i])
    {
      CityKeysPresent(cities[i]);
      CityKeysPresent(before[i]);
    }
    assert (forall city :: city in cities ==> IsCompleteCity(city)) <==>
           (forall i :: 0 <= i < |cities| ==> IsCompleteCity(cities[i]));
    assert (forall city :: city in before ==> IsCompleteCity(city)) <==>
           (forall i :: 0 <= i < |before| ==> IsCompleteCity(before[i]));
  }
}
