/**
 * The fuel-stop planner (plan_fuel_stops): one forward pass over the route
 * that accumulates segment distances, triggers a stop decision when the
 * accumulated distance reaches the range or the route ends, buys at the
 * cheapest station within the radius of the trigger point, and totals the
 * cost of the stops.
 */
module Planner {
  import opened Wrappers
  import opened Route
  import opened Stations
  import opened NearbySearch

  /** One recorded stop; gallons and cost are the rounded figures. */
  datatype FuelStop = FuelStop(location: GeoPoint, stationName: string, pricePerGallon: real,
                               gallons: real, cost: real)

  /** The planner's answer. */
  datatype FuelPlan = FuelPlan(totalDistanceMiles: real, fuelNeededGallons: real, estimatedCost: real,
                               fuelStops: seq<FuelStop>, routeCoords: seq<GeoPoint>)

  /** Why planning fails: the fuel figure divides by mpg == 0
      (ZeroDivisionError), or a station search runs on an empty table. */
  datatype PlanError = DivisionByZero | SearchFailed(reason: SearchError)

  /** Everything one planning run depends on: the route, the station table,
      the vehicle figures, the distance oracle and the rounding to cents. */
  datatype Trip = Trip(route: seq<GeoPoint>, stations: seq<Station>, mpg: real, rangeMiles: real,
                       radius: real, dist: (GeoPoint, GeoPoint) -> real, round2: real -> real)

  /** The i-th segment, from route[i-1] to route[i]. */
  function Segment(t: Trip, i: int): real
    requires 1 <= i < |t.route|
  {
    t.dist(t.route[i - 1], t.route[i])
  }

  /** accumulated_distance right after segment i has been added. It starts
      afresh after every trigger, whatever the station search found. */
  function Accumulated(t: Trip, i: int): real
    requires 1 <= i < |t.route|
    decreases i, 0
  {
    (if i > 1 && !Triggered(t, i - 1) then Accumulated(t, i - 1) else 0.0) + Segment(t, i)
  }

  /** A stop decision is taken at index i: the range is reached or the route ends. */
  predicate Triggered(t: Trip, i: int)
    requires 1 <= i < |t.route|
    ensures i == |t.route| - 1 ==> Triggered(t, i)
    decreases i, 1
  {
    Accumulated(t, i) >= t.rangeMiles || i == |t.route| - 1
  }

  /** What the station search gives at route[i], up to the order of equal prices. */
  function OffersAt(t: Trip, i: int): seq<Offer>
    requires 0 <= i < |t.route|
  {
    OffersInRadius(t.route[i], t.stations, t.radius, t.dist)
  }

  predicate HasStation(t: Trip, i: int)
    requires 0 <= i < |t.route|
  {
    |OffersAt(t, i)| > 0
  }

  /** The indices below k at which a stop is recorded, in route order. */
  function StopIndices(t: Trip, k: int): (r: seq<int>)
    requires 1 <= k <= |t.route|
    ensures |r| <= k - 1
    ensures forall j :: 0 <= j < |r| ==> 1 <= r[j] < k
    ensures forall j, j' :: 0 <= j < j' < |r| ==> r[j] < r[j']
  {
    if k == 1 then []
    else StopIndices(t, k - 1) + (if Triggered(t, k - 1) && HasStation(t, k - 1) then [k - 1] else [])
  }

  /** The stop indices of the whole pass over indices 1 .. |route| - 1. */
  function AllStopIndices(t: Trip): seq<int> {
    if |t.route| < 2 then [] else StopIndices(t, |t.route|)
  }

  /** Fuel bought at a stop at index i: the last segment's worth at the end
      of the route, a full range's worth anywhere else. */
  function Gallons(t: Trip, i: int): (g: real)
    requires 1 <= i < |t.route|
    requires t.mpg != 0.0
    ensures g * t.mpg == (if i == |t.route| - 1 then Segment(t, i) else t.rangeMiles)
  {
    if i == |t.route| - 1 then Segment(t, i) / t.mpg else t.rangeMiles / t.mpg
  }

  /** What a stop's fuel costs: the gallons bought times the price per gallon. */
  function Cost(gallons: real, price: real): (c: real)
    ensures gallons >= 0.0 && price >= 0.0 ==> c >= 0.0
  {
    gallons * price
  }

  /** (name, price) is offered by a station in `offers` and nothing there is cheaper. */
  predicate IsCheapest(name: string, price: real, offers: seq<Offer>) {
    && (exists o :: o in offers && o.name == name && o.price == price)
    && (forall o :: o in offers ==> price <= o.price)
  }

  /** The record a stop at index i must carry. */
  predicate IsStopAt(t: Trip, i: int, s: FuelStop)
    requires 1 <= i < |t.route|
    requires t.mpg != 0.0
  {
    && s.location == t.route[i]
    && IsCheapest(s.stationName, s.pricePerGallon, OffersAt(t, i))
    && s.gallons == t.round2(Gallons(t, i))
    && s.cost == t.round2(Cost(Gallons(t, i), s.pricePerGallon))
  }

  /** stops[j] is the record of the j-th stop index below k. */
  predicate StopsUpTo(t: Trip, k: int, stops: seq<FuelStop>)
    requires 1 <= k <= |t.route|
    requires t.mpg != 0.0
  {
    var idx := StopIndices(t, k);
    |stops| == |idx| && forall j :: 0 <= j < |stops| ==> IsStopAt(t, idx[j], stops[j])
  }

  /** The stops of a whole plan. */
  predicate PlannedStops(t: Trip, stops: seq<FuelStop>)
    requires t.mpg != 0.0
  {
    if |t.route| < 2 then stops == [] else StopsUpTo(t, |t.route|, stops)
  }

  /** The total of the stop costs, added from the first stop to the last. */
  function SumCosts(stops: seq<FuelStop>): (r: real)
    ensures (forall k :: 0 <= k < |stops| ==> stops[k].cost >= 0.0) ==> r >= 0.0
  {
    if stops == [] then 0.0 else SumCosts(stops[..|stops| - 1]) + stops[|stops| - 1].cost
  }

  /**
   * plan_fuel_stops once the route and the station table are at hand.
   * Fails when mpg is 0, and when a route of two or more points (whose end
   * always triggers a search) meets an empty station table; otherwise the
   * plan's stops are those of the trigger rule, its cost is the rounded sum
   * of the rounded stop costs, and its fuel figure comes from the total
   * distance alone.
   */
  method PlanFuelStops(routeCoords: seq<GeoPoint>, totalDistance: real, stations: seq<Station>,
                       mpg: real, rangeMiles: real, radius: real,
                       dist: (GeoPoint, GeoPoint) -> real, round2: real -> real)
    returns (result: Result<FuelPlan, PlanError>)
    ensures result == Err(DivisionByZero) <==> mpg == 0.0
    ensures result.Err? <==> mpg == 0.0 || (|routeCoords| >= 2 && |stations| == 0)
    ensures result.Ok? ==>
      var t := Trip(routeCoords, stations, mpg, rangeMiles, radius, dist, round2);
      var plan := result.value;
      && plan.totalDistanceMiles == round2(totalDistance)
      && plan.fuelNeededGallons == round2(totalDistance / mpg)
      && PlannedStops(t, plan.fuelStops)
      && plan.estimatedCost == round2(SumCosts(plan.fuelStops))
      && plan.routeCoords == routeCoords
    ensures result.Ok? && |routeCoords| < 2 && round2(0.0) == 0.0 ==>
      result.value.fuelStops == [] && result.value.estimatedCost == 0.0
  {
    if mpg == 0.0 {
      return Err(DivisionByZero);
    }
    var fuelNeeded := totalDistance / mpg;
    var planned := PlanStops(routeCoords, stations, mpg, rangeMiles, radius, dist, round2);
    if planned.Err? {
      return Err(SearchFailed(planned.error));
    }
    var stops := planned.value;
    var totalCost := TotalCost(stops);
    return Ok(FuelPlan(round2(totalDistance), round2(fuelNeeded), round2(totalCost), stops, routeCoords));
  }

  /**
   * The pass over the route: accumulates segment distances, takes a stop
   * decision when the range is reached or the route ends, and records a stop
   * at the cheapest station within the radius, if any. Fails at the first
   * decision whose station search fails, that is exactly when the route has
   * two or more points and the station table is empty.
   */
  method PlanStops(routeCoords: seq<GeoPoint>, stations: seq<Station>,
                   mpg: real, rangeMiles: real, radius: real,
                   dist: (GeoPoint, GeoPoint) -> real, round2: real -> real)
    returns (result: Result<seq<FuelStop>, SearchError>)
    requires mpg != 0.0
    ensures result.Err? <==> |routeCoords| >= 2 && |stations| == 0
    ensures result.Ok? ==>
      PlannedStops(Trip(routeCoords, stations, mpg, rangeMiles, radius, dist, round2), result.value)
  {
    var t := Trip(routeCoords, stations, mpg, rangeMiles, radius, dist, round2);
    var stops: seq<FuelStop> := [];
    var accumulatedDistance := 0.0;
    if |routeCoords| >= 2 {
      for i := 1 to |routeCoords|
        invariant accumulatedDistance == (if i > 1 && !Triggered(t, i - 1) then Accumulated(t, i - 1) else 0.0)
        invariant StopsUpTo(t, i, stops)
        invariant |stations| == 0 ==> i < |routeCoords|
      {
        var segmentDist := dist(routeCoords[i - 1], routeCoords[i]);
        accumulatedDistance := accumulatedDistance + segmentDist;
        if accumulatedDistance >= rangeMiles || i == |routeCoords| - 1 {
          var decided := StopAt(t, i, segmentDist, stops);
          if decided.Err? {
            return Err(decided.error);
          }
          stops := decided.value;
          accumulatedDistance := 0.0;
        } else {
          SkipIndex(t, i, stops);
        }
      }
    }
    return Ok(stops);
  }

  /**
   * The stop decision at a triggering index i: search the stations around
   * route[i] and, if any is in range, record a stop at the first (cheapest)
   * of them, buying the final leg's fuel at the end of the route and a full
   * range's fuel anywhere else. Fails when the search does.
   */
  method StopAt(t: Trip, i: int, segmentDist: real, stops: seq<FuelStop>)
    returns (result: Result<seq<FuelStop>, SearchError>)
    requires 1 <= i < |t.route| && t.mpg != 0.0
    requires segmentDist == Segment(t, i) && Triggered(t, i)
    requires StopsUpTo(t, i, stops)
    ensures result.Err? <==> |t.stations| == 0
    ensures result.Ok? ==> StopsUpTo(t, i + 1, result.value)
  {
    var point := t.route[i];
    var search := FindNearbyStations(point, t.stations, t.radius, t.dist);
    if search.Err? {
      return Err(search.error);
    }
    var nearbyStations := search.value;
    assert SortedByPrice(nearbyStations) && multiset(nearbyStations) == multiset(OffersAt(t, i));
    if |nearbyStations| > 0 {
      var best := nearbyStations[0];
      var gallonsNeeded := if i == |t.route| - 1 then segmentDist / t.mpg else t.rangeMiles / t.mpg;
      var cost := Cost(gallonsNeeded, best.price);
      assert gallonsNeeded == Gallons(t, i);
      var stop := FuelStop(point, best.name, best.price, t.round2(gallonsNeeded), t.round2(cost));
      BestStopFits(t, i, nearbyStations);
      RecordStop(t, i, stops, stop);
      return Ok(stops + [stop]);
    } else {
      SkipIndex(t, i, stops);
      return Ok(stops);
    }
  }

  /** Adds up the stop costs in list order. */
  method TotalCost(stops: seq<FuelStop>) returns (total: real)
    ensures total == SumCosts(stops)
  {
    total := 0.0;
    for j := 0 to |stops|
      invariant total == SumCosts(stops[..j])
    {
      assert stops[..j + 1][..j] == stops[..j];
      total := total + stops[j].cost;
    }
    assert stops[..|stops|] == stops;
  }

  /** One more index either adds itself to the stop indices or adds nothing. */
  lemma StopIndicesStep(t: Trip, i: int)
    requires 1 <= i < |t.route|
    ensures StopIndices(t, i + 1) ==
      StopIndices(t, i) + (if Triggered(t, i) && HasStation(t, i) then [i] else [])
  {
  }

  /** A stop recorded at a triggering index with a station extends the plan by one. */
  lemma RecordStop(t: Trip, i: int, stops: seq<FuelStop>, s: FuelStop)
    requires 1 <= i < |t.route| && t.mpg != 0.0
    requires StopsUpTo(t, i, stops)
    requires Triggered(t, i) && HasStation(t, i) && IsStopAt(t, i, s)
    ensures StopsUpTo(t, i + 1, stops + [s])
  {
    var idx, idx' := StopIndices(t, i), StopIndices(t, i + 1);
    StopIndicesStep(t, i);
    var stops' := stops + [s];
    forall j | 0 <= j < |stops'| ensures IsStopAt(t, idx'[j], stops'[j]) {
      if j < |stops| {
        assert idx'[j] == idx[j] && stops'[j] == stops[j];
      }
    }
  }

  /** An index that triggers nothing, or finds no station, adds no stop. */
  lemma SkipIndex(t: Trip, i: int, stops: seq<FuelStop>)
    requires 1 <= i < |t.route| && t.mpg != 0.0
    requires StopsUpTo(t, i, stops)
    requires !(Triggered(t, i) && HasStation(t, i))
    ensures StopsUpTo(t, i + 1, stops)
  {
    StopIndicesStep(t, i);
  }

  /** The record built from the head of the search result is the stop the
      trigger rule asks for. */
  lemma BestStopFits(t: Trip, i: int, nearby: seq<Offer>)
    requires 1 <= i < |t.route| && t.mpg != 0.0
    requires SortedByPrice(nearby) && multiset(nearby) == multiset(OffersAt(t, i))
    requires |nearby| > 0
    ensures var g := Gallons(t, i);
      IsStopAt(t, i, FuelStop(t.route[i], nearby[0].name, nearby[0].price, t.round2(g), t.round2(Cost(g, nearby[0].price))))
  {
    CheapestFirst(nearby, OffersAt(t, i));
    var g := Gallons(t, i);
    var s := FuelStop(t.route[i], nearby[0].name, nearby[0].price, t.round2(g), t.round2(Cost(g, nearby[0].price)));
  }

  /** The head of a price-sorted permutation of the offers is a cheapest offer. */
  lemma CheapestFirst(sorted: seq<Offer>, offers: seq<Offer>)
    requires SortedByPrice(sorted)
    requires multiset(sorted) == multiset(offers)
    requires |sorted| > 0
    ensures IsCheapest(sorted[0].name, sorted[0].price, offers)
  {
    assert sorted[0] in multiset(offers);
    forall o | o in offers ensures sorted[0].price <= o.price {
      assert o in multiset(sorted);
    }
  }
  // ---------------------------------------------------------------------
  // Properties of the trigger rule

  /** An index is a stop index exactly when it triggers and finds a station. */
  lemma {:induction false} StopIndicesMembers(t: Trip, k: int, i: int)
    requires 1 <= k <= |t.route|
    ensures i in StopIndices(t, k) <==> 1 <= i < k && Triggered(t, i) && HasStation(t, i)
    decreases k
  {
    if k > 1 {
      StopIndicesMembers(t, k - 1, i);
    }
  }

  /** The plan's stops: at most one per index after the first, in route
      order, each at the route point of a triggering index that found a
      station, a trigger with no station in range recording nothing. */
  lemma PlanShape(t: Trip, stops: seq<FuelStop>)
    requires t.mpg != 0.0
    requires PlannedStops(t, stops)
    ensures |t.route| < 2 ==> stops == [] && SumCosts(stops) == 0.0
    ensures |t.route| >= 2 ==> |stops| <= |t.route| - 1
    ensures |stops| == |AllStopIndices(t)|
    ensures forall j :: 0 <= j < |stops| ==>
      1 <= AllStopIndices(t)[j] < |t.route| && stops[j].location == t.route[AllStopIndices(t)[j]]
    ensures forall j, j' :: 0 <= j < j' < |stops| ==> AllStopIndices(t)[j] < AllStopIndices(t)[j']
    ensures forall i :: 1 <= i < |t.route| ==>
      (i in AllStopIndices(t) <==> Triggered(t, i) && HasStation(t, i))
  {
    if |t.route| >= 2 {
      forall i | 1 <= i < |t.route|
        ensures i in AllStopIndices(t) <==> Triggered(t, i) && HasStation(t, i)
      {
        StopIndicesMembers(t, |t.route|, i);
      }
    }
  }

  /** The last index always takes a stop decision, so the route ends with a
      stop exactly when a station is within the radius of its end point. */
  lemma FinalStop(t: Trip)
    requires |t.route| >= 2
    ensures Triggered(t, |t.route| - 1)
    ensures |t.route| - 1 in AllStopIndices(t) <==> HasStation(t, |t.route| - 1)
  {
    StopIndicesMembers(t, |t.route|, |t.route| - 1);
  }

  /** Distance covered by segments a+1 .. b. */
  function SegmentSum(t: Trip, a: int, b: int): real
    requires 0 <= a <= b < |t.route|
    decreases b - a
  {
    if a == b then 0.0 else SegmentSum(t, a, b - 1) + Segment(t, b)
  }

  /** The index of the last reset before segment i (0 for the start). */
  function LastReset(t: Trip, i: int): int
    requires 1 <= i < |t.route|
  {
    if i == 1 then 0 else if Triggered(t, i - 1) then i - 1 else LastReset(t, i - 1)
  }

  /** The accumulator holds exactly the distance driven since the last trigger
      (or since the start): the reset happens at every trigger. */
  lemma {:induction false} AccumulatedSinceReset(t: Trip, i: int)
    requires 1 <= i < |t.route|
    ensures var j := LastReset(t, i);
      && 0 <= j < i
      && (j == 0 || Triggered(t, j))
      && (forall m :: j < m < i ==> !Triggered(t, m))
      && Accumulated(t, i) == SegmentSum(t, j, i)
  {
    if i > 1 && !Triggered(t, i - 1) {
      AccumulatedSinceReset(t, i - 1);
    }
  }

  /** Where decisions are taken depends on the route, the range and the
      distances only: the station table, and so whether a stop was found,
      plays no part in the accumulator or its reset. */
  lemma {:induction false} TriggersIgnoreStations(t: Trip, other: seq<Station>, i: int)
    requires 1 <= i < |t.route|
    ensures Accumulated(t, i) == Accumulated(t.(stations := other), i)
    ensures Triggered(t, i) == Triggered(t.(stations := other), i)
  {
    if i > 1 {
      TriggersIgnoreStations(t, other, i - 1);
    }
  }

  lemma {:induction false} SegmentSumMonotone(t: Trip, i: int, b: int)
    requires 0 <= i <= b < |t.route|
    requires forall m :: 1 <= m < |t.route| ==> Segment(t, m) >= 0.0
    ensures SegmentSum(t, 0, i) <= SegmentSum(t, 0, b)
    decreases b - i
  {
    if i < b {
      SegmentSumMonotone(t, i, b - 1);
    }
  }

  /** Before the last index of a route shorter than the range nothing triggers. */
  lemma {:induction false} ShortRouteNoEarlyTrigger(t: Trip, i: int)
    requires 1 <= i < |t.route| - 1
    requires forall m :: 1 <= m < |t.route| ==> Segment(t, m) >= 0.0
    requires SegmentSum(t, 0, |t.route| - 1) < t.rangeMiles
    ensures Accumulated(t, i) == SegmentSum(t, 0, i)
    ensures !Triggered(t, i)
  {
    if i > 1 {
      ShortRouteNoEarlyTrigger(t, i - 1);
    }
    SegmentSumMonotone(t, i, |t.route| - 1);
  }

  lemma {:induction false} ShortRouteNoEarlyStop(t: Trip, k: int)
    requires 1 <= k <= |t.route| - 1
    requires forall m :: 1 <= m < |t.route| ==> Segment(t, m) >= 0.0
    requires SegmentSum(t, 0, |t.route| - 1) < t.rangeMiles
    ensures StopIndices(t, k) == []
  {
    if k > 1 {
      ShortRouteNoEarlyStop(t, k - 1);
      ShortRouteNoEarlyTrigger(t, k - 1);
    }
  }

  /** A route shorter than the range (with non-negative segment lengths)
      gets a single stop decision, at its end: one stop if a station is in
      range there, buying the last segment's worth of fuel, none otherwise. */
  lemma ShortRouteSingleStop(t: Trip, stops: seq<FuelStop>)
    requires |t.route| >= 2 && t.mpg != 0.0
    requires forall m :: 1 <= m < |t.route| ==> Segment(t, m) >= 0.0
    requires SegmentSum(t, 0, |t.route| - 1) < t.rangeMiles
    requires PlannedStops(t, stops)
    ensures AllStopIndices(t) == if HasStation(t, |t.route| - 1) then [|t.route| - 1] else []
    ensures |stops| == (if HasStation(t, |t.route| - 1) then 1 else 0)
    ensures |stops| == 1 ==>
      && stops[0].location == t.route[|t.route| - 1]
      && stops[0].gallons == t.round2(Segment(t, |t.route| - 1) / t.mpg)
  {
    var n := |t.route|;
    ShortRouteNoEarlyStop(t, n - 1);
    StopIndicesStep(t, n - 1);
  }

  /** The price paid at a stop is determined even where equal prices make
      the station's name depend on the sort: the cheapest price is unique. */
  lemma CheapestPriceUnique(n1: string, p1: real, n2: string, p2: real, offers: seq<Offer>)
    requires IsCheapest(n1, p1, offers) && IsCheapest(n2, p2, offers)
    ensures p1 == p2
  {
    var o1 :| o1 in offers && o1.name == n1 && o1.price == p1;
    var o2 :| o2 in offers && o2.name == n2 && o2.price == p2;
  }
  // ---------------------------------------------------------------------
  // Stops are not one per range length

  /** Three points at 0, 1 and 20 miles along the equator, so segments of 1
      and 19 miles, a 10-mile range and one station within reach of every point. */
  function OverflowTrip(): Trip {
    Trip([GeoPoint(0.0, 0.0), GeoPoint(0.0, 1.0), GeoPoint(0.0, 20.0)],
         [Station(0.0, 0.0, 3.0, None)], 10.0, 10.0, 100.0,
         (p: GeoPoint, q: GeoPoint) => if q.lon >= p.lon then q.lon - p.lon else p.lon - q.lon,
         (x: real) => x)
  }

  /** A route exactly twice the range long can get a single stop: the first
      segment stays below the range, the second overshoots it, and the miles
      driven past the range are dropped at the reset instead of triggering a
      second stop. */
  lemma OverflowDiscarded()
    ensures SegmentSum(OverflowTrip(), 0, 2) == 2.0 * OverflowTrip().rangeMiles
    ensures AllStopIndices(OverflowTrip()) == [2]
    ensures forall stops :: PlannedStops(OverflowTrip(), stops) ==> |stops| == 1
  {
    var t := OverflowTrip();
    assert Segment(t, 1) == 1.0 && Segment(t, 2) == 19.0;
    assert Accumulated(t, 1) == 1.0;
    assert !Triggered(t, 1);
    assert Triggered(t, 2);
    var st := t.stations[0];
    assert InRadius(t.route[2], st, t.radius, t.dist);
    assert t.stations[..0] == [];
    assert RowsInRadius(t.route[2], t.stations, t.radius, t.dist) == [st];
    assert HasStation(t, 2);
    assert StopIndices(t, 2) == [];
    forall stops | PlannedStops(t, stops) ensures |stops| == 1 {
      PlanShape(t, stops);
    }
  }
}
