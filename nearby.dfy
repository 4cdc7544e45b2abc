/**
 * The nearby-station search (find_nearby_stations): every station whose
 * distance from a point is at most the radius, cheapest first.
 */
module NearbySearch {
  import opened Wrappers
  import opened Route
  import opened Stations
  import opened Seqs

  /** One search result: the station's position, its price per gallon and its name. */
  datatype Offer = Offer(location: GeoPoint, price: real, name: string)

  /** The name used when the table has no truckstop_name column. */
  const UnknownName: string := "Unknown"

  /** The result tuple of one row: its position, its price, and its name or
      "Unknown" when the table has no name column. */
  function OfferOf(st: Station): (o: Offer)
    ensures o.location == GeoPoint(st.latitude, st.longitude) && o.price == st.price
    ensures o.name == (if st.truckstopName.Some? then st.truckstopName.value else UnknownName)
  {
    Offer(Location(st), st.price, match st.truckstopName case Some(n) => n case None => UnknownName)
  }

  function OffersOf(rows: seq<Station>): seq<Offer> {
    MapSeq(OfferOf, rows)
  }

  /** The filter `distance <= radius`, distance measured from `point`. */
  predicate InRadius(point: GeoPoint, st: Station, radius: real, dist: (GeoPoint, GeoPoint) -> real) {
    dist(point, Location(st)) <= radius
  }

  /** The rows kept by the filter, in table order. */
  function RowsInRadius(point: GeoPoint, stations: seq<Station>, radius: real,
                        dist: (GeoPoint, GeoPoint) -> real): (r: seq<Station>)
    ensures |r| <= |stations|
    ensures forall k :: 0 <= k < |r| ==> InRadius(point, r[k], radius, dist)
  {
    if stations == [] then []
    else
      var last := stations[|stations| - 1];
      RowsInRadius(point, stations[..|stations| - 1], radius, dist)
        + (if InRadius(point, last, radius, dist) then [last] else [])
  }

  /** The offers of every station within the radius, in table order: what the
      search returns, up to the order of equal prices. */
  function OffersInRadius(point: GeoPoint, stations: seq<Station>, radius: real,
                          dist: (GeoPoint, GeoPoint) -> real): (r: seq<Offer>)
    ensures |r| <= |stations|
  {
    OffersOf(RowsInRadius(point, stations, radius, dist))
  }

  predicate RowsSortedByPrice(s: seq<Station>) {
    forall i, j :: 0 <= i < j < |s| ==> s[i].price <= s[j].price
  }

  predicate SortedByPrice(s: seq<Offer>) {
    forall i, j :: 0 <= i < j < |s| ==> s[i].price <= s[j].price
  }

  /** Every offer in range is made by a station within the radius. */
  lemma {:induction false} InRadiusSound(point: GeoPoint, stations: seq<Station>, radius: real,
                                         dist: (GeoPoint, GeoPoint) -> real, o: Offer)
    requires o in OffersInRadius(point, stations, radius, dist)
    ensures exists k :: 0 <= k < |stations| && InRadius(point, stations[k], radius, dist) && OfferOf(stations[k]) == o
  {
    var init := stations[..|stations| - 1];
    var last := stations[|stations| - 1];
    var rows := RowsInRadius(point, init, radius, dist);
    var extra := if InRadius(point, last, radius, dist) then [last] else [];
    MapConcat(OfferOf, rows, extra);
    if o in OffersOf(rows) {
      InRadiusSound(point, init, radius, dist, o);
      var k :| 0 <= k < |init| && InRadius(point, init[k], radius, dist) && OfferOf(init[k]) == o;
      assert stations[k] == init[k];
    } else {
      assert o in OffersOf(extra);
      assert InRadius(point, stations[|stations| - 1], radius, dist) && OfferOf(stations[|stations| - 1]) == o;
    }
  }

  /** The offer of every station within the radius is in range. */
  lemma {:induction false} InRadiusComplete(point: GeoPoint, stations: seq<Station>, radius: real,
                                            dist: (GeoPoint, GeoPoint) -> real, k: int)
    requires 0 <= k < |stations| && InRadius(point, stations[k], radius, dist)
    ensures OfferOf(stations[k]) in OffersInRadius(point, stations, radius, dist)
  {
    var init := stations[..|stations| - 1];
    var last := stations[|stations| - 1];
    var rows := RowsInRadius(point, init, radius, dist);
    var extra := if InRadius(point, last, radius, dist) then [last] else [];
    MapConcat(OfferOf, rows, extra);
    if k < |stations| - 1 {
      assert init[k] == stations[k];
      InRadiusComplete(point, init, radius, dist, k);
    } else {
      assert OffersOf(extra) == [OfferOf(stations[k])];
    }
  }

  /** An offer is in range exactly when some station within the radius makes it. */
  lemma InRadiusMembers(point: GeoPoint, stations: seq<Station>, radius: real,
                        dist: (GeoPoint, GeoPoint) -> real, o: Offer)
    ensures o in OffersInRadius(point, stations, radius, dist) <==>
      exists k :: 0 <= k < |stations| && InRadius(point, stations[k], radius, dist) && OfferOf(stations[k]) == o
  {
    if o in OffersInRadius(point, stations, radius, dist) {
      InRadiusSound(point, stations, radius, dist, o);
    }
    if exists k :: 0 <= k < |stations| && InRadius(point, stations[k], radius, dist) && OfferOf(stations[k]) == o {
      var k :| 0 <= k < |stations| && InRadius(point, stations[k], radius, dist) && OfferOf(stations[k]) == o;
      InRadiusComplete(point, stations, radius, dist, k);
    }
  }

  /** With no station within the radius the search finds nothing. */
  lemma {:induction false} NoneInRadius(point: GeoPoint, stations: seq<Station>, radius: real,
                                        dist: (GeoPoint, GeoPoint) -> real)
    requires forall k :: 0 <= k < |stations| ==> !InRadius(point, stations[k], radius, dist)
    ensures OffersInRadius(point, stations, radius, dist) == []
  {
    if stations != [] {
      NoneInRadius(point, stations[..|stations| - 1], radius, dist);
    }
  }

  /** Exchanges two rows of the frame. */
  method Swap(a: array<Station>, i: int, j: int)
    requires 0 <= i < a.Length && 0 <= j < a.Length
    modifies a
    ensures a[i] == old(a[j]) && a[j] == old(a[i])
    ensures forall m :: 0 <= m < a.Length && m != i && m != j ==> a[m] == old(a[m])
    ensures multiset(a[..]) == multiset(old(a[..]))
  {
    a[i], a[j] := a[j], a[i];
  }

  /** The rows are in price order except possibly row j against the rows before it. */
  predicate SortedExcept(s: seq<Station>, j: int) {
    forall p, q :: 0 <= p < q < |s| && q != j ==> s[p].price <= s[q].price
  }

  /** A sorted prefix followed by one more row is sorted except for that row. */
  lemma SortedExceptLast(s: seq<Station>)
    requires |s| > 0 && RowsSortedByPrice(s[..|s| - 1])
    ensures SortedExcept(s, |s| - 1)
  {
    forall p, q | 0 <= p < q < |s| && q != |s| - 1 ensures s[p].price <= s[q].price {
      assert s[p] == s[..|s| - 1][p] && s[q] == s[..|s| - 1][q];
    }
  }

  /** Swapping the out-of-order row j with its left neighbour moves the gap down. */
  lemma SortedExceptSwap(s: seq<Station>, t: seq<Station>, j: int)
    requires 0 < j < |s| == |t|
    requires SortedExcept(s, j) && s[j - 1].price > s[j].price
    requires t[j - 1] == s[j] && t[j] == s[j - 1]
    requires forall m :: 0 <= m < |s| && m != j - 1 && m != j ==> t[m] == s[m]
    ensures SortedExcept(t, j - 1)
  {
  }

  /** Once row j is no cheaper than its left neighbour, the rows are sorted. */
  lemma SortedExceptDone(s: seq<Station>, j: int)
    requires 0 <= j < |s| && SortedExcept(s, j)
    requires j == 0 || s[j - 1].price <= s[j].price
    ensures RowsSortedByPrice(s)
  {
  }

  /** Moves row i down into the sorted prefix a[..i]; the rows after i stay. */
  method InsertRow(a: array<Station>, i: int)
    requires 0 <= i < a.Length
    requires RowsSortedByPrice(a[..i])
    modifies a
    ensures RowsSortedByPrice(a[..i + 1])
    ensures multiset(a[..i + 1]) == multiset(old(a[..i + 1]))
    ensures a[i + 1..] == old(a[i + 1..])
    ensures multiset(a[..]) == multiset(old(a[..]))
  {
    assert a[..i + 1][..i] == a[..i];
    SortedExceptLast(a[..i + 1]);
    var j := i;
    while j > 0 && a[j - 1].price > a[j].price
      invariant 0 <= j <= i
      invariant SortedExcept(a[..i + 1], j)
      invariant forall m :: i < m < a.Length ==> a[m] == old(a[m])
      invariant multiset(a[..]) == multiset(old(a[..]))
    {
      ghost var before := a[..i + 1];
      Swap(a, j - 1, j);
      SortedExceptSwap(before, a[..i + 1], j);
      j := j - 1;
    }
    SortedExceptDone(a[..i + 1], j);
    assert a[i + 1..] == old(a[i + 1..]);
    SplitPermutation(old(a[..]), a[..], i + 1);
  }

  /** Reorders the rows of the filtered frame in place by price. Equal
      prices come out in no promised order. */
  method SortByPrice(a: array<Station>)
    modifies a
    ensures RowsSortedByPrice(a[..])
    ensures multiset(a[..]) == multiset(old(a[..]))
  {
    var i := 0;
    while i < a.Length
      invariant 0 <= i <= a.Length
      invariant RowsSortedByPrice(a[..i])
      invariant multiset(a[..]) == multiset(old(a[..]))
    {
      InsertRow(a, i);
      i := i + 1;
    }
    assert a[..a.Length] == a[..];
  }

  /** Any permutation of the in-radius offers holds exactly the offers of the
      stations within the radius. */
  lemma PermutedOffers(point: GeoPoint, stations: seq<Station>, radius: real,
                       dist: (GeoPoint, GeoPoint) -> real, nearby: seq<Offer>)
    requires multiset(nearby) == multiset(OffersInRadius(point, stations, radius, dist))
    ensures forall k :: 0 <= k < |stations| && InRadius(point, stations[k], radius, dist) ==>
      OfferOf(stations[k]) in nearby
    ensures forall o :: o in nearby ==>
      exists k :: 0 <= k < |stations| && InRadius(point, stations[k], radius, dist) && OfferOf(stations[k]) == o
  {
    var offers := OffersInRadius(point, stations, radius, dist);
    forall o | o in nearby
      ensures exists k :: 0 <= k < |stations| && InRadius(point, stations[k], radius, dist) && OfferOf(stations[k]) == o
    {
      assert o in multiset(nearby);
      assert o in offers;
      InRadiusMembers(point, stations, radius, dist, o);
    }
    forall k | 0 <= k < |stations| && InRadius(point, stations[k], radius, dist)
      ensures OfferOf(stations[k]) in nearby
    {
      InRadiusMembers(point, stations, radius, dist, OfferOf(stations[k]));
      assert OfferOf(stations[k]) in multiset(offers);
    }
  }

  /** The distance column and the radius filter: the rows within the radius,
      in table order. */
  method FilterInRadius(point: GeoPoint, stations: seq<Station>, radius: real,
                        dist: (GeoPoint, GeoPoint) -> real)
    returns (rows: seq<Station>)
    ensures rows == RowsInRadius(point, stations, radius, dist)
  {
    // the distance of every station row from the point
    var distance := new real[|stations|];
    for k := 0 to |stations|
      invariant forall m :: 0 <= m < k ==> distance[m] == dist(point, Location(stations[m]))
    {
      distance[k] := dist(point, Location(stations[k]));
    }
    // keep the rows whose distance is at most the radius, in table order
    rows := [];
    for k := 0 to |stations|
      invariant rows == RowsInRadius(point, stations[..k], radius, dist)
    {
      assert stations[..k + 1][..k] == stations[..k];
      if distance[k] <= radius {
        rows := rows + [stations[k]];
      }
    }
    assert stations[..|stations|] == stations;
  }

  /** One result tuple per row of the sorted frame, in its order. */
  method OffersOfRows(sorted: array<Station>) returns (nearby: seq<Offer>)
    ensures nearby == OffersOf(sorted[..])
  {
    nearby := [];
    for k := 0 to sorted.Length
      invariant |nearby| == k
      invariant forall m :: 0 <= m < k ==> nearby[m] == OfferOf(sorted[m])
    {
      nearby := nearby + [OfferOf(sorted[k])];
    }
  }

  /** Why the search fails. On a table with no rows, pandas' row-wise apply
      returns a copy of the whole (multi-column) frame instead of one
      distance column, and storing that as the distance column raises
      ValueError. */
  datatype SearchError = EmptyStationTable

  /**
   * find_nearby_stations(point, stations, radius): every station within the
   * radius, as an offer, sorted by non-decreasing price. It fails exactly
   * when the station table has no rows.
   */
  method FindNearbyStations(point: GeoPoint, stations: seq<Station>, radius: real,
                            dist: (GeoPoint, GeoPoint) -> real)
    returns (result: Result<seq<Offer>, SearchError>)
    ensures result.Err? <==> |stations| == 0
    ensures result.Ok? ==> SortedByPrice(result.value)
    ensures result.Ok? ==>
      multiset(result.value) == multiset(OffersInRadius(point, stations, radius, dist))
    ensures result.Ok? ==>
      forall k :: 0 <= k < |stations| && InRadius(point, stations[k], radius, dist) ==>
        OfferOf(stations[k]) in result.value
    ensures result.Ok? ==>
      forall o :: o in result.value ==>
        exists k :: 0 <= k < |stations| && InRadius(point, stations[k], radius, dist) && OfferOf(stations[k]) == o
  {
    if |stations| == 0 {
      return Err(EmptyStationTable);
    }
    var rows := FilterInRadius(point, stations, radius, dist);
    // order the kept rows by price
    var sorted := new Station[|rows|](k requires 0 <= k < |rows| => rows[k]);
    assert sorted[..] == rows;
    SortByPrice(sorted);
    var nearby := OffersOfRows(sorted);
    MapPermutation(OfferOf, sorted[..], rows);
    PermutedOffers(point, stations, radius, dist, nearby);
    return Ok(nearby);
  }
}
