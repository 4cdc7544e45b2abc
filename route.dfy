/**
 * Points on the map and the two conversions applied to a directions
 * response (get_route): provider coordinates come as [lon, lat] pairs and the
 * route length in metres.
 */
module Route {

  /** A (latitude, longitude) pair in degrees. */
  datatype GeoPoint = GeoPoint(lat: real, lon: real)

  /** Miles in one metre, the factor the route length is scaled by. */
  const MilesPerMetre: real := 0.000621371

  /** Swaps every provider pair from (longitude, latitude) to (latitude, longitude). */
  function ToLatLon(coords: seq<(real, real)>): (route: seq<GeoPoint>)
    ensures |route| == |coords|
    ensures forall k :: 0 <= k < |coords| ==>
      route[k].lat == coords[k].1 && route[k].lon == coords[k].0
  {
    seq(|coords|, k requires 0 <= k < |coords| => GeoPoint(coords[k].1, coords[k].0))
  }

  /** The provider's [lon, lat] layout of a route. */
  function ToLonLat(route: seq<GeoPoint>): (coords: seq<(real, real)>)
    ensures |coords| == |route|
  {
    seq(|route|, k requires 0 <= k < |route| => (route[k].lon, route[k].lat))
  }

  /** The swap loses nothing: it is undone by the provider's layout, both ways. */
  lemma SwapRoundTrip(coords: seq<(real, real)>, route: seq<GeoPoint>)
    ensures ToLonLat(ToLatLon(coords)) == coords
    ensures ToLatLon(ToLonLat(route)) == route
  {
    var back := ToLonLat(ToLatLon(coords));
    assert forall k :: 0 <= k < |coords| ==> back[k] == coords[k];
  }

  /** The route length in miles. */
  function MetresToMiles(metres: real): (miles: real)
    ensures miles == metres * MilesPerMetre
    ensures 0.0 <= metres ==> 0.0 <= miles <= metres
    ensures metres < 0.0 ==> metres <= miles < 0.0
  {
    metres * MilesPerMetre
  }
  /** The conversion keeps the order of lengths, both ways, and adds up over
      the legs of a route. */
  lemma MetresToMilesOrder(a: real, b: real)
    ensures a <= b <==> MetresToMiles(a) <= MetresToMiles(b)
    ensures MetresToMiles(a + b) == MetresToMiles(a) + MetresToMiles(b)
  {
  }
}
