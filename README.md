# Fuel-stop planner: a Dafny model

This project models the core of a fuel-route service in Dafny and proves
properties of the model. The service plans fuel stops along a driving route.
It walks the route polyline and adds up segment distances. When the total
reaches the vehicle's range, or the route ends, it looks up the stations within
a search radius of that point. It buys at the cheapest of them and records the
stop. At the end it totals the cost.

Modules:

- `Planner` (`planner.dfy`) models `plan_fuel_stops`.
  - `PlanFuelStops` computes the fuel figure and the totals. Its loop over the route is the method `PlanStops`, which has a `for` loop.
  - The loop is proved against the trigger rule, which is defined as functions
    (`Accumulated`, `Triggered`, `StopIndices`, `Gallons`, `IsStopAt`).
  - The properties of the trigger rule are proved as lemmas.
- `NearbySearch` (`nearby.dfy`) models `find_nearby_stations` as an imperative
  method. It has a distance column, a filter, an in-place sort by price and
  the loop that builds the result.
- `Address` (`address.dfy`) models `preprocess_address`.
- `Route` (`route.dfy`) models the coordinate swap and the metres-to-miles
  conversion of `get_route`.
- `Stations` (`stations.dfy`) holds the station record and the column-name
  normalisation of `load_fuel_prices`.
- `Text` (`text.dfy`) builds Python's `str.replace`, `str.strip` and
  `str.lower` from scratch. `Seqs` (`seqs.dfy`) and `Wrappers` (`wrappers.dfy`)
  are helpers.

Inputs that are not computed in the source enter the model as parameters:
- The geodesic distance (`geodesic(a, b).miles`) is a function parameter
  `dist`. Nothing is assumed about it. Only `SegmentSumMonotone` and the
  lemmas about short routes assume that segment lengths are non-negative.
- `round(x, 2)` is a function parameter `round2`.
- The route is a parameter, in place of the directions call. So are the
  route's total length and the station table, in place of the CSV loader.

Floats are modelled as `real`.

Where the code's behaviour is easy to misread, the model follows the code:
- Equal prices are not guaranteed to stay in input order. `sort_values('price')`
  uses pandas' default sort, which is not stable. So no contract says which of
  several equally cheap stations comes first. A stop's station name is only
  "some cheapest station in range". Its price is fixed: see
  `CheapestPriceUnique`.
- Only `gallons` and `cost` of a stop are rounded. `price_per_gallon` is the
  station's price as it is.
- Nothing guards `mpg`, `range_miles` or `radius`. A zero `mpg` raises
  `ZeroDivisionError` at `total_distance / mpg`. The model returns
  `Err(DivisionByZero)` exactly then. Every other value of these three,
  negative ones included, is planned as the code plans it.
- A station table with no rows makes the station search fail. The search
  computes the distance column with a row-wise `apply`. On a frame with no
  rows, pandas calls the function once on an all-NaN row. geopy rejects that
  point, so `apply` returns a copy of the whole frame. Storing a frame of
  several columns as the single `distance` column raises `ValueError`. The
  model's search returns `Err(EmptyStationTable)` exactly for an empty table.
  The end of any route of two or more points always triggers a search, so
  planning then fails too. A station whose coordinates geopy rejects also
  makes the search fail; the model does not capture this (see "## Left out").
  This depends on the NumPy, pandas and geopy
  behaviour just described, which the model takes as given.
- Stops are not one per range length. Distance driven past the range before
  a trigger is dropped at the reset (core/utils.py:268). So a route k times
  the range long can get fewer than k stops. `OverflowDiscarded` gives a route
  twice the range long that gets one stop.

## Model

| member | source | states |
|---|---|---|
| `Planner.PlanFuelStops` | core/utils.py:238-277 | Fails with `DivisionByZero` exactly when mpg is 0. Fails at all exactly when mpg is 0, or when the route has two or more points and the station table is empty. This holds for coordinates geopy accepts, since `dist` never fails. Otherwise: `total_distance_miles` is `round2(total_distance)`. `fuel_needed_gallons` is `round2(total_distance / mpg)`, which does not depend on the stops. The stops are exactly those the trigger rule gives, in order (`PlannedStops`). `estimated_cost` is `round2` of the left-to-right sum of the rounded stop costs. The route is returned unchanged. A route of fewer than 2 points has no stops and, when rounding maps 0 to 0, a cost of 0. |
| `Planner.PlanStops` | core/utils.py:242-268 | The pass over the route fails exactly when the route has two or more points and the station table is empty. This holds for coordinates geopy accepts. Otherwise its stops are exactly those the trigger rule gives, in order. It needs mpg to be non-zero, which the source has already ensured by dividing by it at line 240. |
| `Planner.StopAt` | core/utils.py:250-267 | At a triggering index, the search fails exactly when the station table is empty, for coordinates geopy accepts. Otherwise the stop list grows by that index's record if a station is in range, and stays as it is if none is. In both cases it is the trigger rule's list one index further on. |
| `Planner.TotalCost` | core/utils.py:270 | The loop total is the sum of the stop costs, added in list order. |
| `Planner.Segment` | core/utils.py:246 | The i-th segment length: the distance `dist` gives from `route[i-1]` to `route[i]`. |
| `Planner.Accumulated` | core/utils.py:243-268 | The accumulated distance after segment i: the previous accumulated distance plus segment i, or segment i alone right after a trigger (or at the start). |
| `Planner.Triggered` | core/utils.py:250 | A stop decision is taken at index i when the accumulated distance has reached the range or i is the last index. The last index always triggers. |
| `Planner.Gallons` | core/utils.py:255-258 | The fuel bought at a stop times mpg is the final segment at the end of the route, and the full range anywhere else. |
| `Planner.Cost` | core/utils.py:260 | A stop's cost before rounding: the unrounded gallons times the price per gallon of the chosen station. It is non-negative when both are. |
| `Planner.IsStopAt` | core/utils.py:251-266 | The record a stop at index i must carry: the location `route[i]`, the name and price of a cheapest station in range, gallons rounded, and cost rounded from the unrounded gallons times the price. |
| `Planner.SumCosts` | core/utils.py:270 | The sum of the stops' (already rounded) costs, added from the first stop to the last; `estimated_cost` is `round2` of it. The sum is non-negative when every cost is. |
| `Planner.StopIndices` | core/utils.py:245-253 | The stop indices below k are in 1..k-1 and strictly increasing, so there are at most k-1 of them. |
| `Planner.StopIndicesMembers` | core/utils.py:250-253 | An index records a stop if and only if it triggers and the search there finds a station. |
| `Planner.RecordStop` | core/utils.py:253-267 | A stop recorded at a triggering index with a station extends the stop list by exactly that record. |
| `Planner.SkipIndex` | core/utils.py:250-253 | An index that does not trigger, or whose search comes back empty, adds no stop. |
| `Planner.BestStopFits` | core/utils.py:251-266 | The record built from `nearby_stations[0]` has the trigger point as its location. Its name and price are those of a cheapest station in range. Its gallons are `round2` of the final-leg or full-range figure. Its cost is `round2(gallons * price)`. |
| `Planner.CheapestFirst` | core/utils.py:212-254 | The head of a price-sorted permutation of the in-range offers is offered in range, and nothing in range is cheaper. |
| `Planner.PlanShape` | core/utils.py:245-270 | A route with fewer than 2 points gives no stops and a cost sum of 0. Otherwise there are at most len(route)-1 stops, in route order. Each stop is at `route[i]` for its triggering index. An index records a stop if and only if it triggers and has a station in range. A trigger with no station records nothing. |
| `Planner.FinalStop` | core/utils.py:250-257 | The last index always triggers. The plan ends with a stop there exactly when a station is in range of the end point. |
| `Planner.AccumulatedSinceReset` | core/utils.py:243-268 | At each index the accumulator equals the distance driven since the last trigger (or since the start), and no index in between triggered. It is reset at every trigger, whether or not a station was found. |
| `Planner.TriggersIgnoreStations` | core/utils.py:246-268 | The accumulator and the trigger decisions are the same for any station table. Finding no station does not change later trigger points. |
| `Planner.SegmentSumMonotone` | core/utils.py:246-247 | With non-negative segment lengths, the distance driven from the start only grows. |
| `Planner.ShortRouteNoEarlyTrigger` | core/utils.py:245-250 | On a route shorter than the range, no index before the last triggers, and the accumulator is the distance from the start. |
| `Planner.ShortRouteNoEarlyStop` | core/utils.py:245-253 | On a route shorter than the range, no stop is recorded before the last index. |
| `Planner.ShortRouteSingleStop` | core/utils.py:245-266 | A route shorter than the range gets exactly one stop, at its end, if a station is in range there, and none otherwise. That stop buys `round2(last segment / mpg)` gallons. |
| `Planner.OverflowDiscarded` | core/utils.py:245-268 | A 3-point route with segments of 1 and 19 miles, a 10-mile range and a station in reach everywhere is exactly twice the range long. It stops only at its end: one stop, not two. |
| `Planner.CheapestPriceUnique` | core/utils.py:212-264 | Two cheapest offers have the same price, so a stop's price and cost do not depend on how ties are ordered. |
| `NearbySearch.FindNearbyStations` | core/utils.py:193-219 | Fails exactly when the station table has no rows, for coordinates geopy accepts. Otherwise the result is sorted by non-decreasing price. It is a permutation of the offers of the stations with `distance <= radius`. Every station within the radius appears. Every entry comes from such a station. |
| `NearbySearch.PermutedOffers` | core/utils.py:210-218 | Any reordering of the in-range offers contains the offer of every station within the radius, and contains only such offers. |
| `NearbySearch.FilterInRadius` | core/utils.py:210-211 | The distance column and the `distance <= radius` filter give exactly the rows within the radius, in table order. |
| `NearbySearch.OffersOfRows` | core/utils.py:214-218 | The result list holds one tuple per sorted row, in the order of the rows. |
| `NearbySearch.OfferOf` | core/utils.py:216-218 | A row's tuple carries its position and price, and its `truckstop_name`, or "Unknown" when the table has no such column. |
| `NearbySearch.SortByPrice` | core/utils.py:212 | The in-place sort leaves the rows ordered by price and is a permutation of them. |
| `NearbySearch.InsertRow` | core/utils.py:212 | Inserting row i into the price-sorted rows before it leaves the first i+1 rows sorted and a permutation of what they were. The rows after i are unchanged. |
| `NearbySearch.InRadius` | core/utils.py:206-211 | A station passes the filter when its distance from the point, measured with `dist` to its (latitude, longitude), is at most the radius. The boundary is included. |
| `NearbySearch.OffersInRadius` | core/utils.py:210-218 | The reference for the search: the tuples of the stations that pass the filter, in table order, before sorting. There are at most as many as there are stations. |
| `NearbySearch.RowsInRadius` | core/utils.py:210-211 | The filter keeps only rows within the radius, and no more rows than the table has. |
| `NearbySearch.InRadiusMembers` | core/utils.py:210-218 | An offer is in range if and only if some station within the radius makes it. |
| `NearbySearch.NoneInRadius` | core/utils.py:211-219 | With no station within the radius, the in-range offers are empty. So a search over a non-empty table returns the empty list. |
| `Seqs.MapPermutation` | core/utils.py:212-218 | Building the result tuples after sorting gives a permutation of building them before sorting. |
| `Address.PreprocessAddress` | core/utils.py:18-32 | A falsy address gives "". Otherwise `&` becomes `and`, then `EXIT` becomes `Exit`, then the result is stripped, so it has no whitespace at either end. |
| `Address.PreprocessNormalises` | core/utils.py:29-32 | A falsy address (None or "") gives "". Any result contains no `&` and no `EXIT`, and has no whitespace at either end. |
| `Address.PreprocessFixesNormalised` | core/utils.py:29-32 | An address already in that normal form is returned unchanged. |
| `Address.PreprocessIdempotent` | core/utils.py:18-32 | Pre-processing twice gives the same result as pre-processing once. |
| `Text.IsSpace` | core/utils.py:31 | Python's `str.isspace` on one character: the characters `strip()` removes, listed in full (ASCII tab to carriage return, the separators `\x1c`-`\x1f`, space, `\x85`, no-break space and the other Unicode spaces and line/paragraph separators). |
| `Text.ReplaceAll` | core/utils.py:31 | Python's `str.replace`: a left-to-right scan that replaces non-overlapping occurrences. Replacing by a text of the same length keeps the length. |
| `Text.Strip` | core/utils.py:31 | Python's `str.strip()` with no argument: never longer than its input, and no whitespace at either end. |
| `Text.ReplaceRemovesChar` | core/utils.py:31 | After replacing `&` by `and`, no `&` is left. |
| `Text.ReplaceExitComplete` | core/utils.py:31 | After replacing `EXIT` by `Exit`, no `EXIT` is left. No occurrence can form across a replacement. |
| `Text.ReplaceAllChars` | core/utils.py:31 | Every character of a replacement result comes from the input or from the replacement text. |
| `Text.StripSlice` | core/utils.py:31 | `strip()` keeps a contiguous middle of its input, drops only whitespace around it, and leaves no whitespace at either end. |
| `Text.Lower` | core/utils.py:123 | `str.lower()` on ASCII: keeps the length, leaves no upper-case letter, keeps whitespace, and changes nothing else. |
| `Route.ToLatLon` | core/utils.py:187 | The swap keeps the route's length and order and exchanges each [lon, lat] pair into (lat, lon). |
| `Route.MetresToMilesOrder` | core/utils.py:189 | The conversion keeps the order of lengths, in both directions. The miles of two legs add up to the miles of the whole. |
| `Route.SwapRoundTrip` | core/utils.py:187 | The swap is undone by the provider's layout, in both directions. |
| `Route.MetresToMiles` | core/utils.py:188-189 | Miles are metres times 0.000621371. A non-negative length in miles is non-negative and no larger than in metres. |
| `Stations.NormaliseColumn` | core/utils.py:123 | One column name stripped, lower-cased, and with spaces replaced by underscores. It is as long as the stripped name. |
| `Stations.NormaliseColumns` | core/utils.py:123 | Every column name is normalised in place, and the number of columns is kept. |
| `Stations.NormaliseColumnShape` | core/utils.py:123 | A normalised name has no upper-case letter, no space, and no whitespace at either end. |
| `Stations.NormaliseColumnsIdempotent` | core/utils.py:123 | Normalising the header twice gives the same result as normalising it once. |

## Left out

- `PlanFuelStops`, `FindNearbyStations`: `dist` never fails, so geopy's rejection of an out-of-range point is not modelled. A station latitude outside [-90, 90] makes the source's distance computation raise `ValueError`, and so does a non-finite coordinate on a non-empty table. The "fails exactly when" clauses therefore hold only for tables and routes whose coordinates geopy accepts.
- The geocoders `geocode_address` and `geocode_locationiq` (core/utils.py:35-107) are left out. They do HTTP calls, a retry loop with sleeps, and printing: network I/O.
- The directions request and its JSON digging in `get_route` (core/utils.py:171-185) are left out. The route and its length in metres are inputs. Only the conversions at lines 187-189 are modelled.
- The CSV read, the `retail_price` rename, the geocode-fill loop and `dropna` in `load_fuel_prices` (core/utils.py:119-153) are left out: file and DataFrame I/O. The station table is an input of rows that already have latitude, longitude and price. Only the rename at line 123 is modelled.
- A station's name is an `Option`: `None` stands for a table with no `truckstop_name` column, which gives "Unknown". Each row carries its own `Option`, while in the source the column is present for all rows or for none. A missing value (NaN) in a present column is not modelled.
- The geodesic formula is an abstract `dist` parameter. Nothing about its values is assumed, except non-negative segments in `SegmentSumMonotone` and the short-route lemmas.
- `round(x, 2)` is an abstract `round2` parameter, so float rounding (round-half-even on binary values) is not modelled. Float arithmetic is modelled as exact real arithmetic.
- `Text.Lower`: does not model Unicode case mapping. `str.lower()` is modelled on the ASCII letters A-Z only.
- The HTTP handler, its coordinate bounds check, the batch geocoding script and the URL routing (core/views.py, core/geocode_csv.py, core/urls.py) are not part of this model.
- The default arguments (`mpg=10`, `range_miles=500`, `radius=10`) are not modelled. Every parameter is explicit.
- Running the planner twice on the same inputs gives the same plan. This is not stated as a lemma: the planner is a deterministic method. Its contract leaves the choice between equally cheap stations open, as the source's unstable sort does.
- "A route k times the range long gets k stops" is not stated as a lemma, because it is false of the code: see `Planner.OverflowDiscarded`.
