# Speed profile of an OSM train route

OSMTrainRouteAnalysis reads an OpenStreetMap route relation, chains its ways
into one track and estimates the speed a given train could reach along it.
This project models the core of that pipeline, which lives in the `Route`
class of `functions/getData.php`, together with the traction formula of the
`Train` class in `functions/train.php`:

- **loadXml's way measurement.** Every way gets a length. Each node gets its
  distance from the start of its way and the way that owns it
  (`Geometry.MarkWay`, `Routes.Route.MeasureWay`).
- **loadRelationWays.** It skips stop and platform members. It infers each
  way's direction from the previous way's end nodes and counts the holes. It
  keeps only railway ways. It accumulates the relation distance and the stop
  node distances. It derives each way's speed limit, either tagged (`maxspeed`,
  `maxspeed:forward`, `maxspeed:backward`, mph converted) or estimated, and
  caps it at the train's maximum. It run-length encodes the limits into
  `maxspeed_array`. It also sums the operator, traffic-mode, electrification
  and structure statistics and builds the map drawing
  (modules `Assembly`, `SpeedLimit`, `Profile`; `Routes.Route.LoadRelationWays`).
- **getMaxspeed.** A decision tree over tags gives the typical, minimum and
  maximum speed of an untagged way (`SpeedLimit.GetMaxspeed`).
- **calculateSpeed.** It sorts the stops by distance and splits the speed
  sections at the stops: this is `exmaxarray` (module `Stops`). It derives the
  braking and acceleration events (module `Events`). It merges the events and
  repeats `sort_accbrake` until nothing changes (module `Reconcile`). It then
  expands the events into the points of the speed curve.
- **getAverageSpeed.** The trapezoid integral and the peak of the curve, plus
  the travel-time and average-speed formulas of the output page, and
  **getStopNames** (module `Summary`).
- **Train.** The constructor's unit scaling and brake floor, and
  `Train::acceleration`, the four-case formula around the critical speed
  power/torque (module `Traction`).

Distances and speeds are `real`. Three things are parameters of the model
rather than definitions:

- the planar distance of `getDistance`, a function on two coordinate pairs;
- PHP's conversion of a numeric string to a number (`num`), and the
  `round(x*1.609)` mph conversion (`mph`);
- the natural logarithm used by `Train::acceleration` (`ln`).

`is_numeric` is modelled concretely, with the PHP 7 grammar: leading white
space, a sign, digits with an optional fraction, an optional exponent, and no
trailing white space. PHP's null node references are the empty string
`NullRef`, since OSM ids are never empty.

The arrays of calculateSpeed start at index -1 in PHP. Here index -1 is
sequence index 0. The scan back of getBrakingPoints starts its running total
after that entry, because the PHP loop starts at 0. The scan forward of
getAccelerationPoints includes it, because that PHP loop starts at -1.

The `Route` class of `route.dfy` has as fields the
arrays the PHP object fills. Its methods update those fields as the PHP
methods do, and each method is proved equal to the pure functions of the
other modules. The lemmas about those functions carry the properties.

Where the code and its comments disagree, the model follows the code:

- the stored brake deceleration is `max(table value, 0.7)`, a floor, although
  the comment speaks of a maximum of 0.7;
- the `exact` flag stored when a run of `maxspeed_array` closes is the flag of
  the way that closes it, not of the ways in the run;
- a node shared by two ways keeps the distance and way written by the later
  way; the first node of a way is written only if no earlier way claimed it.

## Model

| member | source | states |
|---|---|---|
| Osm.ContainsIffOccurs | functions/getData.php:618 | the `strstr` test used on roles holds exactly when the needle occurs at some position of the role |
| Osm.ContainsOccurs | functions/getData.php:618 | where the `strstr` test holds, the role has an occurrence of the needle |
| Osm.OccursContains | functions/getData.php:618 | an occurrence of the needle at any position makes the `strstr` test hold |
| Osm.Trim | functions/getData.php:680 | the result of trimming begins and ends with a character that is not white space |
| Osm.TrimIsSlice | functions/getData.php:680 | trimming keeps a slice of the value and cuts off only white space on either side, so it removes exactly the leading and trailing blanks |
| Osm.DigitRun | functions/getData.php:681 | the digit run is a prefix of digits, followed by a non-digit or by the end of the string |
| Osm.NumericAccepts | functions/getData.php:681 | `is_numeric("120")` holds in the modelled grammar |
| Osm.NumericRejectsWord | functions/getData.php:692 | `is_numeric("none")` does not hold, so the tag is dropped |
| Osm.NumericRejectsTrailingSpace | functions/getData.php:692 | a number followed by a space is not numeric under PHP 7 |
| Osm.NumericEnd | functions/getData.php:692 | every numeric string is non-empty and ends in a digit or a decimal point, so never in white space |
| Osm.UnsignedEnd | functions/getData.php:692 | after the white space and the sign, a numeric string ends in a digit or a decimal point |
| Osm.ExponentEnd | functions/getData.php:692 | a non-empty exponent part ends in a digit |
| Osm.NumericHasDigit | functions/getData.php:692 | every numeric string contains a digit |
| Osm.LeadingSpaceSkipped | functions/getData.php:692 | a leading white-space character does not change whether a string is numeric |
| Osm.DigitsNumeric | functions/getData.php:692 | every non-empty string of digits is numeric |
| Osm.NumericAcceptsNegative | functions/getData.php:692 | a signed value such as "-20" is numeric |
| Geometry.Reverse | functions/getData.php:866 | `array_reverse` keeps the length and puts element i at position n-1-i |
| Geometry.PathLengthMonotone | functions/getData.php:454-459 | with a non-negative distance, the running way length only grows along the nodes and never becomes negative |
| Geometry.PathLengthNonNegative | functions/getData.php:449-459 | a way's length is never negative when the distance is not |
| Geometry.PathLengthSplit | functions/getData.php:454-459 | the way length splits at any node into the length up to it plus the length from it |
| Geometry.PathLengthReverse | functions/getData.php:866 | with a symmetric distance, a reversed way has the same length |
| Geometry.BackwardDistance | functions/getData.php:663-665 | with a symmetric distance, way length minus a node's forward distance is the node's distance along the reversed way |
| Geometry.MarkWay | functions/getData.php:460-465 | marking a way never forgets a node's owner and keeps distances and owners defined on the same nodes |
| Geometry.MarkWayClaims | functions/getData.php:460-465 | every node after the first is owned by the way afterwards, and the first node is owned by some way |
| Geometry.MarkWayKeepsOthers | functions/getData.php:460-465 | nodes not on the way keep their distance and owner, and gain none |
| Geometry.MarkWayDistances | functions/getData.php:455-465 | on a way without repeated nodes, each later node's distance is the path length up to it, and an unclaimed first node gets 0 |
| Routes.MeasureLoop | functions/getData.php:452-467 | the while loop computes exactly the way length and the marks of `MarkWay` |
| Routes.Route.MeasureWay | functions/getData.php:448-472 | the way's length, first node and last node are stored, the node marks become `MarkWay` of the old marks, and no other field changes |
| Assembly.Orient | functions/getData.php:622-642 | without a previous way the direction is unknown and no hole; otherwise forward iff the first node meets the previous ends, else backward iff the last node does, and a hole iff neither |
| Assembly.ChainStep | functions/getData.php:617-651 | stop and platform members change nothing; any other member becomes the comparison reference even if it is not a railway; the hole count grows by one exactly when `Orient` finds a hole; a railway is appended as a leg with the direction `Orient` gives, and nothing else is |
| Assembly.ChainFollowsLastMember | functions/getData.php:642-643 | after the loop the reference nodes are those of the last non-stop member, or null if there was none |
| Assembly.HolesBound | functions/getData.php:622-641 | the first member never counts a hole, so there are fewer holes than members |
| Assembly.HolesCounted | functions/getData.php:622-641 | `$holes` is the number of members whose previous member has a last node and neither of whose end nodes is an end node of that previous member |
| Assembly.LegsAreTrackWays | functions/getData.php:647-650 | the ways kept are exactly the members that are railway tracks, in relation order |
| Assembly.HoleExample | functions/getData.php:622-641 | a three-way relation with a gap after the second way gets directions unknown, forward, unknown and one hole |
| Assembly.NonRailwayIsReference | functions/getData.php:642-650 | a road between two rails is skipped, yet it is the reference the next rail is compared with |
| Assembly.FlipNodes | functions/getData.php:658-666 | a backward way replaces each of its node distances d by way length minus d, and leaves everything else alone |
| Assembly.FlipTwice | functions/getData.php:663-665 | flipping a backward way twice gives back the original distances |
| Assembly.StopDistances | functions/getData.php:668 | each node of the way gets the way's start distance plus its node distance; other entries are unchanged |
| Assembly.DistancesStep | functions/getData.php:654-673 | the way's start distance is the relation distance so far; the relation distance grows by the way length; the node distances of the way are flipped when it is backward (`FlipNodes`); its nodes get start distance plus node distance as stop node distances (`StopDistances`) |
| Assembly.Credit | functions/getData.php:763-771 | a statistics map credits the way length to one key, starting from 0, and leaves other keys unchanged |
| Assembly.TrafficMode | functions/getData.php:775-788 | a tagged traffic mode is used as is; tram, light rail and subway default to one; otherwise nothing is credited |
| Assembly.ElectricKey | functions/getData.php:791-818 | an electrification key exists exactly when `electrified` is tagged; "no" stays "no"; any other value is keyed "voltage;frequency", with "N/A" for a missing voltage or frequency |
| Assembly.ElectricKeyExample | functions/getData.php:793-809 | a way with a voltage and no frequency is keyed "15000;N/A" |
| Assembly.StatsStep | functions/getData.php:761-859 | every statistic of one way: the operator, traffic-mode and electrification totals grow by the way length exactly when a key exists, and that key's entry is credited; each structure tagged other than "no" grows by the way length; the building share stays the sum of the structure shares |
| Assembly.SumOverRemove | functions/getData.php:761-818 | summing a statistics map does not depend on the key taken out first |
| Assembly.SumOverFrame | functions/getData.php:761-818 | the sum over a set of keys depends only on the values at those keys |
| Assembly.CreditSum | functions/getData.php:763-771 | crediting a length to one key adds that length to the sum of the map |
| Assembly.CreditOptSum | functions/getData.php:763-818 | crediting a length to a key that may be missing adds that length to the sum exactly when the key exists |
| Assembly.StatsStepConsistent | functions/getData.php:761-818 | after a way, each of operator, traffic-mode and electrified distance is still the sum of its map |
| Assembly.LowerBound | functions/getData.php:880-901 | a null coordinate makes a lower bound null; otherwise the bound is at most the coordinate and the old bound, and is one of them |
| Assembly.UpperBound | functions/getData.php:880-901 | a null coordinate leaves an upper bound alone; otherwise the bound is at least the coordinate and the old bound, and is one of them |
| Assembly.Extend | functions/getData.php:876-901 | a node updates each lower bound with `LowerBound` and each upper bound with `UpperBound` |
| Assembly.Points | functions/getData.php:874-878 | one map entry per node: the node's position when it was loaded, null otherwise, never a gap marker |
| Assembly.CoverPointContains | functions/getData.php:874-901 | one more entry keeps the upper bounds above every point and the lower bounds below every point after which no null entry came |
| Assembly.CoverContains | functions/getData.php:874-901 | the upper bounds are at least every point drawn; the lower bounds are at most every point not followed by a null entry |
| Assembly.MissingNodeResetsMinimum | functions/getData.php:880-901 | latitude 52, a node not loaded, latitude 53: both latitude bounds end at 53 |
| Assembly.MissingNodeKeepsMaximum | functions/getData.php:898-901 | a null coordinate does not lower a maximum of -5 |
| Assembly.WayPoints | functions/getData.php:862-901 | a way draws one point per node, preceded by the (0,0) gap marker when its direction is unknown; the i-th point is the position of the way's i-th node, counted from the end when the way is travelled backward |
| Assembly.DrawingStep | functions/getData.php:862-903 | a way appends its points to the map node list and the bounds grow over those points; bounds that covered the drawing before cover it after |
| Assembly.LegSection | functions/getData.php:700-730 | the section of a way has the way's length and a limit no higher than the train maximum |
| Assembly.LoadStep | functions/getData.php:615-904 | one foreach step advances the chain exactly as `ChainStep` does; a stop, platform or non-railway member changes nothing else; a railway member, oriented as `Orient` says, updates the distances, extends the runs with its section, credits its statistics and draws its points |
| Assembly.LoadStepInvariant | functions/getData.php:615-904 | one step keeps the open run plus the closed runs equal to the relation distance, all limits capped, the building share balanced, each statistics total equal to the sum of its map, and the bounds covering the map |
| Assembly.LoadWaysFacts | functions/getData.php:615-904 | after the loop the chain is `ChainWays`, the invariant holds, and the relation distance is the sum of the track way lengths |
| Assembly.MaxspeedArraySumsToDistance | functions/getData.php:673-907 | the lengths of `maxspeed_array` sum to the relation distance, which is the sum of the track way lengths |
| Assembly.MaxspeedArrayWithinTrain | functions/getData.php:728 | no entry of `maxspeed_array` exceeds the train's maximum speed |
| Assembly.StatsAndBounds | functions/getData.php:761-901 | after the loop the building share is the sum of the structure shares, each statistics total is the sum of its map, and the bounds cover the map as `Covers` says |
| Assembly.MapNodeCount | functions/getData.php:862-903 | the map has one point per node of each kept way plus one gap marker per unknown-direction way, the first one included |
| Assembly.RouteRelationGuard | functions/getData.php:584 | a relation is a route exactly when the rejection test of loadXml fails |
| Assembly.RouteRelationFrame | functions/getData.php:584 | only the type and route tags decide whether a relation is a route |
| Assembly.RouteRelationExamples | functions/getData.php:584 | a relation is a route only with type=route and a rail route value: route_master, bus, or a missing route tag are rejected |
| Routes.LoadLoop | functions/getData.php:615-904 | the foreach over the relation ways computes `LoadWays` |
| Routes.Route.LoadRelationWays | functions/getData.php:600-911 | the chain, distances, stop node distances, runs, statistics and drawing become `LoadWays` of the loaded network, and `maxspeed_array` is its closed runs, then the open run, then the sentinel |
| SpeedLimit.GetMaxspeed | functions/getData.php:2331-2444 | every branch gives minimum <= typical <= maximum, between 15 and 320 km/h, with a typical value between 30 and 250 |
| SpeedLimit.TramIgnoresHighspeed | functions/getData.php:2334-2385 | a tram or subway way gets the same estimate whatever its highspeed tag says |
| SpeedLimit.HighspeedBeatsUsage | functions/getData.php:2379-2423 | a highspeed=yes railway gets (250, 200, 320) whatever its usage tag says |
| SpeedLimit.FallbackEstimate | functions/getData.php:2430-2442 | a plain rail way with no other tags gets the fallback (100, 20, 250) |
| SpeedLimit.GeneralMaxspeed | functions/getData.php:676-696 | a limit comes only from a `maxspeed` tag; for a tag not in mph it exists iff the tag is numeric and is then its numeric value; for a tag ending in mph it exists iff the trimmed rest is numeric and is then its mph conversion |
| SpeedLimit.NormalizeMaxspeed | functions/getData.php:676-696 | a value ending in mph is kept iff its trimmed rest is numeric, converted with `mph`; any other value is kept iff numeric, converted with `num` |
| SpeedLimit.NegativeLimitAccepted | functions/getData.php:676-730 | the tag maxspeed=-20 passes the numeric check and becomes the exact limit -20 |
| SpeedLimit.MphExample | functions/getData.php:676-688 | "50 mph" becomes the converted value of "50" |
| SpeedLimit.NonNumericDropped | functions/getData.php:690-695 | "none" is dropped, so the way counts as untagged |
| SpeedLimit.WayLimit | functions/getData.php:700-730 | the limit never exceeds the train maximum; forward ways prefer `maxspeed:forward`, backward ways `maxspeed:backward`, then `maxspeed`, then the typical estimate; it is exact iff it came from a tag |
| SpeedLimit.WayLimitFrame | functions/getData.php:700-730 | the limit depends only on the listed tags, so the idempotent tag rewrites of the loop do not change it |
| SpeedLimit.GeneralMaxspeedFrame | functions/getData.php:676-696 | the tagged limit depends only on the `maxspeed` tag |
| SpeedLimit.GetMaxspeedFrame | functions/getData.php:2331-2444 | the estimate depends only on the railway, service, highspeed, usage and train protection tags |
| SpeedLimit.UnknownIgnoresDirectionalTags | functions/getData.php:700-716 | a way of unknown direction ignores both directional tags |
| SpeedLimit.ForwardTagIgnoredBackward | functions/getData.php:700-716 | a backward way ignores `maxspeed:forward` |
| Profile.Push | functions/getData.php:736-757 | on a change of a nonzero limit the open run is closed with the new way's exact flag and a new run starts with the way's length; otherwise the way's length joins the open run; the open run takes the way's limit and flag, and no length is lost |
| Profile.Finish | functions/getData.php:905-907 | the final array is the closed runs, then the open run with its length, limit and flag, then the (0, 0) sentinel carrying the last exact flag |
| Profile.EncodeKeepsLength | functions/getData.php:736-757 | run-length encoding loses no length |
| Profile.MaxspeedArrayLength | functions/getData.php:736-907 | the lengths of `maxspeed_array` sum to the lengths of the ways |
| Profile.MaxspeedArrayCapped | functions/getData.php:728-757 | if no way's limit exceeds the cap, no entry does |
| Profile.EncodeMaximal | functions/getData.php:736-740 | with nonzero limits, two consecutive closed runs never have the same limit |
| Profile.MaxspeedArrayMaximal | functions/getData.php:736-907 | with nonzero limits, consecutive entries before the sentinel always differ in limit |
| Profile.ZeroLimitMerges | functions/getData.php:736 | a way of limit 0 is never flushed: its length joins the next way's run |
| Profile.ExactFlagFromClosingWay | functions/getData.php:738 | a closed run carries the exact flag of the way that closed it |
| Stops.StopsFound | functions/getData.php:1752-1766 | only stops with a known distance are kept, with that distance and with the node's coordinates when the node is loaded, each taken from the stop list |
| Stops.StopsFoundCounts | functions/getData.php:1752-1766 | a stop with a known distance appears as often as in the stop list, any other not at all |
| Stops.StopsFoundInOrder | functions/getData.php:1752-1766 | the kept stops come in the order of the stop list |
| Stops.StopsFoundComplete | functions/getData.php:1752-1766 | every stop with a known distance is kept |
| Stops.CollectStops | functions/getData.php:1752-1766 | the loop collects exactly `StopsFound` |
| Stops.SortByDis | functions/getData.php:1769-1778 | the stops come out in ascending distance and are a permutation of the input |
| Stops.SplitStopsTrack | functions/getData.php:1809-1835 | the pieces plus the remainder add up to the section length, and there are two rows per stop in (start, start+len] |
| Stops.SplitSectionSum | functions/getData.php:1809-1844 | the pieces of one section sum to its length, or to 0 when that length is negative |
| Stops.SplitSectionCount | functions/getData.php:1809-1844 | a section yields two rows per inserted stop, plus its remainder |
| Stops.SplitSectionNonNegative | functions/getData.php:1809-1844 | with sorted stops no piece has a negative length |
| Stops.ExpandSectionsFacts | functions/getData.php:1795-1849 | `exmaxarray` keeps the total length and gains two rows per stop in (0, total] |
| Stops.StopAtSectionStartNotInserted | functions/getData.php:1813 | a stop exactly at a section start is not inserted; one inside it is, as a piece then the (0, 0) mark |
| Stops.InsertStops | functions/getData.php:1795-1849 | the nested loops compute exactly `ExpandSections`, with the total length as `relation_distance_ms` |
| Routes.StopProfile | functions/getData.php:1749-1849 | the stops are the found stops sorted by distance, and `exmaxarray` is the sections split at them |
| Events.BrakeScanSound | functions/getData.php:1931-1951 | a found start is faster than the target and its braking distance is less than the distance scanned back; every section skipped was faster but too close; when nothing is found, every section of the run of faster limits below the start point was too close |
| Events.BrakeAtSound | functions/getData.php:1929-1951 | a braking event ends at the section boundary past the last event, slows from a faster limit to the section limit, and spans exactly the braking distance |
| Events.BrakingSound | functions/getData.php:1927-1954 | every braking event found is sound in that sense |
| Events.BrakingOrdered | functions/getData.php:1927-1954 | each braking event ends after the start of the previous one, and `maxpoint` is the start of the last one |
| Events.GetBrakingPoints | functions/getData.php:1919-1956 | the loops compute exactly the braking events of the specification |
| Events.AccScanSound | functions/getData.php:1980-2003 | a found target is faster than the start, and every section skipped was faster but too short to reach; when nothing is found, no section of the run of faster limits from the start point is reached in time |
| Events.AccAtSound | functions/getData.php:1978-2003 | an acceleration event starts at a boundary at or after `maxpoint`, speeds up to a faster limit with a nonzero acceleration, and spans exactly the acceleration distance |
| Events.AcceleratingSound | functions/getData.php:1975-2005 | every acceleration event found is sound in that sense |
| Events.AcceleratingOrdered | functions/getData.php:1975-2005 | each acceleration starts at or after the end of the previous one, so accelerations never overlap |
| Events.GetAccelerationPoints | functions/getData.php:1965-2007 | the loops compute exactly the acceleration events of the specification |
| Reconcile.ReCalculateS1 | functions/getData.php:2015-2019 | s1 is in the same ratio to s2 as v1 to v2 |
| Reconcile.MergeEvents | functions/getData.php:1872 | both lists concatenated, braking first; if either list is empty the result is empty, as `array_merge` with a null argument |
| Reconcile.EventLeTotal | functions/getData.php:2044-2053 | the row order used by `array_multisort` is total |
| Reconcile.SortEvents | functions/getData.php:2044-2053 | the events come out ordered by start, then by the other fields, and are a permutation of the input |
| Reconcile.DropNested | functions/getData.php:2059-2066 | an event strictly inside its predecessor has its four numbers zeroed; any other is unchanged |
| Reconcile.SlowDown | functions/getData.php:2104-2124 | the inner loop keeps both kinds and the outer ends; when it ran, the two events meet at a common nonzero speed |
| Reconcile.AccThenBrake | functions/getData.php:2071-2139 | an overlapping brake after an acceleration with the same target collapses to a point at the acceleration's end |
| Reconcile.PairEdit | functions/getData.php:2058-2165 | after each pair, the kinds are unchanged and the next start speed is at most the current end speed unless that is 0 |
| Reconcile.BrakeAfterBrake | functions/getData.php:2141-2149 | a brake overlapping a preceding brake collapses to (prev.end, prev.end, prev.vend, prev.vend) |
| Reconcile.BrakeToAccTarget | functions/getData.php:2075-2081 | an overlapping brake with the same target as the preceding acceleration becomes a point at that acceleration's end |
| Reconcile.SeparateEventsJoined | functions/getData.php:2153-2165 | events that do not overlap are left apart, except that a faster next start is lowered to the current end speed |
| Reconcile.StandingStartSeparates | functions/getData.php:2104-2124 | an acceleration from standstill overlapping a braking to standstill is cut where both reach the same speed |
| Reconcile.EditFrom | functions/getData.php:2056-2166 | the pass over the pairs keeps the number of events and each event's kind |
| Reconcile.SortAccBrakeKeepsKinds | functions/getData.php:2042-2168 | `sort_accbrake` keeps the number of events and the number of each kind |
| Reconcile.SlowDownNonNegative | functions/getData.php:2104-2124 | slowing down to 80% never makes a speed negative |
| Reconcile.PairEditNonNegative | functions/getData.php:2058-2165 | the edit of a pair with non-negative speeds gives non-negative speeds |
| Reconcile.EditFromNonNegative | functions/getData.php:2056-2166 | the pass over the pairs keeps every speed non-negative |
| Reconcile.SortAccBrakeNonNegative | functions/getData.php:2042-2168 | `sort_accbrake` keeps every speed non-negative |
| Reconcile.OverlapLeftInPlace | functions/getData.php:2071-2139 | an acceleration 50 to 80 over [0, 10] and a brake held at 30 over [5, 20] are a fixed point of `sort_accbrake`, although the brake starts before the acceleration ends |
| Reconcile.SlowDownLoop | functions/getData.php:2110-2122 | the 80% loop computes exactly `SlowDown` |
| Reconcile.EditPair | functions/getData.php:2058-2165 | the in-place edit of a pair computes exactly `PairEdit` |
| Reconcile.SortAccBrakePass | functions/getData.php:2042-2168 | one call of `sort_accbrake` computes exactly `SortAccBrake` |
| Reconcile.Settle | functions/getData.php:1876-1881 | the result is `sort_accbrake` applied r times to its input, r at most `passes`: every round before the last changed the list, and the loop stopped because the last changed nothing (or the list was empty), or else ran all `passes` rounds; when converged the result is a fixed point; the count of each kind never changes; non-negative speeds stay non-negative |
| Reconcile.Round | functions/getData.php:1878-1879 | one pass of the loop turns the list after r rounds into the list after r + 1 |
| Reconcile.SettledFixed | functions/getData.php:1876-1881 | when the loop stops because a round changed nothing, the result is a fixed point of `sort_accbrake`, and with no round at all the list is empty |
| Reconcile.IterateKeepsKinds | functions/getData.php:1876-1881 | any number of rounds keeps the number of events and of each kind |
| Reconcile.IterateNonNegative | functions/getData.php:1876-1881 | any number of rounds keeps non-negative speeds non-negative |
| Reconcile.Trajectory | functions/getData.php:1884-1889 | two points per event: (start, vstart) and then (end, vend) |
| Routes.PlannedNonNegative | functions/getData.php:1919-2007 | with no negative section limit, no braking or acceleration event has a negative speed |
| Routes.ComputeSpeed | functions/getData.php:1851-1889 | the planned braking and acceleration events, merged and put through the rounds of `sort_accbrake` the loop runs, with their trajectory; with no negative section limit, no point of the trajectory has a negative speed |
| Routes.Route.CalculateSpeed | functions/getData.php:1741-1892 | stores the sorted stops, `exmaxarray`, the planned events after the rounds of `sort_accbrake` the loop runs, and the trajectory, and then the integral and peak of that trajectory |
| Summary.FirstTrapezoidIsEmpty | functions/getData.php:1901 | the first trapezoid has zero width, because point -1 copies point 0 |
| Summary.IntegralAtConstantSpeed | functions/getData.php:1897-1911 | at one constant speed the integral is that speed times the distance covered |
| Summary.IntegralNonNegative | functions/getData.php:1897-1911 | a curve that never goes back and never below 0 has a non-negative integral |
| Summary.Peak | functions/getData.php:1899-1909 | `maxspeed_max` is the largest of 0 and all point speeds |
| Summary.AverageSpeedLoop | functions/getData.php:1897-1911 | the loop computes exactly the trapezoid integral and the peak |
| Routes.Route.GetAverageSpeed | functions/getData.php:1897-1911 | stores the integral and the peak of the speed curve, and nothing else |
| Summary.TravelTime | functions/getData.php:1601 | the travel time is undefined exactly when the integral is 0 |
| Summary.AverageSpeed | functions/getData.php:1603 | the average speed is undefined exactly when the distance is 0, and times the distance it gives the integral |
| Summary.TimeTimesSpeed | functions/getData.php:1601-1603 | when both are defined, travel time times average speed is the distance times 60 |
| Summary.StopName | functions/getData.php:2299-2320 | a node gives its name, else its description; a way gives its name; a node that is not loaded or has neither tag, a way that is not loaded or has no name, and any other member give "Unknown stop"; a known name always comes from the member's tags |
| Summary.StopNames | functions/getData.php:2293-2322 | one name per stop member, each its `StopName` |
| Routes.Route.GetStopNames | functions/getData.php:2293-2322 | with stops, the names are one per stop member; without any, the old names stay |
| Routes.Route.TravelTimeShown | functions/getData.php:1601 | the shown travel time is undefined exactly when the integral is 0 |
| Routes.Route.AverageSpeedShown | functions/getData.php:1603 | the shown average speed is undefined exactly when the route has length 0, and times the length it gives the integral |
| Traction.NewTrain | functions/train.php:132-138 | acceleration, mass, torque and power are the table values times 12960; the brake is the larger of the table value and 0.7, times 12960; hence mass, torque and power keep their ratios |
| Traction.UniformScaling | functions/train.php:135-138 | scaling mass, torque and power by the same factor changes neither the critical speed nor the maximum acceleration |
| Traction.Acceleration | functions/train.php:159-227 | equal speeds give 0 before any division; there is no result iff the speeds differ and one converted speed is exactly the critical speed |
| Traction.TorqueLimitedIsConstant | functions/train.php:179-183 | below the critical speed the result is `a_max` times 12960, whatever the two speeds |
| Traction.Blend | functions/train.php:198-225 | the weighted mean of two values with positive weights lies between them |
| Traction.StraddleUpIsBetween | functions/train.php:198-210 | accelerating across the critical speed gives a value between the power-limited and torque-limited accelerations |
| Traction.StraddleDownIsBetween | functions/train.php:213-225 | decelerating across the critical speed gives a value between the power-limited and torque-limited accelerations |
| Traction.PlanningAcceleration | functions/getData.php:1987 | the acceleration used for the plan is asked with 200 passengers; equal speeds plan 0 |

## Left out

- The HTTP fetch, file cache, `$_GET` and clock of `getData()`, the XML parsing of `loadXml` and its database delete: I/O. Only the way measurement and the route predicate are modelled, and the model takes the parsed tables as inputs.
- `output()`, `showMap`, `changeTrain` and the translations: rendering and localisation. "Unknown stop" is a constant.
- `getDistance`, PHP's numeric conversion, `round(x*1.609)` and `log`: floating-point numerics, taken as function parameters. Only symmetry and non-negativity of the distance are assumed, and only by the lemmas that name them.
- Floating point in general: every number is an exact `real`, so rounding and the comparison of computed floats are not modelled.
- The `$maxspeed_stops` block of calculateSpeed is dead: its result is never read. It also overwrites `way_length`, which nothing reads afterwards either, so it is left out.
- `maxspeed_array_min`, `maxspeed_array_max`, `maxspeed_total_max`, and the minimum and maximum from getMaxspeed: computed and discarded by the code.
- `log_error` on negative section lengths: a logging side effect.
- The `train_details.php` table and the `$_GET["train"]` choice of train: the table values are parameters of `Traction.NewTrain`.
- Reconcile.Settle: the PHP loop repeats `sort_accbrake` without bound until nothing changes. The model runs at most `passes` rounds and reports whether the loop stopped by itself; when it did not, the result is the list after exactly `passes` rounds.
- Reconcile.SlowDown: the 80% loop has no bound in PHP. The model runs at most `fuel` rounds; with fuel left it stops exactly where PHP does.
- Routes.Route.CalculateSpeed: the fixed point is promised only when the returned flag says the rounds sufficed.
- Routes.Route.LoadRelationWays: its contract ties the new fields to `LoadWays`; what that computes is proved by the Assembly lemmas. `LoadWays` folds over the relation ways as PHP does, a repeated way included: a way passed twice backward is flipped twice and so measured forward the second time (`Assembly.FlipTwice`, the FIXME at functions/getData.php:657).
- Events.BrakeAtSound and Events.AccAtSound: the facts about one event are lemmas beside the functions, not ensures of `BrakeAt` and `AccAt`.
- The acceleration `getAccelerationPoints` uses is a parameter of `Events`. `Routes` supplies `Traction.PlanningAcceleration`, which gives 0 where PHP's fall-through returns null. PHP 7 then divides by 0. When the target limit's square exceeds the start's, which always holds when no limit is negative, it gets INF; `INF <= way` is false, so the scan goes on, and the model does the same.
- Events.AccFits: an acceleration of 0 never fits. With a negative start limit whose square exceeds the target's, PHP gets -INF, which does fit; with squares that are equal it gets NAN, which does not. The model does not follow the -INF case.
- The tie order of PHP's stop sort, which compares whole rows, is not modelled. The model sorts stably by distance. Only the order of stops at equal distance can differ, and every stop at one distance produces the same sections.
- A way with no nodes: PHP reads an undefined index and gets null. The model gives `NullRef`.
- The tag rewrites of loadRelationWays (the mph conversion, the traffic-mode default, the voltage "N/A"): they are idempotent, and the model evaluates each as a pure function of the loaded tags. The changed tags are not written back into `way_tags`.
- `showMap` draws `map_node` up to the first entry whose latitude is null, that is, the entry of a node that was not loaded. The model keeps such entries as `Missing` and leaves the drawing itself out.
- Reconcile.Trajectory: a trajectory whose positions never decrease is not promised. `sort_accbrake` leaves some overlapping pairs unedited (`Reconcile.OverlapLeftInPlace`). So the trajectory can go back, and `Summary.IntegralNonNegative` applies only when it does not.
- Routes.ComputeSpeed: speeds are proved non-negative only when every section limit is. A tag such as maxspeed=-20 passes `is_numeric` and becomes a negative limit (`SpeedLimit.NegativeLimitAccepted`).
