/** The Route object of functions/getData.php: the arrays loadXml fills,
    and the methods that turn them into the speed profile. Each method
    updates the fields as the PHP method does and is proved against the
    functions of the other modules. */
module Routes {
  import opened Osm
  import opened Geometry
  import opened Traction
  import opened Profile
  import opened Assembly
  import opened Stops
  import opened Events
  import opened Reconcile
  import opened Summary

  /** The acceleration getAccelerationPoints asks the train for. */
  function Accel(t: PhysicalTrain, ln: real -> real): (real, real) -> real {
    (v1: real, v2: real) => PlanningAcceleration(t, ln, v1, v2)
  }

  /** The events calculateSpeed merges before settling them. */
  function Planned(ex: seq<Section>, t: PhysicalTrain, ln: real -> real): seq<Event> {
    MergeEvents(Braking(ex, t.brake, |ex|).events, Accelerating(ex, Accel(t, ln), |ex|).events)
  }

  /** The loop of loadXml over the nodes ids of way w, starting from the
      marks m0: the running length, and a node's distance and way written
      unless it is the first node and already claimed. */
  method MeasureLoop(nodes: map<NodeId, Node>, dist: Distance, m0: Marks, w: WayId, ids: seq<NodeId>)
    returns (len: real, m: Marks)
    ensures len == PathLength(nodes, dist, ids)
    ensures m == MarkWay(nodes, dist, m0, w, ids)
  {
    var nd, nw := m0.distance, m0.way;
    len := 0.0;
    var i := 0;
    while i < |ids|
      invariant 0 <= i <= |ids|
      invariant len == PathLength(nodes, dist, ids[..i])
      invariant Marks(nd, nw) == MarkWay(nodes, dist, m0, w, ids[..i])
    {
      assert ids[..i + 1][..i] == ids[..i];
      MarkWayLast(nodes, dist, m0, w, ids[..i + 1]);
      if i > 0 {
        len := len + Hop(nodes, dist, ids[i - 1], ids[i]);
      }
      if ids[i] !in nw || i > 0 {
        nd := nd[ids[i] := len];
        nw := nw[ids[i] := w];
      }
      i := i + 1;
    }
    assert ids[..i] == ids;
    m := Marks(nd, nw);
  }

  /** One more way is one more LoadStep. */
  lemma LoadWaysSnoc(net: Network, cfg: Config, ws: seq<WayId>, i: nat)
    requires i < |ws|
    ensures LoadWays(net, cfg, ws[..i + 1]) == LoadStep(net, cfg, LoadWays(net, cfg, ws[..i]), ws[i])
  {
    assert ws[..i + 1][..i] == ws[..i];
  }

  /** The foreach of loadRelationWays over relation_ways, each way
      updating the chain, the distances, the open run of maxspeed_array,
      the statistics and the map. */
  method LoadLoop(net: Network, cfg: Config, ws: seq<WayId>) returns (st: Load)
    ensures st == LoadWays(net, cfg, ws)
  {
    var c, d, r, s, dr := NoChain, Distances(0.0, map[], net.nodeDistance, map[]), Start, NoStats, Drawing([], NoBounds);
    var i := 0;
    while i < |ws|
      invariant 0 <= i <= |ws|
      invariant Load(c, d, r, s, dr) == LoadWays(net, cfg, ws[..i])
    {
      var b := ws[i];
      LoadWaysSnoc(net, cfg, ws, i);
      ghost var before := Load(c, d, r, s, dr);
      c := ChainStep(net, c, b);
      if IsTrackMember(net, b) {
        var dir := c.legs[|c.legs| - 1].dir;
        d := DistancesStep(net, d, b, dir);
        r := Push(r, LegSection(net, cfg, b, dir));
        s := StatsStep(TagsOf(net, b), LengthOf(net, b), s);
        dr := DrawingStep(net, dr, b, dir);
      }
      assert Load(c, d, r, s, dr) == LoadStep(net, cfg, before, b);
      i := i + 1;
    }
    assert ws[..i] == ws;
    st := Load(c, d, r, s, dr);
  }

  /** What the first part of calculateSpeed leaves: the stops found on
      the route, sorted, and inserted into maxspeed_array behind the leading
      stop row; total is relation_distance_ms. */
  predicate StopsInserted(nodes: map<NodeId, Node>, snd: map<NodeId, real>, refs: seq<NodeId>, ms: seq<Section>,
                          stops: seq<StopPosition>, ex: seq<Section>, total: real) {
    stops == SortByDis(StopsFound(nodes, snd, refs)) && ex == Exmaxarray(ms, stops) && total == SumLengths(ms)
  }

  predicate LimitsNonNegative(ex: seq<Section>) {
    forall i :: 0 <= i < |ex| ==> ex[i].limit >= 0.0
  }

  /** Every planned event runs between section limits, so with no negative
      limit no planned speed is negative. */
  lemma PlannedNonNegative(ex: seq<Section>, t: PhysicalTrain, ln: real -> real)
    requires LimitsNonNegative(ex)
    ensures AllNonNegative(Planned(ex, t, ln))
  {
    var brakes := Braking(ex, t.brake, |ex|).events;
    var accs := Accelerating(ex, Accel(t, ln), |ex|).events;
    BrakingSound(ex, t.brake, |ex|);
    AcceleratingSound(ex, Accel(t, ln), |ex|);
    assert AllNonNegative(brakes) by {
      forall k | 0 <= k < |brakes| ensures NonNegativeSpeeds(brakes[k]) {
        assert BrakeSound(ex, t.brake, brakes[k]);
      }
    }
    assert AllNonNegative(accs) by {
      forall k | 0 <= k < |accs| ensures NonNegativeSpeeds(accs[k]) {
        assert AccSound(ex, Accel(t, ln), accs[k]);
      }
    }
    var m := Planned(ex, t, ln);
    forall k | 0 <= k < |m| ensures NonNegativeSpeeds(m[k]) {
      if k < |brakes| {
        assert m[k] == brakes[k];
      } else {
        assert m[k] == accs[k - |brakes|];
      }
    }
  }

  /** What the second part leaves: the planned events after the rounds of
      sort_accbrake the PHP loop runs, at most passes of them (a fixed point
      when settled), and two points per event. */
  ghost predicate EventsSettled(ex: seq<Section>, t: PhysicalTrain, ln: real -> real, passes: nat, fuel: nat,
                                events: seq<Event>, settled: bool, points: seq<Point>) {
    SettleOutcome(Planned(ex, t, ln), passes, fuel, events, settled) &&
    |events| == |Planned(ex, t, ln)| &&
    (forall k :: CountKind(events, k) == CountKind(Planned(ex, t, ln), k)) &&
    (settled ==> SortAccBrake(events, fuel) == events) &&
    |points| == 2 * |events| &&
    (LimitsNonNegative(ex) ==> forall k :: 0 <= k < |points| ==> points[k].v >= 0.0) &&
    forall k :: 0 <= k < |events| ==>
      points[2 * k] == Point(events[k].start, events[k].vstart) &&
      points[2 * k + 1] == Point(events[k].end, events[k].vend)
  }

  method StopProfile(nodes: map<NodeId, Node>, snd: map<NodeId, real>, refs: seq<NodeId>, ms: seq<Section>)
    returns (stops: seq<StopPosition>, ex: seq<Section>, total: real)
    ensures StopsInserted(nodes, snd, refs, ms, stops, ex, total)
  {
    var found := CollectStops(nodes, snd, refs);
    stops := SortByDis(found);
    ex, total := InsertStops([StopMark] + ms, stops);
    assert ([StopMark] + ms)[1..] == ms;
  }

  lemma TrajectoryNonNegative(events: seq<Event>, points: seq<Point>)
    requires AllNonNegative(events) && |points| == 2 * |events|
    requires forall k :: 0 <= k < |events| ==>
               points[2 * k] == Point(events[k].start, events[k].vstart) &&
               points[2 * k + 1] == Point(events[k].end, events[k].vend)
    ensures forall k :: 0 <= k < |points| ==> points[k].v >= 0.0
  {
    forall k | 0 <= k < |points| ensures points[k].v >= 0.0 {
      assert NonNegativeSpeeds(events[k / 2]);
    }
  }

  method ComputeSpeed(ex: seq<Section>, t: PhysicalTrain, ln: real -> real, passes: nat, fuel: nat)
    returns (events: seq<Event>, settled: bool, points: seq<Point>)
    ensures EventsSettled(ex, t, ln, passes, fuel, events, settled, points)
  {
    var brakes := GetBrakingPoints(ex, t.brake);
    var accs := GetAccelerationPoints(ex, Accel(t, ln));
    var planned := MergeEvents(brakes, accs);
    assert planned == Planned(ex, t, ln);
    events, settled := Settle(planned, passes, fuel);
    points := Trajectory(events);
    if LimitsNonNegative(ex) {
      PlannedNonNegative(ex, t, ln);
      TrajectoryNonNegative(events, points);
    }
  }

  ghost predicate Calculated(nodes: map<NodeId, Node>, snd: map<NodeId, real>, refs: seq<NodeId>, ms: seq<Section>,
                             t: PhysicalTrain, ln: real -> real, passes: nat, fuel: nat,
                             stops: seq<StopPosition>, ex: seq<Section>, total: real,
                             events: seq<Event>, settled: bool, points: seq<Point>) {
    StopsInserted(nodes, snd, refs, ms, stops, ex, total) && EventsSettled(ex, t, ln, passes, fuel, events, settled, points)
  }

  method CalculateAll(nodes: map<NodeId, Node>, snd: map<NodeId, real>, refs: seq<NodeId>, ms: seq<Section>,
                      t: PhysicalTrain, ln: real -> real, passes: nat, fuel: nat)
    returns (stops: seq<StopPosition>, ex: seq<Section>, total: real, events: seq<Event>, settled: bool, points: seq<Point>)
    ensures Calculated(nodes, snd, refs, ms, t, ln, passes, fuel, stops, ex, total, events, settled, points)
  {
    stops, ex, total := StopProfile(nodes, snd, refs, ms);
    events, settled, points := ComputeSpeed(ex, t, ln, passes, fuel);
  }

  class Route {
    // What loadXml reads from the OSM data.
    var node: map<NodeId, Node>
    var wayNodes: map<WayId, seq<NodeId>>
    var wayTags: map<WayId, Tags>
    var wayLength: map<WayId, real>
    var firstNode: map<WayId, NodeId>
    var lastNode: map<WayId, NodeId>
    var nodeWay: map<NodeId, WayId>
    var nodeDistance: map<NodeId, real>
    var roleWay: map<string, string>
    var relationWays: seq<WayId>
    var relationStops: seq<string>
    var relationStopsType: seq<MemberType>
    const train: PhysicalTrain

    // What loadRelationWays computes.
    var chain: Chain
    var relationDistance: real
    var wayStartDistance: map<WayId, real>
    var stopNodeDistance: map<NodeId, real>
    var rle: Rle
    var stats: Stats
    var drawing: Drawing
    var maxspeedArray: seq<Section>

    // What calculateSpeed, getAverageSpeed and getStopNames compute.
    var stopPosition: seq<StopPosition>
    var exmaxarray: seq<Section>
    var relationDistanceMs: real
    var accbrake: seq<Event>
    var converged: bool
    var maxspeedPointArray: seq<Point>
    var realAverageSpeed: real
    var maxspeedMax: real
    var stopName: seq<string>

    /** The loaded network as the pure functions see it. */
    function Net(): Network
      reads this
    {
      Network(node, wayNodes, wayTags, wayLength, firstNode, lastNode, nodeWay, nodeDistance, roleWay)
    }

    function DistancesNow(): Distances
      reads this
    {
      Distances(relationDistance, wayStartDistance, nodeDistance, stopNodeDistance)
    }

    function LoadNow(): Load
      reads this
    {
      Load(chain, DistancesNow(), rle, stats, drawing)
    }

    /** A route holding what loadXml read, with nothing computed yet. */
    constructor (nodes: map<NodeId, Node>, wayTags: map<WayId, Tags>, wayNodes: map<WayId, seq<NodeId>>,
                 roleWay: map<string, string>, relationWays: seq<WayId>,
                 relationStops: seq<string>, relationStopsType: seq<MemberType>, train: PhysicalTrain)
      ensures this.node == nodes && this.wayTags == wayTags && this.wayNodes == wayNodes
      ensures this.roleWay == roleWay && this.relationWays == relationWays && this.train == train
      ensures this.relationStops == relationStops && this.relationStopsType == relationStopsType
      ensures wayLength == map[] && firstNode == map[] && lastNode == map[]
      ensures nodeWay == map[] && nodeDistance == map[]
    {
      this.node := nodes;
      this.wayTags := wayTags;
      this.wayNodes := wayNodes;
      this.roleWay := roleWay;
      this.relationWays := relationWays;
      this.relationStops := relationStops;
      this.relationStopsType := relationStopsType;
      this.train := train;
      wayLength, firstNode, lastNode := map[], map[], map[];
      nodeWay, nodeDistance := map[], map[];
      chain := NoChain;
      relationDistance, wayStartDistance, stopNodeDistance := 0.0, map[], map[];
      rle, stats, drawing, maxspeedArray := Start, NoStats, Drawing([], NoBounds), [];
      stopPosition, exmaxarray, relationDistanceMs := [], [], 0.0;
      accbrake, converged, maxspeedPointArray := [], false, [];
      realAverageSpeed, maxspeedMax, stopName := 0.0, 0.0, [];
    }

    /** The loop of loadXml over the nodes of way w: its length, its end
        nodes, and the distance and way of every node it claims. */
    method MeasureWay(w: WayId, dist: Distance)
      modifies this`wayLength, this`firstNode, this`lastNode, this`nodeWay, this`nodeDistance
      ensures wayLength == old(wayLength)[w := PathLength(old(node), dist, NodesOf(old(Net()), w))]
      ensures firstNode == old(firstNode)[w := FirstOf(NodesOf(old(Net()), w))]
      ensures lastNode == old(lastNode)[w := LastOf(NodesOf(old(Net()), w))]
      ensures Marks(nodeDistance, nodeWay) ==
                MarkWay(old(node), dist, Marks(old(nodeDistance), old(nodeWay)), w, NodesOf(old(Net()), w))
    {
      var ids := NodesOf(Net(), w);
      var len, m := MeasureLoop(node, dist, Marks(nodeDistance, nodeWay), w, ids);
      nodeDistance, nodeWay := m.distance, m.way;
      wayLength := wayLength[w := len];
      firstNode := firstNode[w := FirstOf(ids)];
      lastNode := lastNode[w := LastOf(ids)];
    }

    /** loadRelationWays on a route that has not been loaded before: the
        foreach over relation_ways, followed by the closing row and the
        sentinel of maxspeed_array. The PHP conversions of tag values to
        numbers are passed in. */
    method LoadRelationWays(num: string -> real, mph: string -> real)
      modifies this`chain, this`relationDistance, this`wayStartDistance, this`nodeDistance,
               this`stopNodeDistance, this`rle, this`stats, this`drawing, this`maxspeedArray
      ensures LoadNow() == LoadWays(old(Net()), Config(train.maxspeed, num, mph), relationWays)
      ensures maxspeedArray == MaxspeedArrayOf(LoadNow())
    {
      var st := LoadLoop(Net(), Config(train.maxspeed, num, mph), relationWays);
      Store(st);
    }

    /** The fields loadRelationWays fills, set from the state its loop leaves. */
    method Store(st: Load)
      modifies this`chain, this`relationDistance, this`wayStartDistance, this`nodeDistance,
               this`stopNodeDistance, this`rle, this`stats, this`drawing, this`maxspeedArray
      ensures LoadNow() == st && maxspeedArray == Finish(st.rle)
    {
      chain, rle, stats, drawing := st.chain, st.rle, st.stats, st.drawing;
      relationDistance, wayStartDistance := st.distances.relationDistance, st.distances.wayStart;
      nodeDistance, stopNodeDistance := st.distances.nodeDistance, st.distances.stopNodeDistance;
      maxspeedArray := Finish(st.rle);
    }

    /** getAverageSpeed: the integral of the speed curve and its peak. */
    method GetAverageSpeed()
      modifies this`realAverageSpeed, this`maxspeedMax
      ensures realAverageSpeed == Integral(maxspeedPointArray) && maxspeedMax == Peak(maxspeedPointArray)
    {
      realAverageSpeed, maxspeedMax := AverageSpeedLoop(maxspeedPointArray);
    }

    /** calculateSpeed: stops are collected and sorted, inserted into the
        speed profile, the braking and acceleration events are derived,
        merged and settled, and the speed curve is summed up. passes bounds
        the repetitions of sort_accbrake and fuel its 80% loop. */
    method CalculateSpeed(ln: real -> real, passes: nat, fuel: nat)
      modifies this`stopPosition, this`exmaxarray, this`relationDistanceMs, this`accbrake, this`converged,
               this`maxspeedPointArray, this`realAverageSpeed, this`maxspeedMax
      ensures Calculated(old(node), old(stopNodeDistance), old(relationStops), old(maxspeedArray), train, ln, passes, fuel,
                         stopPosition, exmaxarray, relationDistanceMs, accbrake, converged, maxspeedPointArray)
      ensures realAverageSpeed == Integral(maxspeedPointArray) && maxspeedMax == Peak(maxspeedPointArray)
    {
      var stops, ex, total, events, settled, points :=
        CalculateAll(node, stopNodeDistance, relationStops, maxspeedArray, train, ln, passes, fuel);
      stopPosition, exmaxarray, relationDistanceMs := stops, ex, total;
      accbrake, converged, maxspeedPointArray := events, settled, points;
      GetAverageSpeed();
    }

    /** getStopNames: a name for every stop member, when there is one. */
    method GetStopNames()
      modifies this`stopName
      requires |relationStopsType| == |relationStops|
      ensures relationStops == [] ==> stopName == old(stopName)
      ensures relationStops != [] ==> |stopName| == |relationStops|
      ensures relationStops != [] ==> forall i :: 0 <= i < |relationStops| ==>
                stopName[i] == StopName(relationStopsType[i], relationStops[i], node, wayTags)
    {
      if relationStops != [] {
        stopName := StopNames(relationStops, relationStopsType, node, wayTags);
      }
    }

    /** The travel time and average speed output shows. */
    function TravelTimeShown(): (t: Option<real>)
      reads this
      ensures t.None? <==> realAverageSpeed == 0.0
    {
      TravelTime(relationDistance, realAverageSpeed)
    }

    function AverageSpeedShown(): (s: Option<real>)
      reads this
      ensures s.None? <==> relationDistance == 0.0
      ensures s.Some? ==> s.value * relationDistance == realAverageSpeed
    {
      AverageSpeed(relationDistance, realAverageSpeed)
    }
  }
}
