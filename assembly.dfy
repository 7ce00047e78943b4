/** The walk over the relation's ways in loadRelationWays
    (functions/getData.php:600-911): every way that is not a stop or
    platform member gets a direction from the end nodes of the previous
    such way; every railway among them adds its length to the route, its
    limit to the speed profile, its tags to the statistics and its nodes
    to the map. */
module Assembly {
  import opened Osm
  import opened Geometry
  import opened SpeedLimit
  import opened Profile

  /** What loadXml leaves for loadRelationWays: nodes, ways with their
      node lists, tags, lengths and end nodes, the way that claimed each
      node with the node's distance along it, and the member roles. */
  datatype Network = Network(
    nodes: map<NodeId, Node>,
    wayNodes: map<WayId, seq<NodeId>>,
    wayTags: map<WayId, Tags>,
    wayLength: map<WayId, real>,
    firstNode: map<WayId, NodeId>,
    lastNode: map<WayId, NodeId>,
    nodeWay: map<NodeId, WayId>,
    nodeDistance: map<NodeId, real>,
    roleWay: map<string, string>)

  // Reads of unset entries, which PHP turns into null (empty, 0, "").

  function NodesOf(net: Network, b: WayId): seq<NodeId> {
    if b in net.wayNodes then net.wayNodes[b] else []
  }

  function TagsOf(net: Network, b: WayId): Tags {
    if b in net.wayTags then net.wayTags[b] else map[]
  }

  function LengthOf(net: Network, b: WayId): real {
    if b in net.wayLength then net.wayLength[b] else 0.0
  }

  function FirstNodeOf(net: Network, b: WayId): NodeId {
    if b in net.firstNode then net.firstNode[b] else NullRef
  }

  function LastNodeOf(net: Network, b: WayId): NodeId {
    if b in net.lastNode then net.lastNode[b] else NullRef
  }

  function RoleOf(net: Network, b: WayId): string {
    if b in net.roleWay then net.roleWay[b] else ""
  }

  /** Stop and platform members are skipped entirely. */
  predicate IsStopOrPlatform(role: string) {
    Contains(role, "stop") || Contains(role, "platform")
  }

  predicate IsMember(net: Network, b: WayId) {
    !IsStopOrPlatform(RoleOf(net, b))
  }

  predicate IsTrackMember(net: Network, b: WayId) {
    IsMember(net, b) && IsTrack(TagsOf(net, b))
  }

  datatype Orientation = Orientation(dir: Direction, hole: bool)

  /** The direction of a way from the end nodes of the previous member
      (lastLast, lastFirst). With no previous end node (null) the way is
      unknown and not a hole; otherwise it is forward when its first node
      touches either end, else backward when its last node does, else a
      hole. */
  function Orient(lastLast: NodeId, lastFirst: NodeId, first: NodeId, last: NodeId): (o: Orientation)
    ensures lastLast == NullRef ==> o == Orientation(Unknown, false)
    ensures lastLast != NullRef ==>
              (o.dir == Forward <==> first == lastLast || first == lastFirst) &&
              (o.dir == Backward <==> first != lastLast && first != lastFirst && (last == lastLast || last == lastFirst)) &&
              (o.hole <==> o.dir == Unknown)
  {
    if lastLast == NullRef then Orientation(Unknown, false)
    else if first == lastLast || first == lastFirst then Orientation(Forward, false)
    else if last == lastLast || last == lastFirst then Orientation(Backward, false)
    else Orientation(Unknown, true)
  }

  /** A railway way and the direction it was given ($direction). */
  datatype Leg = Leg(way: WayId, dir: Direction)

  /** The comparison nodes, the hole counter and the directions so far. */
  datatype Chain = Chain(lastLast: NodeId, lastFirst: NodeId, holes: nat, legs: seq<Leg>)

  /** One member: its direction is worked out and it becomes the next
      comparison reference before the railway test; only railways are
      recorded as legs. */
  function ChainStep(net: Network, c: Chain, b: WayId): (r: Chain)
    ensures !IsMember(net, b) ==> r == c
    ensures IsMember(net, b) ==> r.lastLast == LastNodeOf(net, b) && r.lastFirst == FirstNodeOf(net, b)
    ensures r.holes == c.holes || (IsMember(net, b) && c.lastLast != NullRef && r.holes == c.holes + 1)
    ensures IsMember(net, b) ==>
              var o := Orient(c.lastLast, c.lastFirst, FirstNodeOf(net, b), LastNodeOf(net, b));
              r.holes == c.holes + (if o.hole then 1 else 0) &&
              r.legs == c.legs + (if IsTrack(TagsOf(net, b)) then [Leg(b, o.dir)] else [])
  {
    if !IsMember(net, b) then c
    else
      var o := Orient(c.lastLast, c.lastFirst, FirstNodeOf(net, b), LastNodeOf(net, b));
      var legs := if IsTrack(TagsOf(net, b)) then c.legs + [Leg(b, o.dir)] else c.legs;
      Chain(LastNodeOf(net, b), FirstNodeOf(net, b), c.holes + (if o.hole then 1 else 0), legs)
  }

  const NoChain: Chain := Chain(NullRef, NullRef, 0, [])

  function ChainWays(net: Network, ws: seq<WayId>): Chain
    decreases |ws|
  {
    if |ws| == 0 then NoChain else ChainStep(net, ChainWays(net, ws[..|ws| - 1]), ws[|ws| - 1])
  }

  /** The last member of ws that is not a stop or platform. */
  function LastMember(net: Network, ws: seq<WayId>): Option<WayId>
    decreases |ws|
  {
    if |ws| == 0 then None
    else if IsMember(net, ws[|ws| - 1]) then Some(ws[|ws| - 1])
    else LastMember(net, ws[..|ws| - 1])
  }

  function MemberCount(net: Network, ws: seq<WayId>): nat
    decreases |ws|
  {
    if |ws| == 0 then 0
    else MemberCount(net, ws[..|ws| - 1]) + (if IsMember(net, ws[|ws| - 1]) then 1 else 0)
  }

  /** The railway members of ws, in order. */
  function TrackWays(net: Network, ws: seq<WayId>): seq<WayId>
    decreases |ws|
  {
    if |ws| == 0 then []
    else TrackWays(net, ws[..|ws| - 1]) + (if IsTrackMember(net, ws[|ws| - 1]) then [ws[|ws| - 1]] else [])
  }

  function WaysOf(legs: seq<Leg>): (r: seq<WayId>)
    ensures |r| == |legs| && forall i :: 0 <= i < |legs| ==> r[i] == legs[i].way
  {
    if |legs| == 0 then [] else WaysOf(legs[..|legs| - 1]) + [legs[|legs| - 1].way]
  }

  /** The comparison reference is always the previous member, railway or
      not: its last and first node, or null before the first member. */
  lemma {:induction false} ChainFollowsLastMember(net: Network, ws: seq<WayId>)
    ensures var c := ChainWays(net, ws);
            match LastMember(net, ws)
            case None => c.lastLast == NullRef && c.lastFirst == NullRef
            case Some(b) => c.lastLast == LastNodeOf(net, b) && c.lastFirst == FirstNodeOf(net, b)
    decreases |ws|
  {
    if |ws| > 0 {
      ChainFollowsLastMember(net, ws[..|ws| - 1]);
    }
  }

  /** The first member is never a hole: there are fewer holes than
      members. */
  lemma {:induction false} HolesBound(net: Network, ws: seq<WayId>)
    ensures MemberCount(net, ws) == 0 ==> ChainWays(net, ws).holes == 0 && ChainWays(net, ws).lastLast == NullRef
    ensures MemberCount(net, ws) > 0 ==> ChainWays(net, ws).holes < MemberCount(net, ws)
    decreases |ws|
  {
    if |ws| > 0 {
      HolesBound(net, ws[..|ws| - 1]);
    }
  }

  /** A member is a hole when the member before it has a last node and
      neither end of the member is an end of that one. */
  predicate IsHole(net: Network, prev: Option<WayId>, b: WayId) {
    IsMember(net, b) && prev.Some? && LastNodeOf(net, prev.value) != NullRef &&
    FirstNodeOf(net, b) != LastNodeOf(net, prev.value) && FirstNodeOf(net, b) != FirstNodeOf(net, prev.value) &&
    LastNodeOf(net, b) != LastNodeOf(net, prev.value) && LastNodeOf(net, b) != FirstNodeOf(net, prev.value)
  }

  /** The number of holes of ws, member by member. */
  function Holes(net: Network, ws: seq<WayId>): nat
    decreases |ws|
  {
    if |ws| == 0 then 0
    else Holes(net, ws[..|ws| - 1]) + (if IsHole(net, LastMember(net, ws[..|ws| - 1]), ws[|ws| - 1]) then 1 else 0)
  }

  /** $holes counts exactly the members that do not touch the member
      before them. */
  lemma {:induction false} HolesCounted(net: Network, ws: seq<WayId>)
    ensures ChainWays(net, ws).holes == Holes(net, ws)
    decreases |ws|
  {
    if |ws| > 0 {
      HolesCounted(net, ws[..|ws| - 1]);
      ChainFollowsLastMember(net, ws[..|ws| - 1]);
    }
  }

  /** The legs are the railway members, in relation order. */
  lemma {:induction false} LegsAreTrackWays(net: Network, ws: seq<WayId>)
    ensures WaysOf(ChainWays(net, ws).legs) == TrackWays(net, ws)
    decreases |ws|
  {
    if |ws| > 0 {
      LegsAreTrackWays(net, ws[..|ws| - 1]);
      var c := ChainWays(net, ws[..|ws| - 1]);
      var b := ws[|ws| - 1];
      if IsTrackMember(net, b) {
        assert ChainWays(net, ws).legs == c.legs + [Leg(b, ChainWays(net, ws).legs[|c.legs|].dir)];
      }
    }
  }

  /** Two touching railways, a third one elsewhere: the first is unknown,
      the second forward, the third a hole. */
  lemma HoleExample()
    ensures var net := Network(map[], map[], map["1" := map["railway" := "rail"], "2" := map["railway" := "rail"], "3" := map["railway" := "rail"]],
                               map[], map["1" := "a", "2" := "b", "3" := "x"], map["1" := "b", "2" := "c", "3" := "y"],
                               map[], map[], map[]);
            var c := ChainWays(net, ["1", "2", "3"]);
            c.holes == 1 && c.legs == [Leg("1", Unknown), Leg("2", Forward), Leg("3", Unknown)]
  {
    var net := Network(map[], map[], map["1" := map["railway" := "rail"], "2" := map["railway" := "rail"], "3" := map["railway" := "rail"]],
                       map[], map["1" := "a", "2" := "b", "3" := "x"], map["1" := "b", "2" := "c", "3" := "y"],
                       map[], map[], map[]);
    assert !Contains("", "stop") && !Contains("", "platform");
    var ws := ["1", "2", "3"];
    assert ws[..2][..1] == ["1"] && ws[..2] == ["1", "2"] && ws[..1] == ["1"];
    assert ChainWays(net, ["1"]) == Chain("b", "a", 0, [Leg("1", Unknown)]);
    assert ChainWays(net, ["1", "2"]) == Chain("c", "b", 0, [Leg("1", Unknown), Leg("2", Forward)]);
  }

  /** A non-railway member between two railways still serves as the
      reference: the railway after it is oriented against it. */
  lemma NonRailwayIsReference()
    ensures var net := Network(map[], map[], map["1" := map["railway" := "rail"], "2" := map["highway" := "road"], "3" := map["railway" := "rail"]],
                               map[], map["1" := "a", "2" := "b", "3" := "c"], map["1" := "b", "2" := "c", "3" := "d"],
                               map[], map[], map[]);
            var c := ChainWays(net, ["1", "2", "3"]);
            c.holes == 0 && c.legs == [Leg("1", Unknown), Leg("3", Forward)]
  {
    var net := Network(map[], map[], map["1" := map["railway" := "rail"], "2" := map["highway" := "road"], "3" := map["railway" := "rail"]],
                       map[], map["1" := "a", "2" := "b", "3" := "c"], map["1" := "b", "2" := "c", "3" := "d"],
                       map[], map[], map[]);
    assert !Contains("", "stop") && !Contains("", "platform");
    var ws := ["1", "2", "3"];
    assert ws[..2][..1] == ["1"] && ws[..2] == ["1", "2"] && ws[..1] == ["1"];
    assert !IsTrack(map["highway" := "road"]);
    assert ChainWays(net, ["1"]) == Chain("b", "a", 0, [Leg("1", Unknown)]);
    assert ChainWays(net, ["1", "2"]) == Chain("c", "b", 0, [Leg("1", Unknown)]);
  }

  /** The route position of the ways: relation_distance, way_start_distance,
      node_distance and stop_node_distance. */
  datatype Distances = Distances(relationDistance: real, wayStart: map<WayId, real>,
                                 nodeDistance: map<NodeId, real>, stopNodeDistance: map<NodeId, real>)

  predicate OnWay(nodeWay: map<NodeId, WayId>, id: NodeId, b: WayId) {
    id in nodeWay && nodeWay[id] == b
  }

  /** On a backward way every node claimed by it is measured from the
      other end: way_length minus its distance. */
  function FlipNodes(nd: map<NodeId, real>, nodeWay: map<NodeId, WayId>, b: WayId, backward: bool, len: real): (r: map<NodeId, real>)
    ensures r.Keys == nd.Keys
    ensures forall id :: id in nd ==> r[id] == if backward && OnWay(nodeWay, id, b) then len - nd[id] else nd[id]
  {
    map id | id in nd :: if backward && OnWay(nodeWay, id, b) then len - nd[id] else nd[id]
  }

  /** Flipping the same way twice gives the original distances back, so a
      way the route passes twice backward is measured forward the second
      time. */
  lemma FlipTwice(nd: map<NodeId, real>, nodeWay: map<NodeId, WayId>, b: WayId, len: real)
    ensures FlipNodes(FlipNodes(nd, nodeWay, b, true, len), nodeWay, b, true, len) == nd
  {
  }

  /** Every node claimed by way b gets its distance from the start of the
      route: the way's start plus its distance along the way. */
  function StopDistances(snd: map<NodeId, real>, nd: map<NodeId, real>, nodeWay: map<NodeId, WayId>,
                         b: WayId, start: real): (r: map<NodeId, real>)
    ensures forall id :: id in nd && OnWay(nodeWay, id, b) ==> id in r && r[id] == start + nd[id]
    ensures forall id :: !(id in nd && OnWay(nodeWay, id, b)) ==> (id in r <==> id in snd) && (id in snd ==> r[id] == snd[id])
  {
    map id | id in snd.Keys + (set n | n in nd && OnWay(nodeWay, n, b)) ::
      if id in nd && OnWay(nodeWay, id, b) then start + nd[id] else snd[id]
  }

  function DistancesStep(net: Network, d: Distances, b: WayId, dir: Direction): (r: Distances)
    ensures r.relationDistance == d.relationDistance + LengthOf(net, b)
    ensures r.wayStart == d.wayStart[b := d.relationDistance]
    ensures r.nodeDistance == FlipNodes(d.nodeDistance, net.nodeWay, b, dir == Backward, LengthOf(net, b))
    ensures r.stopNodeDistance == StopDistances(d.stopNodeDistance, r.nodeDistance, net.nodeWay, b, d.relationDistance)
  {
    var len := LengthOf(net, b);
    var nd := FlipNodes(d.nodeDistance, net.nodeWay, b, dir == Backward, len);
    Distances(d.relationDistance + len, d.wayStart[b := d.relationDistance], nd,
              StopDistances(d.stopNodeDistance, nd, net.nodeWay, b, d.relationDistance))
  }

  /** `map[key] += len`, creating the entry at 0 first. */
  function Credit(m: map<string, real>, key: string, len: real): (r: map<string, real>)
    ensures key in r && r[key] == (if key in m then m[key] else 0.0) + len
    ensures forall k :: k != key ==> (k in r <==> k in m) && (k in m ==> r[k] == m[k])
  {
    m[key := (if key in m then m[key] else 0.0) + len]
  }

  /** Credits len to key when there is one. */
  function CreditOpt(m: map<string, real>, key: Option<string>, len: real): map<string, real> {
    if key.Some? then Credit(m, key.value, len) else m
  }

  /** The sum of the values of m at keys. */
  ghost function SumOver(m: map<string, real>, keys: set<string>): real
    requires keys <= m.Keys
    decreases keys
  {
    if keys == {} then 0.0 else var k :| k in keys; m[k] + SumOver(m, keys - {k})
  }

  /** The sum of the values of a statistics map. */
  ghost function MapSum(m: map<string, real>): real {
    SumOver(m, m.Keys)
  }

  /** The sum does not depend on the key taken out first. */
  lemma {:induction false} SumOverRemove(m: map<string, real>, keys: set<string>, k: string)
    requires keys <= m.Keys && k in keys
    ensures SumOver(m, keys) == m[k] + SumOver(m, keys - {k})
    decreases keys
  {
    var j :| j in keys && SumOver(m, keys) == m[j] + SumOver(m, keys - {j});
    if j != k {
      SumOverRemove(m, keys - {j}, k);
      SumOverRemove(m, keys - {k}, j);
      assert keys - {j} - {k} == keys - {k} - {j};
    }
  }

  /** Values outside keys do not matter. */
  lemma {:induction false} SumOverFrame(m: map<string, real>, n: map<string, real>, keys: set<string>)
    requires keys <= m.Keys && keys <= n.Keys
    requires forall k :: k in keys ==> m[k] == n[k]
    ensures SumOver(m, keys) == SumOver(n, keys)
    decreases keys
  {
    if keys != {} {
      var j :| j in keys && SumOver(m, keys) == m[j] + SumOver(m, keys - {j});
      SumOverRemove(n, keys, j);
      SumOverFrame(m, n, keys - {j});
    }
  }

  lemma CreditOptSum(m: map<string, real>, key: Option<string>, len: real)
    ensures MapSum(CreditOpt(m, key, len)) == MapSum(m) + Share(key.Some?, len)
  {
    if key.Some? {
      CreditSum(m, key.value, len);
    }
  }

  /** Crediting len to a key adds len to the sum of the map. */
  lemma CreditSum(m: map<string, real>, key: string, len: real)
    ensures MapSum(Credit(m, key, len)) == MapSum(m) + len
  {
    var r := Credit(m, key, len);
    SumOverRemove(r, r.Keys, key);
    SumOverFrame(r, m, m.Keys - {key});
    if key in m {
      SumOverRemove(m, m.Keys, key);
      assert r.Keys - {key} == m.Keys - {key};
    } else {
      assert r.Keys - {key} == m.Keys - {key} == m.Keys;
    }
  }

  function TagOpt(tags: Tags, key: string): Option<string> {
    if key in tags then Some(tags[key]) else None
  }

  /** The traffic mode: the tag, or "passenger" by default on tram, light
      rail and subway tracks. */
  function TrafficMode(tags: Tags): (r: Option<string>)
    ensures "railway:traffic_mode" in tags ==> r == Some(tags["railway:traffic_mode"])
    ensures r.None? <==> "railway:traffic_mode" !in tags && !(HasTag(tags, "railway", "tram") || HasTag(tags, "railway", "light_rail") || HasTag(tags, "railway", "subway"))
  {
    if "railway:traffic_mode" in tags then Some(tags["railway:traffic_mode"])
    else if HasTag(tags, "railway", "tram") || HasTag(tags, "railway", "light_rail") || HasTag(tags, "railway", "subway") then Some("passenger")
    else None
  }

  /** The translated "N/A" put in for a missing voltage or frequency. */
  const NotAvailable: string := "N/A"

  /** The key of the electrification statistics: "voltage;frequency" for an
      electrified way, "no" for electrified=no, none when untagged. */
  function ElectricKey(tags: Tags): (r: Option<string>)
    ensures r.None? <==> "electrified" !in tags
    ensures HasTag(tags, "electrified", "no") ==> r == Some("no")
    ensures "electrified" in tags && tags["electrified"] != "no" ==>
              r == Some(TagOr(tags, "voltage", NotAvailable) + ";" + TagOr(tags, "frequency", NotAvailable))
  {
    if "electrified" !in tags then None
    else if tags["electrified"] != "no" then
      Some(TagOr(tags, "voltage", NotAvailable) + ";" + TagOr(tags, "frequency", NotAvailable))
    else Some("no")
  }

  /** Whether a structure tag counts: present and not "no". */
  predicate IsStructure(tags: Tags, key: string) {
    key in tags && tags[key] != "no"
  }

  function Share(yes: bool, len: real): real {
    if yes then len else 0.0
  }

  /** The operator, traffic-mode, electrification and structure
      statistics. */
  datatype Stats = Stats(operatorDistance: real, operator: map<string, real>,
                         trafficmodeDistance: real, trafficmode: map<string, real>,
                         electrifiedDistance: real, electrified: map<string, real>,
                         bridge: real, tunnel: real, embankment: real, cutting: real, building: real)

  const NoStats: Stats := Stats(0.0, map[], 0.0, map[], 0.0, map[], 0.0, 0.0, 0.0, 0.0, 0.0)

  predicate BuildingBalanced(s: Stats) {
    s.building == s.bridge + s.tunnel + s.embankment + s.cutting
  }

  function StatsStep(tags: Tags, len: real, s: Stats): (r: Stats)
    ensures BuildingBalanced(s) ==> BuildingBalanced(r)
    ensures r.operatorDistance == s.operatorDistance + Share("operator" in tags, len)
    ensures r.electrifiedDistance == s.electrifiedDistance + Share("electrified" in tags, len)
    ensures r.trafficmodeDistance == s.trafficmodeDistance + Share(TrafficMode(tags).Some?, len)
    ensures r.operator == if "operator" in tags then Credit(s.operator, tags["operator"], len) else s.operator
    ensures r.trafficmode == if TrafficMode(tags).Some? then Credit(s.trafficmode, TrafficMode(tags).value, len) else s.trafficmode
    ensures r.electrified == if "electrified" in tags then Credit(s.electrified, ElectricKey(tags).value, len) else s.electrified
    ensures r.bridge == s.bridge + Share(IsStructure(tags, "bridge"), len)
    ensures r.tunnel == s.tunnel + Share(IsStructure(tags, "tunnel"), len)
    ensures r.embankment == s.embankment + Share(IsStructure(tags, "embankment"), len)
    ensures r.cutting == s.cutting + Share(IsStructure(tags, "cutting"), len)
  {
    var op := TagOpt(tags, "operator");
    var mode := TrafficMode(tags);
    var power := ElectricKey(tags);
    var br, tu, em, cu := Share(IsStructure(tags, "bridge"), len), Share(IsStructure(tags, "tunnel"), len),
                          Share(IsStructure(tags, "embankment"), len), Share(IsStructure(tags, "cutting"), len);
    Stats(s.operatorDistance + Share(op.Some?, len), CreditOpt(s.operator, op, len),
          s.trafficmodeDistance + Share(mode.Some?, len), CreditOpt(s.trafficmode, mode, len),
          s.electrifiedDistance + Share(power.Some?, len), CreditOpt(s.electrified, power, len),
          s.bridge + br, s.tunnel + tu, s.embankment + em, s.cutting + cu,
          s.building + br + tu + em + cu)
  }

  /** Each distance total is the sum of the map it is spread over:
      operator_distance of operator, trafficmode_distance of trafficmode,
      electrified_distance of electrified. */
  ghost predicate StatsConsistent(s: Stats) {
    s.operatorDistance == MapSum(s.operator) &&
    s.trafficmodeDistance == MapSum(s.trafficmode) &&
    s.electrifiedDistance == MapSum(s.electrified)
  }

  lemma StatsStepConsistent(tags: Tags, len: real, s: Stats)
    requires StatsConsistent(s)
    ensures StatsConsistent(StatsStep(tags, len, s))
  {
    CreditOptSum(s.operator, TagOpt(tags, "operator"), len);
    CreditOptSum(s.trafficmode, TrafficMode(tags), len);
    CreditOptSum(s.electrified, ElectricKey(tags), len);
  }

  /** A way with a voltage and no frequency is keyed "voltage;N/A". */
  lemma ElectricKeyExample()
    ensures ElectricKey(map["electrified" := "contact_line", "voltage" := "15000"]) == Some("15000;N/A")
  {
    assert "contact_line"[0] != "no"[0];
    assert "15000" + ";" + NotAvailable == "15000;N/A";
  }

  /** A map_node entry: a node position, the (0, 0) gap marker, or the
      null position of a node that was not loaded. */
  datatype MapPoint = Gap | Missing | At(lat: real, lon: real)

  /** The four bounds of the map; None is null, that is, unset. */
  datatype Bounds = Bounds(minLat: Option<real>, maxLat: Option<real>, minLon: Option<real>, maxLon: Option<real>)

  const NoBounds: Bounds := Bounds(None, None, None, None)

  /** `min(b, c)` after b was seeded with c when unset. PHP orders null
      before every coordinate string, so a null coordinate makes the bound
      null, and the next node seeds it again. */
  function LowerBound(b: Option<real>, c: Option<real>): (r: Option<real>)
    ensures c.None? ==> r.None?
    ensures c.Some? ==> r.Some? && r.value <= c.value && (b.Some? ==> r.value <= b.value)
    ensures c.Some? ==> r.value == c.value || r == b
  {
    if c.None? then None else if b.None? then c else Some(Min(b.value, c.value))
  }

  /** `max(b, c)` after b was seeded with c when unset: a null coordinate
      leaves the bound as it was. */
  function UpperBound(b: Option<real>, c: Option<real>): (r: Option<real>)
    ensures c.None? ==> r == b
    ensures c.Some? ==> r.Some? && r.value >= c.value && (b.Some? ==> r.value >= b.value)
    ensures c.Some? ==> r.value == c.value || r == b
  {
    if c.None? then b else if b.None? then c else Some(Max(b.value, c.value))
  }

  /** The bounds after one more node, whose coordinates are lat and lon
      (None for a node that was not loaded). */
  function Extend(b: Bounds, lat: Option<real>, lon: Option<real>): (r: Bounds)
    ensures r.minLat == LowerBound(b.minLat, lat) && r.maxLat == UpperBound(b.maxLat, lat)
    ensures r.minLon == LowerBound(b.minLon, lon) && r.maxLon == UpperBound(b.maxLon, lon)
  {
    Bounds(LowerBound(b.minLat, lat), UpperBound(b.maxLat, lat), LowerBound(b.minLon, lon), UpperBound(b.maxLon, lon))
  }

  /** The map entry of a node: its position, or null when it was not
      loaded. */
  function PointOf(nodes: map<NodeId, Node>, id: NodeId): MapPoint {
    if id in nodes then At(nodes[id].lat, nodes[id].lon) else Missing
  }

  /** The positions of the nodes ids, in order. */
  function Points(nodes: map<NodeId, Node>, ids: seq<NodeId>): (r: seq<MapPoint>)
    ensures |r| == |ids|
    ensures forall i :: 0 <= i < |r| ==> (r[i].At? <==> ids[i] in nodes) && !r[i].Gap?
    ensures forall i :: 0 <= i < |r| && ids[i] in nodes ==> r[i].lat == nodes[ids[i]].lat && r[i].lon == nodes[ids[i]].lon
    ensures forall i :: 0 <= i < |r| ==> r[i] == PointOf(nodes, ids[i])
  {
    if |ids| == 0 then [] else Points(nodes, ids[..|ids| - 1]) + [PointOf(nodes, ids[|ids| - 1])]
  }

  /** The bounds after one map entry: a gap marker is not a node and
      leaves them alone. */
  function CoverPoint(b: Bounds, p: MapPoint): Bounds {
    match p
    case Gap => b
    case Missing => Extend(b, None, None)
    case At(lat, lon) => Extend(b, Some(lat), Some(lon))
  }

  /** The bounds after the points pts. */
  function Cover(b: Bounds, pts: seq<MapPoint>): Bounds
    decreases |pts|
  {
    if |pts| == 0 then b else CoverPoint(Cover(b, pts[..|pts| - 1]), pts[|pts| - 1])
  }

  /** No null entry follows index i. */
  predicate NoMissingAfter(pts: seq<MapPoint>, i: nat) {
    forall j :: i < j < |pts| ==> !pts[j].Missing?
  }

  /** The upper bounds are at least every point drawn; the lower bounds are
      at most every point after which no null entry was drawn (a null
      entry resets them). */
  predicate Covers(b: Bounds, pts: seq<MapPoint>) {
    (forall i :: 0 <= i < |pts| && pts[i].At? ==>
       b.maxLat.Some? && pts[i].lat <= b.maxLat.value && b.maxLon.Some? && pts[i].lon <= b.maxLon.value) &&
    (forall i :: 0 <= i < |pts| && pts[i].At? && NoMissingAfter(pts, i) ==>
       b.minLat.Some? && b.minLat.value <= pts[i].lat && b.minLon.Some? && b.minLon.value <= pts[i].lon)
  }

  lemma CoverPointContains(b: Bounds, pts: seq<MapPoint>, p: MapPoint)
    requires Covers(b, pts)
    ensures Covers(CoverPoint(b, p), pts + [p])
  {
    var r := CoverPoint(b, p);
    var q := pts + [p];
    forall i | 0 <= i < |q| && q[i].At? && NoMissingAfter(q, i)
      ensures r.minLat.Some? && r.minLat.value <= q[i].lat && r.minLon.Some? && r.minLon.value <= q[i].lon
    {
      if i < |pts| {
        assert q[i] == pts[i];
        assert !p.Missing? by { assert q[|pts|] == p; }
        assert NoMissingAfter(pts, i) by {
          forall j | i < j < |pts| ensures !pts[j].Missing? { assert q[j] == pts[j]; }
        }
      }
    }
    forall i | 0 <= i < |q| && q[i].At?
      ensures r.maxLat.Some? && q[i].lat <= r.maxLat.value && r.maxLon.Some? && q[i].lon <= r.maxLon.value
    {
      if i < |pts| {
        assert q[i] == pts[i];
      }
    }
  }

  /** The bounds contain every point they were extended with, and every
      point they contained before, as far as no null entry reset the lower
      bounds since. */
  lemma {:induction false} CoverContains(b: Bounds, pts: seq<MapPoint>, earlier: seq<MapPoint>)
    requires Covers(b, earlier)
    ensures Covers(Cover(b, pts), earlier + pts)
    decreases |pts|
  {
    if |pts| > 0 {
      var init := pts[..|pts| - 1];
      CoverContains(b, init, earlier);
      CoverPointContains(Cover(b, init), earlier + init, pts[|pts| - 1]);
      assert earlier + pts == (earlier + init) + [pts[|pts| - 1]];
    } else {
      assert earlier + pts == earlier;
    }
  }

  /** A node that was not loaded between two nodes at latitude 52 and 53
      leaves the minimum null, so the next node sets both latitude bounds
      to 53. */
  lemma MissingNodeResetsMinimum()
    ensures Cover(NoBounds, [At(52.0, 1.0), Missing, At(53.0, 2.0)]) == Bounds(Some(53.0), Some(53.0), Some(2.0), Some(2.0))
  {
    var pts := [At(52.0, 1.0), Missing, At(53.0, 2.0)];
    assert pts[..2] == [At(52.0, 1.0), Missing] && pts[..2][..1] == [At(52.0, 1.0)];
    assert Cover(NoBounds, [At(52.0, 1.0)]) == Bounds(Some(52.0), Some(52.0), Some(1.0), Some(1.0));
    assert Cover(NoBounds, pts[..2]) == Bounds(None, Some(52.0), None, Some(1.0));
  }

  /** A null coordinate does not lower a negative maximum. */
  lemma MissingNodeKeepsMaximum()
    ensures Cover(NoBounds, [At(-5.0, -7.0), Missing]) == Bounds(None, Some(-5.0), None, Some(-7.0))
  {
    var pts := [At(-5.0, -7.0), Missing];
    assert pts[..1] == [At(-5.0, -7.0)];
  }

  /** map_node and the four bounds. */
  datatype Drawing = Drawing(mapNode: seq<MapPoint>, bounds: Bounds)

  /** A way's contribution to the map: a gap marker first when its
      direction is unknown, then its nodes, reversed when it is travelled
      backward. */
  function WayPoints(net: Network, b: WayId, dir: Direction): (r: seq<MapPoint>)
    ensures |r| == |NodesOf(net, b)| + (if dir == Unknown then 1 else 0)
    ensures dir == Unknown ==> r[0] == Gap
    ensures var n := |NodesOf(net, b)|; var off := if dir == Unknown then 1 else 0;
            forall i :: 0 <= i < n ==>
              r[off + i] == PointOf(net.nodes, if dir == Backward then NodesOf(net, b)[n - 1 - i] else NodesOf(net, b)[i])
  {
    var ids := if dir == Backward then Reverse(NodesOf(net, b)) else NodesOf(net, b);
    (if dir == Unknown then [Gap] else []) + Points(net.nodes, ids)
  }

  /** The way's points are drawn, and the bounds grow over them; bounds
      that covered the drawing before cover it after. */
  function DrawingStep(net: Network, d: Drawing, b: WayId, dir: Direction): (r: Drawing)
    ensures r.mapNode == d.mapNode + WayPoints(net, b, dir)
    ensures r.bounds == Cover(d.bounds, WayPoints(net, b, dir))
    ensures Covers(d.bounds, d.mapNode) ==> Covers(r.bounds, r.mapNode)
  {
    var pts := WayPoints(net, b, dir);
    var r := Drawing(d.mapNode + pts, Cover(d.bounds, pts));
    assert Covers(d.bounds, d.mapNode) ==> Covers(r.bounds, r.mapNode) by {
      if Covers(d.bounds, d.mapNode) {
        CoverContains(d.bounds, pts, d.mapNode);
      }
    }
    r
  }

  /** Everything loadRelationWays computes. */
  datatype Load = Load(chain: Chain, distances: Distances, rle: Rle, stats: Stats, drawing: Drawing)

  /** The train's maxspeed and PHP's two numeric conversions of tag
      values (a numeric string; an mph value to km/h). */
  datatype Config = Config(trainMax: real, num: string -> real, mph: string -> real)

  function Initial(net: Network): Load {
    Load(NoChain, Distances(0.0, map[], net.nodeDistance, map[]), Start, NoStats, Drawing([], NoBounds))
  }

  /** The section a railway way adds to the speed profile. */
  function LegSection(net: Network, cfg: Config, b: WayId, dir: Direction): (s: Section)
    ensures s.length == LengthOf(net, b) && s.limit <= cfg.trainMax
  {
    var l := WayLimit(TagsOf(net, b), dir, cfg.trainMax, cfg.num, cfg.mph);
    Section(LengthOf(net, b), l.speed, l.exact)
  }

  /** One iteration of the loop over relation_ways. */
  function LoadStep(net: Network, cfg: Config, st: Load, b: WayId): (r: Load)
    ensures r.chain == ChainStep(net, st.chain, b)
    ensures !IsTrackMember(net, b) ==> r == st.(chain := r.chain)
    ensures IsTrackMember(net, b) ==>
              var dir := Orient(st.chain.lastLast, st.chain.lastFirst, FirstNodeOf(net, b), LastNodeOf(net, b)).dir;
              r.distances == DistancesStep(net, st.distances, b, dir) &&
              r.rle == Push(st.rle, LegSection(net, cfg, b, dir)) &&
              r.stats == StatsStep(TagsOf(net, b), LengthOf(net, b), st.stats) &&
              r.drawing == DrawingStep(net, st.drawing, b, dir)
  {
    var chain := ChainStep(net, st.chain, b);
    if !IsTrackMember(net, b) then st.(chain := chain)
    else
      var dir := chain.legs[|chain.legs| - 1].dir;
      Load(chain, DistancesStep(net, st.distances, b, dir), Push(st.rle, LegSection(net, cfg, b, dir)),
           StatsStep(TagsOf(net, b), LengthOf(net, b), st.stats), DrawingStep(net, st.drawing, b, dir))
  }

  function LoadWays(net: Network, cfg: Config, ws: seq<WayId>): Load
    decreases |ws|
  {
    if |ws| == 0 then Initial(net) else LoadStep(net, cfg, LoadWays(net, cfg, ws[..|ws| - 1]), ws[|ws| - 1])
  }

  /** The maxspeed_array loadRelationWays stores. */
  function MaxspeedArrayOf(st: Load): seq<Section> {
    Finish(st.rle)
  }

  function SumWayLengths(net: Network, ws: seq<WayId>): real
    decreases |ws|
  {
    if |ws| == 0 then 0.0 else SumWayLengths(net, ws[..|ws| - 1]) + LengthOf(net, ws[|ws| - 1])
  }

  /** What the loop keeps true after every way. */
  ghost predicate LoadInvariant(net: Network, cfg: Config, st: Load) {
    SumLengths(st.rle.closed) + st.rle.runLength == st.distances.relationDistance &&
    (cfg.trainMax >= 0.0 ==> Capped(st.rle, cfg.trainMax)) &&
    BuildingBalanced(st.stats) && StatsConsistent(st.stats) &&
    Covers(st.drawing.bounds, st.drawing.mapNode)
  }

  lemma LoadStepInvariant(net: Network, cfg: Config, st: Load, b: WayId)
    requires LoadInvariant(net, cfg, st)
    ensures LoadInvariant(net, cfg, LoadStep(net, cfg, st, b))
  {
    if IsTrackMember(net, b) {
      var chain := ChainStep(net, st.chain, b);
      var dir := chain.legs[|chain.legs| - 1].dir;
      var s := LegSection(net, cfg, b, dir);
      CoverContains(st.drawing.bounds, WayPoints(net, b, dir), st.drawing.mapNode);
      StatsStepConsistent(TagsOf(net, b), LengthOf(net, b), st.stats);
      if cfg.trainMax >= 0.0 {
        PushCapped(st.rle, s, cfg.trainMax);
      }
    }
  }

  lemma {:induction false} LoadWaysInvariant(net: Network, cfg: Config, ws: seq<WayId>)
    ensures LoadInvariant(net, cfg, LoadWays(net, cfg, ws))
    decreases |ws|
  {
    if |ws| > 0 {
      var init := ws[..|ws| - 1];
      LoadWaysInvariant(net, cfg, init);
      LoadStepInvariant(net, cfg, LoadWays(net, cfg, init), ws[|ws| - 1]);
    } else {
      assert Covers(NoBounds, []);
      assert StatsConsistent(NoStats);
    }
  }

  /** A railway member adds its length to relation_distance; any other
      member leaves it. */
  lemma LoadStepDistance(net: Network, cfg: Config, st: Load, b: WayId)
    ensures LoadStep(net, cfg, st, b).distances.relationDistance ==
            st.distances.relationDistance + (if IsTrackMember(net, b) then LengthOf(net, b) else 0.0)
  {
  }

  lemma SumTrackWaysStep(net: Network, ws: seq<WayId>)
    requires |ws| > 0
    ensures SumWayLengths(net, TrackWays(net, ws)) ==
            SumWayLengths(net, TrackWays(net, ws[..|ws| - 1])) + (if IsTrackMember(net, ws[|ws| - 1]) then LengthOf(net, ws[|ws| - 1]) else 0.0)
  {
    var tw := TrackWays(net, ws[..|ws| - 1]);
    var b := ws[|ws| - 1];
    if IsTrackMember(net, b) {
      assert TrackWays(net, ws) == tw + [b];
      assert (tw + [b])[..|tw|] == tw;
    } else {
      assert TrackWays(net, ws) == tw;
    }
  }

  lemma {:induction false} LoadWaysDistance(net: Network, cfg: Config, ws: seq<WayId>)
    ensures LoadWays(net, cfg, ws).distances.relationDistance == SumWayLengths(net, TrackWays(net, ws))
    decreases |ws|
  {
    if |ws| > 0 {
      var init := ws[..|ws| - 1];
      LoadWaysDistance(net, cfg, init);
      LoadStepDistance(net, cfg, LoadWays(net, cfg, init), ws[|ws| - 1]);
      SumTrackWaysStep(net, ws);
    }
  }

  /** The chain of LoadWays is ChainWays, and the loop invariant holds
      after every prefix of the ways; railways add their lengths to
      relation_distance. */
  lemma LoadWaysFacts(net: Network, cfg: Config, ws: seq<WayId>)
    ensures LoadWays(net, cfg, ws).chain == ChainWays(net, ws)
    ensures LoadInvariant(net, cfg, LoadWays(net, cfg, ws))
    ensures LoadWays(net, cfg, ws).distances.relationDistance == SumWayLengths(net, TrackWays(net, ws))
  {
    LoadWaysChain(net, cfg, ws);
    LoadWaysInvariant(net, cfg, ws);
    LoadWaysDistance(net, cfg, ws);
  }

  /** The rows of maxspeed_array add up to relation_distance, the total
      length of the railway members. */
  lemma MaxspeedArraySumsToDistance(net: Network, cfg: Config, ws: seq<WayId>)
    ensures var st := LoadWays(net, cfg, ws);
            SumLengths(MaxspeedArrayOf(st)) == st.distances.relationDistance == SumWayLengths(net, TrackWays(net, ws))
  {
    LoadWaysFacts(net, cfg, ws);
    FinishLength(LoadWays(net, cfg, ws).rle);
  }

  /** No row of maxspeed_array exceeds the train's maxspeed. */
  lemma MaxspeedArrayWithinTrain(net: Network, cfg: Config, ws: seq<WayId>)
    requires cfg.trainMax >= 0.0
    ensures forall k :: 0 <= k < |MaxspeedArrayOf(LoadWays(net, cfg, ws))| ==>
              MaxspeedArrayOf(LoadWays(net, cfg, ws))[k].limit <= cfg.trainMax
  {
    LoadWaysFacts(net, cfg, ws);
  }

  /** building_distance is the sum of the four structure distances, and
      the map bounds contain every node drawn. */
  lemma StatsAndBounds(net: Network, cfg: Config, ws: seq<WayId>)
    ensures BuildingBalanced(LoadWays(net, cfg, ws).stats)
    ensures StatsConsistent(LoadWays(net, cfg, ws).stats)
    ensures Covers(LoadWays(net, cfg, ws).drawing.bounds, LoadWays(net, cfg, ws).drawing.mapNode)
  {
    LoadWaysFacts(net, cfg, ws);
  }

  /** The number of map points: every node of every railway leg, plus one
      gap marker per leg of unknown direction. */
  function MapSize(net: Network, legs: seq<Leg>): nat
    decreases |legs|
  {
    if |legs| == 0 then 0
    else
      var l := legs[|legs| - 1];
      MapSize(net, legs[..|legs| - 1]) + |NodesOf(net, l.way)| + (if l.dir == Unknown then 1 else 0)
  }

  /** The chain loadRelationWays keeps is the chain of its ways. */
  lemma {:induction false} LoadWaysChain(net: Network, cfg: Config, ws: seq<WayId>)
    ensures LoadWays(net, cfg, ws).chain == ChainWays(net, ws)
    decreases |ws|
  {
    if |ws| > 0 {
      LoadWaysChain(net, cfg, ws[..|ws| - 1]);
    }
  }

  lemma {:induction false} MapNodeCount(net: Network, cfg: Config, ws: seq<WayId>)
    ensures |LoadWays(net, cfg, ws).drawing.mapNode| == MapSize(net, ChainWays(net, ws).legs)
    decreases |ws|
  {
    if |ws| > 0 {
      var init := ws[..|ws| - 1];
      var b := ws[|ws| - 1];
      MapNodeCount(net, cfg, init);
      LoadWaysChain(net, cfg, init);
      var prev := LoadWays(net, cfg, init);
      var before := ChainWays(net, init);
      assert LoadWays(net, cfg, ws) == LoadStep(net, cfg, prev, b);
      var legs := ChainWays(net, ws).legs;
      assert legs == ChainStep(net, before, b).legs;
      if IsTrackMember(net, b) {
        assert legs[..|legs| - 1] == before.legs;
        var dir := legs[|legs| - 1].dir;
        assert LoadWays(net, cfg, ws).drawing == DrawingStep(net, prev.drawing, b, dir);
      } else {
        assert legs == before.legs;
        assert LoadWays(net, cfg, ws).drawing == prev.drawing;
      }
    }
  }

  /** The route-validity test of loadXml: a relation of type route whose
      route tag is train, tram, light_rail, subway or rail. */
  predicate IsRouteRelation(tags: Tags) {
    HasTag(tags, "type", "route") && "route" in tags &&
    tags["route"] in {"train", "tram", "light_rail", "subway", "rail"}
  }

  /** The predicate is the negated rejection test of loadXml, clause by
      clause. */
  lemma RouteRelationGuard(tags: Tags)
    ensures IsRouteRelation(tags) <==>
              !("type" !in tags || tags["type"] != "route" || "route" !in tags ||
                !(tags["route"] == "train" || tags["route"] == "tram" || tags["route"] == "light_rail" ||
                  tags["route"] == "subway" || tags["route"] == "rail"))
  {
  }

  /** Only the type and route tags decide. */
  lemma RouteRelationFrame(tags: Tags, k: string, v: string)
    requires k != "type" && k != "route"
    ensures IsRouteRelation(tags[k := v]) == IsRouteRelation(tags)
  {
  }

  lemma RouteRelationExamples()
    ensures IsRouteRelation(map["type" := "route", "route" := "train"])
    ensures !IsRouteRelation(map["type" := "route_master", "route" := "train"])
    ensures !IsRouteRelation(map["type" := "route", "route" := "bus"])
    ensures !IsRouteRelation(map["type" := "route"])
  {
  }
}
