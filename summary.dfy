/** The figures shown for a route: the integral and the peak of the speed
    curve (getAverageSpeed, functions/getData.php:1897-1911), travel time
    and average speed (functions/getData.php:1601-1603), and the stop
    names (getStopNames, functions/getData.php:2293-2322). */
module Summary {
  import opened Osm
  import opened Reconcile

  /** The trapezoid between two consecutive points of the speed curve. */
  function Trapezoid(a: Point, b: Point): real {
    (b.x - a.x) * (a.v + b.v) / 2.0
  }

  /** real_average_speed: the sum of the trapezoids, where the point
      before the first one is the first one itself. */
  function Integral(points: seq<Point>): real
    decreases |points|
  {
    if |points| == 0 then 0.0
    else if |points| == 1 then Trapezoid(points[0], points[0])
    else Integral(points[..|points| - 1]) + Trapezoid(points[|points| - 2], points[|points| - 1])
  }

  /** The copied point makes the first trapezoid zero wide. */
  lemma FirstTrapezoidIsEmpty(p: Point)
    ensures Integral([p]) == 0.0
  {
  }

  /** At a constant speed the integral is that speed times the distance
      from the first to the last point. */
  lemma {:induction false} IntegralAtConstantSpeed(points: seq<Point>, v: real)
    requires |points| > 0 && forall i :: 0 <= i < |points| ==> points[i].v == v
    ensures Integral(points) == v * (points[|points| - 1].x - points[0].x)
    decreases |points|
  {
    if |points| > 1 {
      var init := points[..|points| - 1];
      IntegralAtConstantSpeed(init, v);
      var a, b := points[|points| - 2], points[|points| - 1];
      assert Trapezoid(a, b) == (b.x - a.x) * v;
      assert init[0] == points[0];
    }
  }

  /** A curve that never goes back and never below 0 has a non-negative
      integral. */
  lemma {:induction false} IntegralNonNegative(points: seq<Point>)
    requires forall i :: 0 <= i < |points| ==> points[i].v >= 0.0
    requires forall i :: 0 < i < |points| ==> points[i - 1].x <= points[i].x
    ensures Integral(points) >= 0.0
    decreases |points|
  {
    if |points| > 1 {
      var init := points[..|points| - 1];
      IntegralNonNegative(init);
      TrapezoidNonNegative(points[|points| - 2], points[|points| - 1]);
    }
  }

  /** A trapezoid that goes forward at non-negative speeds has a
      non-negative area. */
  lemma TrapezoidNonNegative(a: Point, b: Point)
    requires a.x <= b.x && a.v >= 0.0 && b.v >= 0.0
    ensures Trapezoid(a, b) >= 0.0
  {
    var w, h := b.x - a.x, a.v + b.v;
    assert w >= 0.0 && h >= 0.0;
    assert w * h >= 0.0;
  }

  /** maxspeed_max: the highest speed on the curve, and 0 for an empty or
      standing curve. */
  function Peak(points: seq<Point>): (m: real)
    ensures m >= 0.0
    ensures forall i :: 0 <= i < |points| ==> points[i].v <= m
    ensures m == 0.0 || exists i :: 0 <= i < |points| && points[i].v == m
    decreases |points|
  {
    if |points| == 0 then 0.0
    else
      var init := points[..|points| - 1];
      var m := Peak(init);
      assert forall i :: 0 <= i < |init| ==> init[i] == points[i];
      if m < points[|points| - 1].v then points[|points| - 1].v else m
  }

  /** The loop of getAverageSpeed. */
  method AverageSpeedLoop(points: seq<Point>) returns (integral: real, peak: real)
    ensures integral == Integral(points)
    ensures peak == Peak(points)
  {
    integral, peak := 0.0, 0.0;
    if |points| == 0 {
      return;
    }
    var i := 0;
    while i < |points|
      invariant 0 <= i <= |points|
      invariant integral == Integral(points[..i]) && peak == Peak(points[..i])
    {
      var before := if i == 0 then points[0] else points[i - 1];
      assert points[..i + 1][..i] == points[..i];
      integral := integral + Trapezoid(before, points[i]);
      if peak < points[i].v {
        peak := points[i].v;
      }
      i := i + 1;
    }
    assert points[..i] == points;
  }

  /** travel_time in minutes: distance squared over real_average_speed,
      times 60. PHP divides by zero when the curve is flat at 0. */
  function TravelTime(distance: real, integral: real): (t: Option<real>)
    ensures t.None? <==> integral == 0.0
  {
    if integral == 0.0 then None else Some(distance * distance / integral * 60.0)
  }

  /** average_speed: real_average_speed over the distance. */
  function AverageSpeed(distance: real, integral: real): (s: Option<real>)
    ensures s.None? <==> distance == 0.0
    ensures s.Some? ==> s.value * distance == integral
  {
    if distance == 0.0 then None else Some(integral / distance)
  }

  /** Travel time times average speed is the distance times 60, so the
      travel time is the distance at the average speed. */
  lemma TimeTimesSpeed(distance: real, integral: real)
    requires distance != 0.0 && integral != 0.0
    ensures TravelTime(distance, integral).Some? && AverageSpeed(distance, integral).Some?
    ensures TravelTime(distance, integral).value * AverageSpeed(distance, integral).value == distance * 60.0
    ensures TravelTime(distance, integral).value == distance / AverageSpeed(distance, integral).value * 60.0
  {
    var t := distance * distance / integral * 60.0;
    var s := integral / distance;
    assert t * integral == distance * distance * 60.0;
    assert s * distance == integral;
    assert t * s * distance * integral == distance * 60.0 * distance * integral;
    assert s != 0.0;
  }

  /** The translated "Unknown stop". */
  const UnknownStop: string := "Unknown stop"

  /** The name of a stop member: for a node its name, else its
      description; for a way its name; otherwise unknown. */
  function StopName(kind: MemberType, ref: string, nodes: map<NodeId, Node>, wayTags: map<WayId, Tags>): (name: string)
    ensures kind == NodeMember && ref in nodes && "name" in nodes[ref].tags ==> name == nodes[ref].tags["name"]
    ensures kind == NodeMember && ref in nodes && "name" !in nodes[ref].tags && "description" in nodes[ref].tags ==>
              name == nodes[ref].tags["description"]
    ensures kind == WayMember && ref in wayTags && "name" in wayTags[ref] ==> name == wayTags[ref]["name"]
    ensures kind == NodeMember && (ref !in nodes || ("name" !in nodes[ref].tags && "description" !in nodes[ref].tags)) ==>
              name == UnknownStop
    ensures kind == WayMember && (ref !in wayTags || "name" !in wayTags[ref]) ==> name == UnknownStop
    ensures kind == OtherMember ==> name == UnknownStop
    ensures name != UnknownStop ==>
              (kind == NodeMember && ref in nodes && name in nodes[ref].tags.Values) ||
              (kind == WayMember && ref in wayTags && name in wayTags[ref].Values)
  {
    match kind
    case NodeMember =>
      if ref in nodes && "name" in nodes[ref].tags then nodes[ref].tags["name"]
      else if ref in nodes && "description" in nodes[ref].tags then nodes[ref].tags["description"]
      else UnknownStop
    case WayMember =>
      if ref in wayTags && "name" in wayTags[ref] then wayTags[ref]["name"] else UnknownStop
    case OtherMember => UnknownStop
  }

  /** The loop of getStopNames over the stop members; refs and kinds are
      filled together, one entry per stop member. */
  method StopNames(refs: seq<string>, kinds: seq<MemberType>, nodes: map<NodeId, Node>, wayTags: map<WayId, Tags>)
    returns (names: seq<string>)
    requires |kinds| == |refs|
    ensures |names| == |refs|
    ensures forall i :: 0 <= i < |refs| ==> names[i] == StopName(kinds[i], refs[i], nodes, wayTags)
  {
    names := [];
    var i := 0;
    while i < |refs|
      invariant 0 <= i <= |refs|
      invariant |names| == i
      invariant forall k :: 0 <= k < i ==> names[k] == StopName(kinds[k], refs[k], nodes, wayTags)
    {
      var name := UnknownStop;
      if kinds[i] == NodeMember {
        if refs[i] in nodes && "name" in nodes[refs[i]].tags {
          name := nodes[refs[i]].tags["name"];
        } else if refs[i] in nodes && "description" in nodes[refs[i]].tags {
          name := nodes[refs[i]].tags["description"];
        }
      } else if kinds[i] == WayMember {
        if refs[i] in wayTags && "name" in wayTags[refs[i]] {
          name := wayTags[refs[i]]["name"];
        }
      }
      names := names + [name];
      i := i + 1;
    }
  }
}
