/** The way measurements of loadXml (functions/getData.php:450-472): the
    length of every way and, for each node, its distance from the start of
    the way that claimed it. The planar distance of getDistance is kept
    abstract; only symmetry is assumed where a lemma needs it. */
module Geometry {
  import opened Osm

  /** getDistance(lat1, lon1, lat2, lon2). */
  type Distance = (real, real, real, real) -> real

  /** A node's latitude as getDistance uses it: a node that was not loaded
      reads as null, which the arithmetic takes as 0. */
  function Lat(nodes: map<NodeId, Node>, id: NodeId): real {
    if id in nodes then nodes[id].lat else 0.0
  }

  function Lon(nodes: map<NodeId, Node>, id: NodeId): real {
    if id in nodes then nodes[id].lon else 0.0
  }

  /** The distance between two consecutive nodes of a way. */
  function Hop(nodes: map<NodeId, Node>, dist: Distance, a: NodeId, b: NodeId): real {
    dist(Lat(nodes, a), Lon(nodes, a), Lat(nodes, b), Lon(nodes, b))
  }

  /** way_length once the loop has passed every node of ids: the sum of
      the hops between consecutive nodes. */
  function PathLength(nodes: map<NodeId, Node>, dist: Distance, ids: seq<NodeId>): real
    decreases |ids|
  {
    if |ids| <= 1 then 0.0
    else PathLength(nodes, dist, ids[..|ids| - 1]) + Hop(nodes, dist, ids[|ids| - 2], ids[|ids| - 1])
  }

  ghost predicate Symmetric(dist: Distance) {
    forall a: real, b: real, c: real, d: real :: dist(a, b, c, d) == dist(c, d, a, b)
  }

  ghost predicate NonNegative(dist: Distance) {
    forall a: real, b: real, c: real, d: real :: dist(a, b, c, d) >= 0.0
  }

  function Reverse<T>(s: seq<T>): (r: seq<T>)
    ensures |r| == |s|
    ensures forall i :: 0 <= i < |s| ==> r[i] == s[|s| - 1 - i]
  {
    if |s| == 0 then [] else [s[|s| - 1]] + Reverse(s[..|s| - 1])
  }

  /** first_node of a way: its first node, or null for a way without nodes. */
  function FirstOf(ids: seq<NodeId>): NodeId {
    if |ids| > 0 then ids[0] else NullRef
  }

  /** last_node of a way: its last node, or null for a way without nodes. */
  function LastOf(ids: seq<NodeId>): NodeId {
    if |ids| > 0 then ids[|ids| - 1] else NullRef
  }

  /** With non-negative hops the length of a prefix never exceeds the
      length of the whole way. */
  lemma {:induction false} PathLengthMonotone(nodes: map<NodeId, Node>, dist: Distance,
                                              ids: seq<NodeId>, k: nat)
    requires NonNegative(dist) && k <= |ids|
    ensures 0.0 <= PathLength(nodes, dist, ids[..k]) <= PathLength(nodes, dist, ids)
    decreases |ids|
  {
    if k < |ids| {
      assert |ids| >= 1;
      var init := ids[..|ids| - 1];
      assert init[..k] == ids[..k];
      PathLengthMonotone(nodes, dist, init, k);
      if |ids| >= 2 {
        assert Hop(nodes, dist, ids[|ids| - 2], ids[|ids| - 1]) >= 0.0;
      }
    } else {
      assert ids[..k] == ids;
      PathLengthNonNegative(nodes, dist, ids);
    }
  }

  lemma {:induction false} PathLengthNonNegative(nodes: map<NodeId, Node>, dist: Distance, ids: seq<NodeId>)
    requires NonNegative(dist)
    ensures PathLength(nodes, dist, ids) >= 0.0
    decreases |ids|
  {
    if |ids| > 1 {
      PathLengthNonNegative(nodes, dist, ids[..|ids| - 1]);
      assert Hop(nodes, dist, ids[|ids| - 2], ids[|ids| - 1]) >= 0.0;
    }
  }

  /** Cutting a way at node i splits its length into the part up to i and
      the part from i on. */
  lemma {:induction false} PathLengthSplit(nodes: map<NodeId, Node>, dist: Distance,
                                           ids: seq<NodeId>, i: nat)
    requires i < |ids|
    ensures PathLength(nodes, dist, ids) == PathLength(nodes, dist, ids[..i + 1]) + PathLength(nodes, dist, ids[i..])
    decreases |ids|
  {
    if i + 1 == |ids| {
      assert ids[..i + 1] == ids;
      assert |ids[i..]| == 1;
    } else {
      var init := ids[..|ids| - 1];
      PathLengthSplit(nodes, dist, init, i);
      assert init[..i + 1] == ids[..i + 1];
      assert ids[i..][..|ids[i..]| - 1] == init[i..];
      assert ids[i..][|ids[i..]| - 2] == ids[|ids| - 2];
    }
  }

  /** Prepending a node adds the hop to it. */
  lemma PathLengthCons(nodes: map<NodeId, Node>, dist: Distance, x: NodeId, t: seq<NodeId>)
    requires |t| >= 1
    ensures PathLength(nodes, dist, [x] + t) == Hop(nodes, dist, x, t[0]) + PathLength(nodes, dist, t)
  {
    var s := [x] + t;
    PathLengthSplit(nodes, dist, s, 1);
    assert s[..2][..1] == [x];
    assert s[1..] == t;
  }

  /** With a symmetric distance a way is as long read backwards. */
  lemma {:induction false} PathLengthReverse(nodes: map<NodeId, Node>, dist: Distance, ids: seq<NodeId>)
    requires Symmetric(dist)
    ensures PathLength(nodes, dist, Reverse(ids)) == PathLength(nodes, dist, ids)
    decreases |ids|
  {
    if |ids| >= 2 {
      var init := ids[..|ids| - 1];
      PathLengthReverse(nodes, dist, init);
      assert Reverse(ids) == [ids[|ids| - 1]] + Reverse(init);
      PathLengthCons(nodes, dist, ids[|ids| - 1], Reverse(init));
      assert Reverse(init)[0] == ids[|ids| - 2];
      var a, b := ids[|ids| - 2], ids[|ids| - 1];
      assert Hop(nodes, dist, b, a) == Hop(nodes, dist, a, b);
    } else if |ids| == 1 {
      assert Reverse(ids) == ids;
    }
  }

  /** What the backward flip of loadRelationWays computes: way_length minus
      a node's distance from the first node is that node's distance from
      the first node of the reversed way. */
  lemma BackwardDistance(nodes: map<NodeId, Node>, dist: Distance, ids: seq<NodeId>, i: nat)
    requires Symmetric(dist) && i < |ids|
    ensures PathLength(nodes, dist, ids) - PathLength(nodes, dist, ids[..i + 1])
         == PathLength(nodes, dist, Reverse(ids)[..|ids| - i])
  {
    PathLengthSplit(nodes, dist, ids, i);
    PathLengthReverse(nodes, dist, ids[i..]);
    assert Reverse(ids)[..|ids| - i] == Reverse(ids[i..]);
  }

  /** node_distance and node_way as the loop over the nodes of ways leaves
      them. */
  datatype Marks = Marks(distance: map<NodeId, real>, way: map<NodeId, WayId>)

  /** Both maps have the same keys: the loop always writes them together. */
  predicate Aligned(m: Marks) {
    m.distance.Keys == m.way.Keys
  }

  /** The loop over the nodes ids of way w, up to the end of ids. A node is
      claimed (given its distance from the start of w and the way w) unless
      it is at position 0 and another way already claimed it. */
  function MarkWay(nodes: map<NodeId, Node>, dist: Distance, m: Marks, w: WayId, ids: seq<NodeId>): (r: Marks)
    ensures Aligned(m) ==> Aligned(r)
    ensures forall n :: n in m.way ==> n in r.way
    decreases |ids|
  {
    if |ids| == 0 then m
    else
      var prev := MarkWay(nodes, dist, m, w, ids[..|ids| - 1]);
      var n := ids[|ids| - 1];
      if n !in prev.way || |ids| > 1 then
        Marks(prev.distance[n := PathLength(nodes, dist, ids)], prev.way[n := w])
      else prev
  }

  /** One step of MarkWay: the last node of ids is claimed unless it is
      the first node of the way and another way claimed it. */
  lemma MarkWayLast(nodes: map<NodeId, Node>, dist: Distance, m: Marks, w: WayId, ids: seq<NodeId>)
    requires |ids| > 0
    ensures var prev := MarkWay(nodes, dist, m, w, ids[..|ids| - 1]);
            var n := ids[|ids| - 1];
            MarkWay(nodes, dist, m, w, ids) ==
              if n !in prev.way || |ids| > 1 then Marks(prev.distance[n := PathLength(nodes, dist, ids)], prev.way[n := w])
              else prev
  {
  }

  /** Every node after the first belongs to w afterwards, and the first
      node belongs to some way. */
  lemma {:induction false} MarkWayClaims(nodes: map<NodeId, Node>, dist: Distance, m: Marks,
                                         w: WayId, ids: seq<NodeId>)
    ensures var r := MarkWay(nodes, dist, m, w, ids);
            (forall i :: 0 < i < |ids| ==> ids[i] in r.way && r.way[ids[i]] == w) &&
            (|ids| > 0 ==> ids[0] in r.way)
    decreases |ids|
  {
    if |ids| > 0 {
      var init := ids[..|ids| - 1];
      var n := ids[|ids| - 1];
      MarkWayClaims(nodes, dist, m, w, init);
      MarkWayLast(nodes, dist, m, w, ids);
      var prev := MarkWay(nodes, dist, m, w, init);
      var r := MarkWay(nodes, dist, m, w, ids);
      assert n in r.way && (|ids| > 1 ==> r.way[n] == w);
      forall i | 0 < i < |ids| - 1
        ensures ids[i] in r.way && r.way[ids[i]] == w
      {
        assert ids[i] == init[i];
        assert ids[i] in prev.way && prev.way[ids[i]] == w;
      }
      if |ids| > 1 {
        assert init[0] == ids[0];
        assert ids[0] in prev.way;
      }
    }
  }

  /** Nodes outside the way keep their entries. */
  lemma {:induction false} MarkWayKeepsOthers(nodes: map<NodeId, Node>, dist: Distance, m: Marks,
                                              w: WayId, ids: seq<NodeId>, n: NodeId)
    requires n !in ids
    ensures var r := MarkWay(nodes, dist, m, w, ids);
            (n in r.way <==> n in m.way) && (n in m.way ==> r.way[n] == m.way[n]) &&
            (n in r.distance <==> n in m.distance) && (n in m.distance ==> r.distance[n] == m.distance[n])
    decreases |ids|
  {
    if |ids| > 0 {
      var init := ids[..|ids| - 1];
      assert n != ids[|ids| - 1];
      assert n !in init;
      MarkWayKeepsOthers(nodes, dist, m, w, init, n);
      MarkWayLast(nodes, dist, m, w, ids);
    }
  }

  /** No node appears twice in ids. */
  predicate NoRepeat(ids: seq<NodeId>) {
    forall i, j :: 0 <= i < j < |ids| ==> ids[i] != ids[j]
  }

  /** On a way that does not repeat a node, node i (after the first) ends
      up with its distance from the start of the way. */
  lemma {:induction false} MarkWayDistanceAt(nodes: map<NodeId, Node>, dist: Distance, m: Marks,
                                             w: WayId, ids: seq<NodeId>, i: nat)
    requires NoRepeat(ids) && 0 < i < |ids|
    ensures var r := MarkWay(nodes, dist, m, w, ids);
            ids[i] in r.distance && r.distance[ids[i]] == PathLength(nodes, dist, ids[..i + 1])
    decreases |ids|
  {
    var init := ids[..|ids| - 1];
    MarkWayLast(nodes, dist, m, w, ids);
    if i == |ids| - 1 {
      assert ids[..i + 1] == ids;
    } else {
      assert NoRepeat(init) by {
        forall a, b | 0 <= a < b < |init|
          ensures init[a] != init[b]
        {
          assert init[a] == ids[a] && init[b] == ids[b];
        }
      }
      assert init[i] == ids[i] && ids[i] != ids[|ids| - 1];
      assert init[..i + 1] == ids[..i + 1];
      MarkWayDistanceAt(nodes, dist, m, w, init, i);
    }
  }

  /** The first node of a way gets distance 0 when no way claimed it
      before and the way does not come back to it. */
  lemma {:induction false} MarkWayFirst(nodes: map<NodeId, Node>, dist: Distance, m: Marks,
                                        w: WayId, ids: seq<NodeId>)
    requires |ids| > 0 && ids[0] !in m.way && ids[0] !in ids[1..]
    ensures var r := MarkWay(nodes, dist, m, w, ids);
            ids[0] in r.distance && r.distance[ids[0]] == 0.0
    decreases |ids|
  {
    var init := ids[..|ids| - 1];
    MarkWayLast(nodes, dist, m, w, ids);
    if |ids| > 1 {
      assert ids[|ids| - 1] in ids[1..];
      assert init[0] == ids[0];
      assert init[1..] == ids[1..|ids| - 1];
      assert ids[0] !in init[1..];
      MarkWayFirst(nodes, dist, m, w, init);
    }
  }

  /** On a way that does not repeat a node, each node after the first
      ends up with its distance from the start of the way; the first node,
      when no way claimed it before, gets distance 0. */
  lemma MarkWayDistances(nodes: map<NodeId, Node>, dist: Distance, m: Marks, w: WayId, ids: seq<NodeId>)
    requires NoRepeat(ids)
    ensures var r := MarkWay(nodes, dist, m, w, ids);
            (forall i :: 0 < i < |ids| ==> ids[i] in r.distance &&
                                           r.distance[ids[i]] == PathLength(nodes, dist, ids[..i + 1])) &&
            (|ids| > 0 && ids[0] !in m.way ==> ids[0] in r.distance && r.distance[ids[0]] == 0.0)
  {
    forall i | 0 < i < |ids|
      ensures var r := MarkWay(nodes, dist, m, w, ids);
              ids[i] in r.distance && r.distance[ids[i]] == PathLength(nodes, dist, ids[..i + 1])
    {
      MarkWayDistanceAt(nodes, dist, m, w, ids, i);
    }
    if |ids| > 0 && ids[0] !in m.way {
      assert ids[0] !in ids[1..];
      MarkWayFirst(nodes, dist, m, w, ids);
    }
  }
}
