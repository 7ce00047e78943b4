/** The stop handling of calculateSpeed (functions/getData.php:1749-1849):
    the stops are located on the route, sorted by distance, and every
    section of the speed profile is cut at the stops inside it, a (0, 0)
    row marking each stop. The result is exmaxarray, whose PHP index -1 is
    index 0 here. */
module Stops {
  import opened Osm
  import opened Profile

  /** A stop_position entry: the node's coordinates when the node is
      known, its distance from the route start and its reference. */
  datatype StopPosition = StopPosition(coord: Option<(real, real)>, dis: real, ref: NodeId)

  /** The stops of the relation that lie on the route (have a
      stop_node_distance), in relation order. */
  function StopsFound(nodes: map<NodeId, Node>, snd: map<NodeId, real>, refs: seq<NodeId>): (r: seq<StopPosition>)
    ensures |r| <= |refs|
    ensures forall i :: 0 <= i < |r| ==> r[i].ref in snd && r[i].dis == snd[r[i].ref] && r[i].ref in refs
    ensures forall i :: 0 <= i < |r| ==>
              r[i].coord == if r[i].ref in nodes then Some((nodes[r[i].ref].lat, nodes[r[i].ref].lon)) else None
    decreases |refs|
  {
    if |refs| == 0 then []
    else
      var prev := StopsFound(nodes, snd, refs[..|refs| - 1]);
      var ref := refs[|refs| - 1];
      if ref in snd then
        var coord := if ref in nodes then Some((nodes[ref].lat, nodes[ref].lon)) else None;
        prev + [StopPosition(coord, snd[ref], ref)]
      else prev
  }

  /** Every stop of the relation with a distance on the route is found. */
  lemma {:induction false} StopsFoundComplete(nodes: map<NodeId, Node>, snd: map<NodeId, real>, refs: seq<NodeId>, i: nat)
    requires i < |refs| && refs[i] in snd
    ensures exists k :: 0 <= k < |StopsFound(nodes, snd, refs)| && StopsFound(nodes, snd, refs)[k].ref == refs[i]
    decreases |refs|
  {
    var r := StopsFound(nodes, snd, refs);
    if i == |refs| - 1 {
      assert r[|r| - 1].ref == refs[i];
    } else {
      var init := refs[..|refs| - 1];
      assert init[i] == refs[i];
      StopsFoundComplete(nodes, snd, init, i);
      var prev := StopsFound(nodes, snd, init);
      var k :| 0 <= k < |prev| && prev[k].ref == refs[i];
      assert r[k] == prev[k];
    }
  }

  function RefsOf(s: seq<StopPosition>): (r: seq<NodeId>)
    ensures |r| == |s| && forall i :: 0 <= i < |s| ==> r[i] == s[i].ref
  {
    seq(|s|, i requires 0 <= i < |s| => s[i].ref)
  }

  /** Every occurrence of a stop on the route is kept, and nothing else: a
      reference appears in the result as often as in relation_stops when it
      has a distance, and not at all otherwise. */
  lemma {:induction false} StopsFoundCounts(nodes: map<NodeId, Node>, snd: map<NodeId, real>, refs: seq<NodeId>)
    ensures forall x :: multiset(RefsOf(StopsFound(nodes, snd, refs)))[x] == if x in snd then multiset(refs)[x] else 0
    decreases |refs|
  {
    if |refs| > 0 {
      var init := refs[..|refs| - 1];
      var ref := refs[|refs| - 1];
      StopsFoundCounts(nodes, snd, init);
      assert refs == init + [ref];
      var prev := StopsFound(nodes, snd, init);
      if ref in snd {
        var p := StopsFound(nodes, snd, refs);
        assert RefsOf(p) == RefsOf(prev) + [ref];
      }
    }
  }

  /** The stops come in the order of relation_stops: the i-th found stop is
      the entry at idx[i], and idx increases. */
  lemma {:induction false} StopsFoundInOrder(nodes: map<NodeId, Node>, snd: map<NodeId, real>, refs: seq<NodeId>)
    returns (idx: seq<nat>)
    ensures |idx| == |StopsFound(nodes, snd, refs)|
    ensures forall i :: 0 <= i < |idx| ==> idx[i] < |refs| && StopsFound(nodes, snd, refs)[i].ref == refs[idx[i]]
    ensures forall i, j :: 0 <= i < j < |idx| ==> idx[i] < idx[j]
    decreases |refs|
  {
    if |refs| == 0 {
      idx := [];
    } else {
      var init := refs[..|refs| - 1];
      var prev := StopsFound(nodes, snd, init);
      idx := StopsFoundInOrder(nodes, snd, init);
      assert forall i :: 0 <= i < |idx| ==> refs[idx[i]] == init[idx[i]];
      if refs[|refs| - 1] in snd {
        idx := idx + [|refs| - 1];
      }
    }
  }

  /** The loop over relation_stops that fills stop_position. */
  method CollectStops(nodes: map<NodeId, Node>, snd: map<NodeId, real>, refs: seq<NodeId>)
    returns (found: seq<StopPosition>)
    ensures found == StopsFound(nodes, snd, refs)
  {
    found := [];
    var n := 0;
    while n < |refs|
      invariant 0 <= n <= |refs|
      invariant found == StopsFound(nodes, snd, refs[..n])
    {
      var ref := refs[n];
      assert refs[..n + 1][..n] == refs[..n];
      if ref in snd {
        var coord := if ref in nodes then Some((nodes[ref].lat, nodes[ref].lon)) else None;
        found := found + [StopPosition(coord, snd[ref], ref)];
      }
      n := n + 1;
    }
    assert refs[..n] == refs;
  }

  predicate SortedByDis(s: seq<StopPosition>) {
    forall i, j :: 0 <= i < j < |s| ==> s[i].dis <= s[j].dis
  }

  /** Puts x behind every entry of s that is not farther. */
  function InsertByDis(s: seq<StopPosition>, x: StopPosition): (r: seq<StopPosition>)
    ensures multiset(r) == multiset(s) + multiset{x}
    decreases |s|
  {
    if |s| == 0 then [x]
    else if s[|s| - 1].dis <= x.dis then s + [x]
    else
      var init := s[..|s| - 1];
      assert s == init + [s[|s| - 1]];
      InsertByDis(init, x) + [s[|s| - 1]]
  }

  /** Inserting x under a bound every entry and x keep keeps the bound. */
  lemma InsertByDisBounded(s: seq<StopPosition>, x: StopPosition, b: real)
    requires forall k :: 0 <= k < |s| ==> s[k].dis <= b
    requires x.dis <= b
    ensures forall k :: 0 <= k < |InsertByDis(s, x)| ==> InsertByDis(s, x)[k].dis <= b
  {
    var q := InsertByDis(s, x);
    forall k | 0 <= k < |q| ensures q[k].dis <= b {
      assert q[k] in multiset(s) + multiset{x} by {
        assert q[k] in multiset(q);
      }
      if q[k] != x {
        var m :| 0 <= m < |s| && s[m] == q[k];
      }
    }
  }

  /** Appending an entry no nearer than all others keeps the order. */
  lemma SortedByDisSnoc(q: seq<StopPosition>, last: StopPosition)
    requires SortedByDis(q)
    requires forall k :: 0 <= k < |q| ==> q[k].dis <= last.dis
    ensures SortedByDis(q + [last])
  {
    var r := q + [last];
    forall i, j | 0 <= i < j < |r| ensures r[i].dis <= r[j].dis {
      assert r[i] == q[i];
    }
  }

  /** Inserting into a sorted sequence keeps it sorted. */
  lemma {:induction false} InsertByDisSorted(s: seq<StopPosition>, x: StopPosition)
    requires SortedByDis(s)
    ensures SortedByDis(InsertByDis(s, x))
    decreases |s|
  {
    if |s| > 0 && s[|s| - 1].dis > x.dis {
      var init := s[..|s| - 1];
      var last := s[|s| - 1];
      assert SortedByDis(init);
      InsertByDisSorted(init, x);
      InsertByDisBounded(init, x, last.dis);
      SortedByDisSnoc(InsertByDis(init, x), last);
    } else if |s| > 0 {
      SortedByDisSnoc(s, x);
    }
  }

  /** The array_multisort by distance. Equal distances keep their relation
      order here. */
  function SortByDis(s: seq<StopPosition>): (r: seq<StopPosition>)
    ensures SortedByDis(r)
    ensures multiset(r) == multiset(s)
    decreases |s|
  {
    if |s| == 0 then []
    else
      assert s == s[..|s| - 1] + [s[|s| - 1]];
      var init := SortByDis(s[..|s| - 1]);
      InsertByDisSorted(init, s[|s| - 1]);
      InsertByDis(init, s[|s| - 1])
  }

  /** The row that marks a stop: length 0, limit 0, exact. */
  const StopMark: Section := Section(0.0, 0.0, true)

  /** Whether a stop at distance d lies in the section starting at ms of
      length len: strictly after its start, at most at its end. */
  predicate InSection(d: real, ms: real, len: real) {
    ms < d <= ms + len
  }

  /** The rows written so far for one section and way_remaining. */
  datatype Split = Split(rows: seq<Section>, remaining: real)

  /** The inner loop over all stops for section sec starting at ms. */
  function SplitStops(sec: Section, ms: real, stops: seq<StopPosition>): Split
    decreases |stops|
  {
    if |stops| == 0 then Split([], sec.length)
    else
      var p := SplitStops(sec, ms, stops[..|stops| - 1]);
      var d := stops[|stops| - 1].dis;
      if InSection(d, ms, sec.length) then
        var piece := d - ms - (sec.length - p.remaining);
        Split(p.rows + [Section(piece, sec.limit, sec.exact), StopMark], Max(0.0, p.remaining - piece))
      else p
  }

  /** A section's rows: the pieces and marks, then the rest of the section
      unless way_remaining is negative. */
  function SplitSection(sec: Section, ms: real, stops: seq<StopPosition>): seq<Section> {
    var p := SplitStops(sec, ms, stops);
    p.rows + (if p.remaining >= 0.0 then [Section(p.remaining, sec.limit, sec.exact)] else [])
  }

  /** The number of stops in the section (lo, hi]. */
  function CountIn(stops: seq<StopPosition>, lo: real, hi: real): nat
    decreases |stops|
  {
    if |stops| == 0 then 0
    else CountIn(stops[..|stops| - 1], lo, hi) + (if lo < stops[|stops| - 1].dis <= hi then 1 else 0)
  }

  /** The remainder after every inserted stop is the distance from that
      stop to the section end, so the clamp to 0 never changes it and the
      rows so far cover exactly the length up to the last stop. */
  lemma {:induction false} SplitStopsTrack(sec: Section, ms: real, stops: seq<StopPosition>)
    ensures var p := SplitStops(sec, ms, stops);
            SumLengths(p.rows) + p.remaining == sec.length &&
            |p.rows| == 2 * CountIn(stops, ms, ms + sec.length) &&
            (p.rows == [] ==> p.remaining == sec.length) &&
            (p.rows != [] ==> p.remaining >= 0.0 && sec.length > 0.0)
    decreases |stops|
  {
    if |stops| > 0 {
      var init := stops[..|stops| - 1];
      SplitStopsTrack(sec, ms, init);
      var p := SplitStops(sec, ms, init);
      var d := stops[|stops| - 1].dis;
      if InSection(d, ms, sec.length) {
        var piece := d - ms - (sec.length - p.remaining);
        var tail := [Section(piece, sec.limit, sec.exact), StopMark];
        SumLengthsAppend(p.rows, tail);
        assert tail[1..] == [StopMark] && tail[1..][1..] == [];
        assert SumLengths(tail[1..]) == 0.0;
        assert SumLengths(tail) == piece;
        if p.rows != [] {
          assert p.remaining - piece == ms + sec.length - d;
        }
      }
    }
  }

  /** The rows of a section add up to its length (to 0 for a negative
      length, which produces no row at all). */
  lemma SplitSectionSum(sec: Section, ms: real, stops: seq<StopPosition>)
    ensures SumLengths(SplitSection(sec, ms, stops)) == Max(sec.length, 0.0)
  {
    SplitStopsTrack(sec, ms, stops);
    var p := SplitStops(sec, ms, stops);
    if p.remaining >= 0.0 {
      var last := [Section(p.remaining, sec.limit, sec.exact)];
      SumLengthsAppend(p.rows, last);
      assert last[1..] == [];
      assert SumLengths(last) == p.remaining;
    } else {
      assert p.rows + [] == p.rows;
    }
  }

  /** Every stop in the section adds a piece and a mark; the rest of the
      section is written unless its length is negative. */
  lemma SplitSectionCount(sec: Section, ms: real, stops: seq<StopPosition>)
    ensures |SplitSection(sec, ms, stops)| == 2 * CountIn(stops, ms, ms + sec.length) + (if sec.length >= 0.0 then 1 else 0)
  {
    SplitStopsTrack(sec, ms, stops);
  }

  /** On sorted stops the pieces are never negative: each runs from one
      stop (or the section start) to the next. */
  lemma {:induction false} SplitStopsNonNegative(sec: Section, ms: real, stops: seq<StopPosition>)
    requires SortedByDis(stops)
    ensures var p := SplitStops(sec, ms, stops);
            (forall k :: 0 <= k < |p.rows| ==> p.rows[k].length >= 0.0) &&
            p.remaining <= sec.length &&
            (p.rows != [] ==> ms + sec.length - p.remaining <= stops[|stops| - 1].dis)
    decreases |stops|
  {
    if |stops| > 0 {
      var init := stops[..|stops| - 1];
      assert SortedByDis(init);
      SplitStopsNonNegative(sec, ms, init);
      SplitStopsTrack(sec, ms, init);
      var p := SplitStops(sec, ms, init);
      if p.rows != [] {
        assert |init| > 0;
        assert init[|init| - 1].dis <= stops[|stops| - 1].dis;
      }
    }
  }

  lemma SplitSectionNonNegative(sec: Section, ms: real, stops: seq<StopPosition>)
    requires SortedByDis(stops)
    ensures forall k :: 0 <= k < |SplitSection(sec, ms, stops)| ==> SplitSection(sec, ms, stops)[k].length >= 0.0
  {
    SplitStopsNonNegative(sec, ms, stops);
  }

  /** Every section cut at the stops, in order: exmaxarray. */
  function ExpandSections(secs: seq<Section>, stops: seq<StopPosition>): seq<Section>
    decreases |secs|
  {
    if |secs| == 0 then []
    else
      var init := secs[..|secs| - 1];
      ExpandSections(init, stops) + SplitSection(secs[|secs| - 1], SumLengths(init), stops)
  }

  /** exmaxarray from maxspeed_array: the (0, 0, exact) row at index -1
      first. */
  function Exmaxarray(maxspeedArray: seq<Section>, stops: seq<StopPosition>): seq<Section> {
    ExpandSections([StopMark] + maxspeedArray, stops)
  }

  predicate NonNegativeLengths(secs: seq<Section>) {
    forall i :: 0 <= i < |secs| ==> secs[i].length >= 0.0
  }

  lemma {:induction false} SumLengthsNonNegative(secs: seq<Section>)
    requires NonNegativeLengths(secs)
    ensures SumLengths(secs) >= 0.0
    decreases |secs|
  {
    if |secs| > 0 {
      assert NonNegativeLengths(secs[1..]) by {
        forall i | 0 <= i < |secs[1..]| ensures secs[1..][i].length >= 0.0 {
          assert secs[1..][i] == secs[i + 1];
        }
      }
      SumLengthsNonNegative(secs[1..]);
    }
  }

  lemma {:induction false} ZeroCountIfEmpty(stops: seq<StopPosition>, lo: real, hi: real)
    requires hi <= lo
    ensures CountIn(stops, lo, hi) == 0
    decreases |stops|
  {
    if |stops| > 0 {
      ZeroCountIfEmpty(stops[..|stops| - 1], lo, hi);
    }
  }

  /** Splitting at (lo, mid] and (mid, hi] counts what (lo, hi] counts. */
  lemma {:induction false} CountInSplit(stops: seq<StopPosition>, lo: real, mid: real, hi: real)
    requires lo <= mid <= hi
    ensures CountIn(stops, lo, mid) + CountIn(stops, mid, hi) == CountIn(stops, lo, hi)
    decreases |stops|
  {
    if |stops| > 0 {
      CountInSplit(stops[..|stops| - 1], lo, mid, hi);
    }
  }

  /** With no negative section, the stop insertion keeps the total length,
      and every stop strictly after the route start and not beyond its end
      is inserted exactly once: it adds a piece and a mark. */
  lemma {:induction false} ExpandSectionsFacts(secs: seq<Section>, stops: seq<StopPosition>)
    requires NonNegativeLengths(secs)
    ensures SumLengths(ExpandSections(secs, stops)) == SumLengths(secs)
    ensures |ExpandSections(secs, stops)| == |secs| + 2 * CountIn(stops, 0.0, SumLengths(secs))
    decreases |secs|
  {
    if |secs| > 0 {
      var init := secs[..|secs| - 1];
      var last := secs[|secs| - 1];
      assert NonNegativeLengths(init) by {
        forall i | 0 <= i < |init| ensures init[i].length >= 0.0 {
          assert init[i] == secs[i];
        }
      }
      ExpandSectionsFacts(init, stops);
      var ms := SumLengths(init);
      SumLengthsAppend(ExpandSections(init, stops), SplitSection(last, ms, stops));
      SplitSectionSum(last, ms, stops);
      SplitSectionCount(last, ms, stops);
      SumLengthsSnoc(secs, |secs| - 1);
      assert secs[..|secs|] == secs;
      SumLengthsNonNegative(init);
      CountInSplit(stops, 0.0, ms, ms + last.length);
      assert SumLengths(secs) == ms + last.length;
      assert |ExpandSections(secs, stops)| == |ExpandSections(init, stops)| + |SplitSection(last, ms, stops)|;
    } else {
      ZeroCountIfEmpty(stops, 0.0, 0.0);
    }
  }

  /** A stop at the start of a section belongs to the section before it:
      a section of 100 at 50 with stops at 50 and 90 is cut only at 90. */
  lemma StopAtSectionStartNotInserted()
    ensures SplitSection(Section(100.0, 80.0, true), 50.0,
                         [StopPosition(None, 50.0, "a"), StopPosition(None, 90.0, "b")])
         == [Section(40.0, 80.0, true), StopMark, Section(60.0, 80.0, true)]
  {
    var stops := [StopPosition(None, 50.0, "a"), StopPosition(None, 90.0, "b")];
    assert stops[..1] == [StopPosition(None, 50.0, "a")];
    assert stops[..1][..0] == [];
    assert SplitStops(Section(100.0, 80.0, true), 50.0, stops[..1]) == Split([], 100.0);
  }

  /** The nested loops of calculateSpeed over maxspeed_array and
      stop_position; total is relation_distance_ms afterwards. */
  method InsertStops(secs: seq<Section>, stops: seq<StopPosition>) returns (ex: seq<Section>, total: real)
    ensures ex == ExpandSections(secs, stops)
    ensures total == SumLengths(secs)
  {
    ex := [];
    total := 0.0;
    var i := 0;
    while i < |secs|
      invariant 0 <= i <= |secs|
      invariant ex == ExpandSections(secs[..i], stops)
      invariant total == SumLengths(secs[..i])
    {
      var sec := secs[i];
      var remaining := sec.length;
      var written := ex;
      var k := 0;
      while k < |stops|
        invariant 0 <= k <= |stops|
        invariant ex == written + SplitStops(sec, total, stops[..k]).rows
        invariant remaining == SplitStops(sec, total, stops[..k]).remaining
      {
        assert stops[..k + 1][..k] == stops[..k];
        var d := stops[k].dis;
        if total < d && d <= total + sec.length {
          var piece := d - total - (sec.length - remaining);
          ex := ex + [Section(piece, sec.limit, sec.exact), StopMark];
          remaining := Max(0.0, remaining - piece);
        }
        k := k + 1;
      }
      assert stops[..k] == stops;
      if remaining >= 0.0 {
        ex := ex + [Section(remaining, sec.limit, sec.exact)];
      }
      assert secs[..i + 1][..i] == secs[..i];
      SumLengthsSnoc(secs, i);
      total := total + sec.length;
      i := i + 1;
    }
    assert secs[..i] == secs;
  }
}
