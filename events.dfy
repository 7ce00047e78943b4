/** Where the train starts braking and accelerating
    (functions/getData.php:1919-2007). exmaxarray is the sequence ex, whose
    index 0 is PHP's -1. */
module Events {
  import opened Osm
  import opened Profile

  datatype Kind = Acc | Brake

  /** A row of brake_array / acc_array: start and end along the route,
      speed at start and at end, and the kind. */
  datatype Event = Event(start: real, end: real, vstart: real, vend: real, kind: Kind)

  /** The distance needed to brake from v1 to v2 at deceleration brake. */
  function BrakingDistance(v1: real, v2: real, brake: real): real
    requires brake > 0.0
  {
    (v1 * v1 - v2 * v2) / (2.0 * brake)
  }

  /** The distance needed to accelerate from v1 to v2 at a mean a. */
  function AccelerationDistance(v1: real, v2: real, a: real): real
    requires a != 0.0
  {
    (v2 * v2 - v1 * v1) / (2.0 * a)
  }

  /** The scan back from section i, at section j and below: the nearest
      section whose limit is above ex[i]'s and from whose limit the train
      can brake within the distance back to section i; the scan gives up at
      the first section whose limit is not above ex[i]'s. */
  function BrakeScan(ex: seq<Section>, i: nat, j: nat, brake: real): (r: Option<nat>)
    requires j < i < |ex| && brake > 0.0
    ensures r.Some? ==> r.value <= j
    decreases j
  {
    if ex[j].limit > ex[i].limit then
      if BrakingDistance(ex[j].limit, ex[i].limit, brake) < SumLengths(ex[j..i]) then Some(j)
      else if j == 0 then None
      else BrakeScan(ex, i, j - 1, brake)
    else None
  }

  /** The section the scan finds has a limit above section i's and lets
      the train brake within the distance back to section i; every section
      the scan passed over had a higher limit but not enough room. When
      the scan finds nothing, no section of the run of higher limits just
      below j leaves enough room. */
  lemma {:induction false} BrakeScanSound(ex: seq<Section>, i: nat, j: nat, brake: real)
    requires j < i < |ex| && brake > 0.0
    ensures var r := BrakeScan(ex, i, j, brake);
            r.Some? ==>
              ex[r.value].limit > ex[i].limit &&
              BrakingDistance(ex[r.value].limit, ex[i].limit, brake) < SumLengths(ex[r.value..i]) &&
              forall k :: r.value < k <= j ==> ex[k].limit > ex[i].limit &&
                                               BrakingDistance(ex[k].limit, ex[i].limit, brake) >= SumLengths(ex[k..i])
    ensures BrakeScan(ex, i, j, brake).None? ==>
              forall k :: 0 <= k <= j && (forall m :: k <= m <= j ==> ex[m].limit > ex[i].limit) ==>
                BrakingDistance(ex[k].limit, ex[i].limit, brake) >= SumLengths(ex[k..i])
  {
    if BrakeScan(ex, i, j, brake).Some? {
      BrakeScanFound(ex, i, j, brake);
    } else {
      BrakeScanMissed(ex, i, j, brake);
    }
  }

  lemma {:induction false} BrakeScanFound(ex: seq<Section>, i: nat, j: nat, brake: real)
    requires j < i < |ex| && brake > 0.0 && BrakeScan(ex, i, j, brake).Some?
    ensures var r := BrakeScan(ex, i, j, brake);
            ex[r.value].limit > ex[i].limit &&
            BrakingDistance(ex[r.value].limit, ex[i].limit, brake) < SumLengths(ex[r.value..i]) &&
            forall k :: r.value < k <= j ==> ex[k].limit > ex[i].limit &&
                                             BrakingDistance(ex[k].limit, ex[i].limit, brake) >= SumLengths(ex[k..i])
    decreases j
  {
    if ex[j].limit > ex[i].limit && BrakingDistance(ex[j].limit, ex[i].limit, brake) >= SumLengths(ex[j..i]) && j > 0 {
      BrakeScanFound(ex, i, j - 1, brake);
    }
  }

  lemma {:induction false} BrakeScanMissed(ex: seq<Section>, i: nat, j: nat, brake: real)
    requires j < i < |ex| && brake > 0.0 && BrakeScan(ex, i, j, brake).None?
    ensures forall k :: 0 <= k <= j && (forall m :: k <= m <= j ==> ex[m].limit > ex[i].limit) ==>
              BrakingDistance(ex[k].limit, ex[i].limit, brake) >= SumLengths(ex[k..i])
    decreases j
  {
    if ex[j].limit > ex[i].limit && BrakingDistance(ex[j].limit, ex[i].limit, brake) >= SumLengths(ex[j..i]) && j > 0 {
      BrakeScanMissed(ex, i, j - 1, brake);
    }
  }

  /** The braking curve of e starts inside section j, whose limit it
      starts from, and passes only sections whose limit is above section
      i's. */
  predicate BrakesFrom(ex: seq<Section>, i: nat, j: nat, e: Event)
    requires i < |ex|
  {
    j < i && e.vstart == ex[j].limit && e.end - e.start < SumLengths(ex[j..i]) &&
    forall k :: j < k < i ==> ex[k].limit > ex[i].limit
  }

  /** Braking ends where section i starts (way_total counts from PHP's
      index 0, that is from ex[1]). */
  function BrakePosition(ex: seq<Section>, i: nat): real
    requires 1 <= i <= |ex|
  {
    SumLengths(ex[1..i])
  }

  /** The braking event found for section i, if any: only when the start
      of section i lies beyond the previous braking start. */
  function BrakeAt(ex: seq<Section>, brake: real, i: nat, maxpoint: real): Option<Event>
    requires 1 <= i < |ex| && brake > 0.0
  {
    var wt := BrakePosition(ex, i);
    if wt > maxpoint then
      match BrakeScan(ex, i, i - 1, brake)
      case None => None
      case Some(j) =>
        var wb := BrakingDistance(ex[j].limit, ex[i].limit, brake);
        Some(Event(wt - wb, wt, ex[j].limit, ex[i].limit, Brake))
    else None
  }

  /** A braking event found for section i ends where section i starts,
      beyond maxpoint, brakes from a higher limit down to section i's over
      the braking distance, and starts inside a section it brakes from. */
  lemma BrakeAtSound(ex: seq<Section>, brake: real, i: nat, maxpoint: real)
    requires 1 <= i < |ex| && brake > 0.0
    ensures var r := BrakeAt(ex, brake, i, maxpoint);
            r.Some? ==>
              var e := r.value;
              e.kind == Brake && e.end == BrakePosition(ex, i) && e.end > maxpoint &&
              e.vend == ex[i].limit && e.vstart > e.vend &&
              e.end - e.start == BrakingDistance(e.vstart, e.vend, brake) &&
              exists j :: BrakesFrom(ex, i, j, e)
  {
    var r := BrakeAt(ex, brake, i, maxpoint);
    if r.Some? {
      BrakeScanSound(ex, i, i - 1, brake);
      var j := BrakeScan(ex, i, i - 1, brake).value;
      assert BrakesFrom(ex, i, j, r.value);
    }
  }

  /** The events found so far and maxpoint. */
  datatype Scan = Scan(events: seq<Event>, maxpoint: real)

  /** getBrakingPoints over the sections ex[1..n]. */
  function Braking(ex: seq<Section>, brake: real, n: nat): Scan
    requires n <= |ex| && brake > 0.0
  {
    if n <= 1 then Scan([], 0.0)
    else
      var p := Braking(ex, brake, n - 1);
      match BrakeAt(ex, brake, n - 1, p.maxpoint)
      case None => p
      case Some(e) => Scan(p.events + [e], e.start)
  }

  /** What every braking event satisfies on its own. */
  predicate BrakeSound(ex: seq<Section>, brake: real, e: Event)
    requires brake > 0.0
  {
    e.kind == Brake && e.vstart > e.vend &&
    e.end - e.start == BrakingDistance(e.vstart, e.vend, brake) &&
    exists i :: 1 <= i < |ex| && e.end == BrakePosition(ex, i) && e.vend == ex[i].limit
  }

  /** Every braking event ends where a section starts and brakes from a
      higher limit to that section's limit over the braking distance. */
  lemma {:induction false} BrakingSound(ex: seq<Section>, brake: real, n: nat)
    requires n <= |ex| && brake > 0.0
    ensures forall k :: 0 <= k < |Braking(ex, brake, n).events| ==>
              BrakeSound(ex, brake, Braking(ex, brake, n).events[k])
  {
    if n > 1 {
      BrakingSound(ex, brake, n - 1);
      var p := Braking(ex, brake, n - 1);
      var r := BrakeAt(ex, brake, n - 1, p.maxpoint);
      BrakeAtSound(ex, brake, n - 1, p.maxpoint);
      if r.Some? {
        var q := p.events + [r.value];
        assert forall k :: 0 <= k < |p.events| ==> q[k] == p.events[k];
        assert r.value.end == BrakePosition(ex, n - 1) && r.value.vend == ex[n - 1].limit;
        assert BrakeSound(ex, brake, r.value);
      }
    }
  }

  /** Each braking event ends after the previous one starts, the first
      ends after 0, and maxpoint is the start of the last one. */
  lemma {:induction false} BrakingOrdered(ex: seq<Section>, brake: real, n: nat)
    requires n <= |ex| && brake > 0.0
    ensures var s := Braking(ex, brake, n);
            (|s.events| > 0 ==> s.events[0].end > 0.0 && s.maxpoint == s.events[|s.events| - 1].start) &&
            (|s.events| == 0 ==> s.maxpoint == 0.0) &&
            (forall k :: 0 < k < |s.events| ==> s.events[k].end > s.events[k - 1].start)
  {
    if n > 1 {
      BrakingOrdered(ex, brake, n - 1);
      var p := Braking(ex, brake, n - 1);
      var r := BrakeAt(ex, brake, n - 1, p.maxpoint);
      BrakeAtSound(ex, brake, n - 1, p.maxpoint);
      if r.Some? {
        var q := p.events + [r.value];
        assert forall k :: 0 <= k < |p.events| ==> q[k] == p.events[k];
      }
    }
  }

  /** The inner loop of getBrakingPoints for section i: back from
      section i-1, adding up the distance, while the limit is above section
      i's and section i lies beyond maxpoint. */
  method ScanBack(ex: seq<Section>, brake: real, i: nat, wayTotal: real, maxpoint: real) returns (found: Option<nat>)
    requires 1 <= i < |ex| && brake > 0.0
    ensures found == if wayTotal > maxpoint then BrakeScan(ex, i, i - 1, brake) else None
  {
    var way := 0.0;
    var j := i;
    while j > 0
      invariant 0 <= j <= i
      invariant way == SumLengths(ex[j..i])
      invariant j < i ==> wayTotal > maxpoint
      invariant j > 0 ==> BrakeScan(ex, i, i - 1, brake) == BrakeScan(ex, i, j - 1, brake)
      invariant j == 0 ==> BrakeScan(ex, i, i - 1, brake).None?
    {
      j := j - 1;
      assert ex[j..i][1..] == ex[j + 1..i];
      way := way + ex[j].length;
      if ex[j].limit > ex[i].limit && wayTotal > maxpoint {
        var wayBrake := BrakingDistance(ex[j].limit, ex[i].limit, brake);
        if wayBrake < way {
          return Some(j);
        }
      } else {
        return None;
      }
    }
    return None;
  }

  /** getBrakingPoints with the sections in ex and the train's (scaled)
      brake deceleration. */
  method GetBrakingPoints(ex: seq<Section>, brake: real) returns (events: seq<Event>)
    requires brake > 0.0
    ensures events == Braking(ex, brake, |ex|).events
  {
    events := [];
    if |ex| == 0 {
      return;
    }
    var maxpoint := 0.0;
    var wayTotal := 0.0;
    var i := 1;
    while i < |ex|
      invariant 1 <= i <= |ex|
      invariant Scan(events, maxpoint) == Braking(ex, brake, i)
      invariant wayTotal == BrakePosition(ex, i)
    {
      var found := ScanBack(ex, brake, i, wayTotal, maxpoint);
      BrakingStep(ex, brake, i, events, maxpoint, found);
      if found.Some? {
        var j := found.value;
        var wayBrake := BrakingDistance(ex[j].limit, ex[i].limit, brake);
        events := events + [Event(wayTotal - wayBrake, wayTotal, ex[j].limit, ex[i].limit, Brake)];
        maxpoint := wayTotal - wayBrake;
      }
      BrakePositionStep(ex, i);
      wayTotal := wayTotal + ex[i].length;
      i := i + 1;
    }
  }

  /** The next section start is one section further on. */
  lemma BrakePositionStep(ex: seq<Section>, i: nat)
    requires 1 <= i < |ex|
    ensures BrakePosition(ex, i + 1) == BrakePosition(ex, i) + ex[i].length
  {
    assert ex[1..i + 1] == ex[1..i] + [ex[i]];
    SumLengthsAppend(ex[1..i], [ex[i]]);
    assert [ex[i]][1..] == [];
  }

  /** One round of the outer loop of getBrakingPoints, given what the
      scan back found. */
  lemma BrakingStep(ex: seq<Section>, brake: real, i: nat, events: seq<Event>, maxpoint: real, found: Option<nat>)
    requires 1 <= i < |ex| && brake > 0.0
    requires Scan(events, maxpoint) == Braking(ex, brake, i)
    requires found == if BrakePosition(ex, i) > maxpoint then BrakeScan(ex, i, i - 1, brake) else None
    ensures found.None? ==> Braking(ex, brake, i + 1) == Scan(events, maxpoint)
    ensures found.Some? ==>
              found.value < i &&
              var wb := BrakingDistance(ex[found.value].limit, ex[i].limit, brake);
              var e := Event(BrakePosition(ex, i) - wb, BrakePosition(ex, i), ex[found.value].limit, ex[i].limit, Brake);
              Braking(ex, brake, i + 1) == Scan(events + [e], e.start)
  {
  }

  /** Whether accelerating from v1 to v2 fits into way. accel is the mean
      acceleration between two speeds (Train::acceleration with 200
      passengers, as the route passes it in). */
  predicate AccFits(accel: (real, real) -> real, v1: real, v2: real, way: real) {
    var a := accel(v1, v2);
    a != 0.0 && AccelerationDistance(v1, v2, a) <= way
  }

  /** The scan forward from section i, at section j and above: the nearest
      section whose limit is above ex[i]'s and whose limit the train reaches
      within the distance from the end of section i to the end of section
      j. An acceleration of 0 makes the PHP distance infinite, which never
      fits. */
  function AccScan(ex: seq<Section>, accel: (real, real) -> real, i: nat, j: nat): (r: Option<nat>)
    requires i < j < |ex|
    ensures r.Some? ==> j <= r.value < |ex| && AccFits(accel, ex[i].limit, ex[r.value].limit, SumLengths(ex[i + 1..r.value + 1]))
    decreases |ex| - j
  {
    if ex[j].limit > ex[i].limit then
      if AccFits(accel, ex[i].limit, ex[j].limit, SumLengths(ex[i + 1..j + 1])) then Some(j)
      else if j + 1 < |ex| then AccScan(ex, accel, i, j + 1)
      else None
    else None
  }

  /** The section the scan finds has a limit above section i's that the
      train reaches within the distance up to its end; every section the
      scan passed over had a higher limit but not enough room. When the
      scan finds nothing, no section of the run of higher limits from j on
      is reached in time. */
  lemma {:induction false} AccScanSound(ex: seq<Section>, accel: (real, real) -> real, i: nat, j: nat)
    requires i < j < |ex|
    ensures var r := AccScan(ex, accel, i, j);
            r.Some? ==>
              ex[r.value].limit > ex[i].limit &&
              forall k :: j <= k < r.value ==> ex[k].limit > ex[i].limit &&
                                               !AccFits(accel, ex[i].limit, ex[k].limit, SumLengths(ex[i + 1..k + 1]))
    ensures AccScan(ex, accel, i, j).None? ==>
              forall k :: j <= k < |ex| && (forall m :: j <= m <= k ==> ex[m].limit > ex[i].limit) ==>
                !AccFits(accel, ex[i].limit, ex[k].limit, SumLengths(ex[i + 1..k + 1]))
  {
    if AccScan(ex, accel, i, j).Some? {
      AccScanFound(ex, accel, i, j);
    } else {
      AccScanMissed(ex, accel, i, j);
    }
  }

  lemma {:induction false} AccScanFound(ex: seq<Section>, accel: (real, real) -> real, i: nat, j: nat)
    requires i < j < |ex| && AccScan(ex, accel, i, j).Some?
    ensures var r := AccScan(ex, accel, i, j);
            ex[r.value].limit > ex[i].limit &&
            forall k :: j <= k < r.value ==> ex[k].limit > ex[i].limit &&
                                             !AccFits(accel, ex[i].limit, ex[k].limit, SumLengths(ex[i + 1..k + 1]))
    decreases |ex| - j
  {
    if ex[j].limit > ex[i].limit && !AccFits(accel, ex[i].limit, ex[j].limit, SumLengths(ex[i + 1..j + 1])) && j + 1 < |ex| {
      AccScanFound(ex, accel, i, j + 1);
    }
  }

  lemma {:induction false} AccScanMissed(ex: seq<Section>, accel: (real, real) -> real, i: nat, j: nat)
    requires i < j < |ex| && AccScan(ex, accel, i, j).None?
    ensures forall k :: j <= k < |ex| && (forall m :: j <= m <= k ==> ex[m].limit > ex[i].limit) ==>
              !AccFits(accel, ex[i].limit, ex[k].limit, SumLengths(ex[i + 1..k + 1]))
    decreases |ex| - j
  {
    if ex[j].limit > ex[i].limit && !AccFits(accel, ex[i].limit, ex[j].limit, SumLengths(ex[i + 1..j + 1])) && j + 1 < |ex| {
      AccScanMissed(ex, accel, i, j + 1);
    }
  }

  /** The acceleration of e ends inside section j, whose limit it
      reaches, and passes only sections whose limit is above section i's. */
  predicate AcceleratesTo(ex: seq<Section>, i: nat, j: nat, e: Event)
    requires i < |ex|
  {
    i < j < |ex| && e.vend == ex[j].limit && e.end - e.start <= SumLengths(ex[i + 1..j + 1]) &&
    forall k :: i < k < j ==> ex[k].limit > ex[i].limit
  }

  /** Acceleration starts where section i ends (way_total counts from PHP's
      index -1). */
  function AccPosition(ex: seq<Section>, i: nat): real
    requires i < |ex|
  {
    SumLengths(ex[..i + 1])
  }

  /** The acceleration event found for section i, if any: only when the
      end of section i is not before the previous acceleration's end. */
  function AccAt(ex: seq<Section>, accel: (real, real) -> real, i: nat, maxpoint: real): Option<Event>
    requires i < |ex|
  {
    var wt := AccPosition(ex, i);
    if i + 1 < |ex| && wt >= maxpoint then
      match AccScan(ex, accel, i, i + 1)
      case None => None
      case Some(j) =>
        var wacc := AccelerationDistance(ex[i].limit, ex[j].limit, accel(ex[i].limit, ex[j].limit));
        Some(Event(wt, wt + wacc, ex[i].limit, ex[j].limit, Acc))
    else None
  }

  /** An acceleration event found for section i starts where section i
      ends, not before maxpoint, accelerates from section i's limit to a
      higher one over the acceleration distance, and ends inside the
      section whose limit it reaches. */
  lemma AccAtSound(ex: seq<Section>, accel: (real, real) -> real, i: nat, maxpoint: real)
    requires i < |ex|
    ensures var r := AccAt(ex, accel, i, maxpoint);
            r.Some? ==>
              var e := r.value;
              var a := accel(e.vstart, e.vend);
              e.kind == Acc && e.start == AccPosition(ex, i) && e.start >= maxpoint &&
              e.vstart == ex[i].limit && e.vstart < e.vend && a != 0.0 &&
              e.end - e.start == AccelerationDistance(e.vstart, e.vend, a) &&
              exists j :: AcceleratesTo(ex, i, j, e)
  {
    var r := AccAt(ex, accel, i, maxpoint);
    if r.Some? {
      AccScanSound(ex, accel, i, i + 1);
      var j := AccScan(ex, accel, i, i + 1).value;
      assert AcceleratesTo(ex, i, j, r.value);
    }
  }

  /** getAccelerationPoints over the sections ex[..n]. */
  function Accelerating(ex: seq<Section>, accel: (real, real) -> real, n: nat): Scan
    requires n <= |ex|
  {
    if n == 0 then Scan([], 0.0)
    else
      var p := Accelerating(ex, accel, n - 1);
      match AccAt(ex, accel, n - 1, p.maxpoint)
      case None => p
      case Some(e) => Scan(p.events + [e], e.end)
  }

  /** What every acceleration event satisfies on its own. */
  predicate AccSound(ex: seq<Section>, accel: (real, real) -> real, e: Event) {
    var a := accel(e.vstart, e.vend);
    e.kind == Acc && e.vstart < e.vend && a != 0.0 &&
    e.end - e.start == AccelerationDistance(e.vstart, e.vend, a) &&
    exists i :: 0 <= i < |ex| && e.start == AccPosition(ex, i) && e.vstart == ex[i].limit
  }

  /** Every acceleration starts where a section ends and reaches a higher
      limit over the acceleration distance. */
  lemma {:induction false} AcceleratingSound(ex: seq<Section>, accel: (real, real) -> real, n: nat)
    requires n <= |ex|
    ensures forall k :: 0 <= k < |Accelerating(ex, accel, n).events| ==>
              AccSound(ex, accel, Accelerating(ex, accel, n).events[k])
  {
    if n > 0 {
      AcceleratingSound(ex, accel, n - 1);
      var p := Accelerating(ex, accel, n - 1);
      var r := AccAt(ex, accel, n - 1, p.maxpoint);
      AccAtSound(ex, accel, n - 1, p.maxpoint);
      if r.Some? {
        var q := p.events + [r.value];
        assert forall k :: 0 <= k < |p.events| ==> q[k] == p.events[k];
        assert r.value.start == AccPosition(ex, n - 1) && r.value.vstart == ex[n - 1].limit;
        assert AccSound(ex, accel, r.value);
      }
    }
  }

  /** No acceleration starts before the previous one ends (the first not
      before 0), so accelerations never overlap, and maxpoint is the end of
      the last one. */
  lemma {:induction false} AcceleratingOrdered(ex: seq<Section>, accel: (real, real) -> real, n: nat)
    requires n <= |ex|
    ensures var s := Accelerating(ex, accel, n);
            (|s.events| > 0 ==> s.events[0].start >= 0.0 && s.maxpoint == s.events[|s.events| - 1].end) &&
            (|s.events| == 0 ==> s.maxpoint == 0.0) &&
            (forall k :: 0 < k < |s.events| ==> s.events[k].start >= s.events[k - 1].end)
  {
    if n > 0 {
      AcceleratingOrdered(ex, accel, n - 1);
      var p := Accelerating(ex, accel, n - 1);
      var r := AccAt(ex, accel, n - 1, p.maxpoint);
      if r.Some? {
        assert r.value.start >= p.maxpoint;
        var q := p.events + [r.value];
        assert forall k :: 0 <= k < |p.events| ==> q[k] == p.events[k];
      }
    }
  }

  /** The inner loop of getAccelerationPoints for section i: forward
      from section i+1, adding up the distance, while the limit is above
      section i's and section i does not end before maxpoint. */
  method ScanForward(ex: seq<Section>, accel: (real, real) -> real, i: nat, wayTotal: real, maxpoint: real)
    returns (found: Option<nat>)
    requires i < |ex|
    ensures found == if i + 1 < |ex| && wayTotal >= maxpoint then AccScan(ex, accel, i, i + 1) else None
  {
    var way := 0.0;
    var j := i + 1;
    while j < |ex|
      invariant i + 1 <= j <= |ex|
      invariant way == SumLengths(ex[i + 1..j])
      invariant j > i + 1 ==> wayTotal >= maxpoint
      invariant j < |ex| ==> AccScan(ex, accel, i, i + 1) == AccScan(ex, accel, i, j)
      invariant j == |ex| && j > i + 1 ==> AccScan(ex, accel, i, i + 1).None?
    {
      SumLengthsAppend(ex[i + 1..j], [ex[j]]);
      assert ex[i + 1..j + 1] == ex[i + 1..j] + [ex[j]];
      assert [ex[j]][1..] == [];
      way := way + ex[j].length;
      if ex[j].limit > ex[i].limit && wayTotal >= maxpoint {
        var acceleration := accel(ex[i].limit, ex[j].limit);
        if acceleration != 0.0 && AccelerationDistance(ex[i].limit, ex[j].limit, acceleration) <= way {
          return Some(j);
        }
      } else {
        return None;
      }
      j := j + 1;
    }
    return None;
  }

  /** getAccelerationPoints, with the train's acceleration passed as accel. */
  method GetAccelerationPoints(ex: seq<Section>, accel: (real, real) -> real) returns (events: seq<Event>)
    ensures events == Accelerating(ex, accel, |ex|).events
  {
    events := [];
    var maxpoint := 0.0;
    var wayTotal := 0.0;
    var i := 0;
    while i < |ex|
      invariant 0 <= i <= |ex|
      invariant Scan(events, maxpoint) == Accelerating(ex, accel, i)
      invariant wayTotal == SumLengths(ex[..i])
    {
      SumLengthsSnoc(ex, i);
      wayTotal := wayTotal + ex[i].length;
      var found := ScanForward(ex, accel, i, wayTotal, maxpoint);
      if found.Some? {
        var j := found.value;
        var wayAcc := AccelerationDistance(ex[i].limit, ex[j].limit, accel(ex[i].limit, ex[j].limit));
        events := events + [Event(wayTotal, wayTotal + wayAcc, ex[i].limit, ex[j].limit, Acc)];
        maxpoint := wayTotal + wayAcc;
      }
      i := i + 1;
    }
    assert ex[..|ex|] == ex;
  }
}
