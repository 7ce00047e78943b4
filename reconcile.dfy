/** How calculateSpeed settles the braking and acceleration events
    (functions/getData.php:1873-1889, 2015-2168): the two lists are merged,
    sort_accbrake sorts them and edits every neighbouring pair in place, and
    this is repeated until nothing changes; the events then become the
    points of the speed curve. */
module Reconcile {
  import opened Osm
  import opened Events

  /** ReCalculateS1: the way s1 that stands to v1 as s2 stands to v2. */
  function ReCalculateS1(s2: real, v1: real, v2: real): (s1: real)
    requires v2 != 0.0
    ensures s1 * v2 == s2 * v1
  {
    s2 * v1 / v2
  }

  /** array_merge of the two lists. Either list is null in PHP when no
      event was found, and merging with null gives null: no events. */
  function MergeEvents(brakes: seq<Event>, accs: seq<Event>): (r: seq<Event>)
    ensures brakes == [] || accs == [] ==> r == []
    ensures brakes != [] && accs != [] ==> |r| == |brakes| + |accs| && r[..|brakes|] == brakes && r[|brakes|..] == accs
  {
    if brakes == [] || accs == [] then [] else brakes + accs
  }

  // The sort -------------------------------------------------------------

  /** PHP compares the kind strings: "acc" before "brake". */
  function KindRank(k: Kind): nat {
    match k
    case Acc => 0
    case Brake => 1
  }

  /** array_multisort by start; equal starts are ordered by the whole rows,
      field by field. */
  predicate EventLe(a: Event, b: Event) {
    a.start < b.start ||
    (a.start == b.start &&
     (a.end < b.end ||
      (a.end == b.end &&
       (a.vstart < b.vstart ||
        (a.vstart == b.vstart &&
         (a.vend < b.vend ||
          (a.vend == b.vend && KindRank(a.kind) <= KindRank(b.kind))))))))
  }

  lemma EventLeTotal(a: Event, b: Event)
    ensures EventLe(a, b) || EventLe(b, a)
  {
  }

  lemma EventLeTransitive(a: Event, b: Event, c: Event)
    requires EventLe(a, b) && EventLe(b, c)
    ensures EventLe(a, c)
  {
  }

  predicate Sorted(s: seq<Event>) {
    forall i, j :: 0 <= i < j < |s| ==> EventLe(s[i], s[j])
  }

  function Insert(s: seq<Event>, x: Event): (r: seq<Event>)
    ensures multiset(r) == multiset(s) + multiset{x}
    decreases |s|
  {
    if |s| == 0 then [x]
    else if EventLe(s[|s| - 1], x) then s + [x]
    else
      assert s == s[..|s| - 1] + [s[|s| - 1]];
      Insert(s[..|s| - 1], x) + [s[|s| - 1]]
  }

  /** Inserting x under a bound every event and x keep keeps the bound. */
  lemma InsertBounded(s: seq<Event>, x: Event, b: Event)
    requires forall k :: 0 <= k < |s| ==> EventLe(s[k], b)
    requires EventLe(x, b)
    ensures forall k :: 0 <= k < |Insert(s, x)| ==> EventLe(Insert(s, x)[k], b)
  {
    var q := Insert(s, x);
    forall k | 0 <= k < |q| ensures EventLe(q[k], b) {
      assert q[k] in multiset(s) + multiset{x} by {
        assert q[k] in multiset(q);
      }
      if q[k] != x {
        var m :| 0 <= m < |s| && s[m] == q[k];
      }
    }
  }

  /** Appending an event no smaller than all others keeps the order. */
  lemma SortedSnoc(q: seq<Event>, last: Event)
    requires Sorted(q)
    requires forall k :: 0 <= k < |q| ==> EventLe(q[k], last)
    ensures Sorted(q + [last])
  {
    var r := q + [last];
    forall i, j | 0 <= i < j < |r| ensures EventLe(r[i], r[j]) {
      assert r[i] == q[i];
    }
  }

  lemma {:induction false} InsertSorted(s: seq<Event>, x: Event)
    requires Sorted(s)
    ensures Sorted(Insert(s, x))
    decreases |s|
  {
    if |s| > 0 && !EventLe(s[|s| - 1], x) {
      var init := s[..|s| - 1];
      var last := s[|s| - 1];
      assert Sorted(init);
      InsertSorted(init, x);
      EventLeTotal(last, x);
      InsertBounded(init, x, last);
      SortedSnoc(Insert(init, x), last);
    } else if |s| > 0 {
      SortedSnoc(s, x);
    }
  }

  /** The array_multisort of sort_accbrake: sorted, and a permutation. */
  function SortEvents(s: seq<Event>): (r: seq<Event>)
    ensures Sorted(r)
    ensures multiset(r) == multiset(s)
    decreases |s|
  {
    if |s| == 0 then []
    else
      assert s == s[..|s| - 1] + [s[|s| - 1]];
      var init := SortEvents(s[..|s| - 1]);
      InsertSorted(init, s[|s| - 1]);
      Insert(init, s[|s| - 1])
  }

  // The edit of one pair ---------------------------------------------------

  /** An event with its positions and speeds set to 0; its kind stays. */
  function Zeroed(e: Event): Event {
    Event(0.0, 0.0, 0.0, 0.0, e.kind)
  }

  /** "Operation B is within operation A": an event strictly inside its
      predecessor is zeroed. */
  function DropNested(cur: Event, next: Event): (n: Event)
    ensures n.kind == next.kind
    ensures next.start > cur.start && next.end < cur.end ==> n == Zeroed(next)
    ensures !(next.start > cur.start && next.end < cur.end) ==> n == next
  {
    if next.start > cur.start && next.end < cur.end then Zeroed(next) else next
  }

  /** The inner while loop: while the brake starts before the acceleration
      ends, both are scaled down to 80% of the acceleration's target speed.
      fuel bounds the number of rounds. */
  function SlowDown(cur: Event, next: Event, fuel: nat): (r: (Event, Event))
    requires cur.vend != 0.0 && next.vstart != 0.0
    ensures r.0.kind == cur.kind && r.1.kind == next.kind
    ensures r.0.start == cur.start && r.0.vstart == cur.vstart && r.1.end == next.end && r.1.vend == next.vend
    ensures fuel > 0 && next.start < cur.end ==> r.0.vend == r.1.vstart != 0.0
    ensures fuel == 0 || next.start >= cur.end ==> r == (cur, next)
    decreases fuel
  {
    if fuel == 0 || !(next.start < cur.end) then (cur, next)
    else
      var v := 0.8 * cur.vend;
      var c := cur.(end := cur.start + ReCalculateS1(cur.end - cur.start, v, cur.vend), vend := v);
      var n := next.(start := next.end - ReCalculateS1(next.end - next.start, v, next.vstart), vstart := v);
      SlowDown(c, n, fuel - 1)
  }

  /** An acceleration followed by an overlapping brake. */
  function AccThenBrake(cur: Event, next: Event, fuel: nat): (r: (Event, Event))
    ensures r.0.kind == cur.kind && r.1.kind == next.kind
    ensures next.vend == cur.vend ==> r == (cur, Event(cur.end, cur.end, next.vend, next.vend, next.kind))
  {
    if next.vend == cur.vend then
      // do not brake
      (cur, next.(start := cur.end, end := cur.end, vstart := next.vend))
    else if next.vend > cur.vstart then
      // only accelerate to the braking speed, meeting half-way
      var mid := (next.end + cur.start) / 2.0;
      (cur.(vend := next.vend, end := mid), next.(start := mid, vstart := next.vend))
    else if next.vend < cur.vstart && next.vend != next.vstart then
      // do not accelerate; brake from the acceleration's start speed
      var s := ReCalculateS1(next.end - next.start, next.vend - cur.vstart, next.vend - next.vstart);
      (cur.(end := cur.start, vend := cur.vstart), next.(start := next.end - s, vstart := cur.vstart))
    else if next.vend == cur.vstart then
      if cur.vstart == 0.0 then
        // the train is standing: it must accelerate to move
        if cur.vend != 0.0 && next.vstart != 0.0 then SlowDown(cur, next, fuel) else (cur, next)
      else
        // neither brake nor accelerate
        (cur.(start := cur.end, vend := cur.vstart), Zeroed(next))
    else (cur, next)
  }

  /** The edit of the pair (cur, next) in one sort_accbrake pass: nested
      events are dropped, overlapping ones reconciled, and the next event
      may not start faster than the previous one ends unless that one ends
      at 0. */
  function PairEdit(cur: Event, next: Event, fuel: nat): (r: (Event, Event))
    ensures r.0.kind == cur.kind && r.1.kind == next.kind
    ensures r.0.vend == 0.0 || r.1.vstart <= r.0.vend
  {
    var n1 := DropNested(cur, next);
    var p := if n1.start < cur.end then
               if cur.kind == Acc && n1.kind == Brake then AccThenBrake(cur, n1, fuel)
               else if cur.kind == Brake && n1.kind == Brake then (cur, Event(cur.end, cur.end, cur.vend, cur.vend, n1.kind))
               else (cur, n1)
             else (cur, n1);
    var n2 := if p.1.vstart > p.0.vend && p.0.vend != 0.0 then p.1.(vstart := p.0.vend) else p.1;
    (p.0, n2)
  }

  /** A brake overlapping a brake before it collapses onto that brake's
      end point; the earlier brake is kept. */
  lemma BrakeAfterBrake(cur: Event, next: Event, fuel: nat)
    requires cur.kind == Brake && next.kind == Brake
    requires DropNested(cur, next).start < cur.end
    ensures PairEdit(cur, next, fuel) == (cur, Event(cur.end, cur.end, cur.vend, cur.vend, Brake))
  {
  }

  /** A brake that overlaps an acceleration with the same target speed
      collapses to a point at the acceleration's end. */
  lemma BrakeToAccTarget(cur: Event, next: Event, fuel: nat)
    requires cur.kind == Acc && next.kind == Brake
    requires DropNested(cur, next).start < cur.end && DropNested(cur, next).vend == cur.vend
    ensures PairEdit(cur, next, fuel) == (cur, Event(cur.end, cur.end, cur.vend, cur.vend, Brake))
  {
  }

  /** Events that neither nest nor overlap are only joined in speed. */
  lemma SeparateEventsJoined(cur: Event, next: Event, fuel: nat)
    requires !(next.start > cur.start && next.end < cur.end) && next.start >= cur.end
    ensures PairEdit(cur, next, fuel).0 == cur
    ensures PairEdit(cur, next, fuel).1 == if next.vstart > cur.vend && cur.vend != 0.0 then next.(vstart := cur.vend) else next
  {
  }

  /** An acceleration from standstill whose brake back to standstill
      overlaps it: both are slowed down, keeping the acceleration's start
      and the brake's end, and they meet at the same speed. */
  lemma StandingStartSeparates(cur: Event, next: Event, fuel: nat)
    requires cur.kind == Acc && next.kind == Brake && fuel > 0
    requires !(next.start > cur.start && next.end < cur.end) && next.start < cur.end
    requires cur.vstart == 0.0 && next.vend == 0.0 && cur.vend != 0.0 && next.vstart != 0.0
    ensures var r := PairEdit(cur, next, fuel);
            r.0.vend == r.1.vstart && r.0.start == cur.start && r.1.end == next.end && r.1.vend == 0.0
  {
  }

  // The pass ------------------------------------------------------------------

  /** The for loop of sort_accbrake from pair (i, i+1) on, each pair edited
      after the previous pair's edit. */
  function EditFrom(a: seq<Event>, i: nat, fuel: nat): (r: seq<Event>)
    ensures |r| == |a|
    ensures forall k :: 0 <= k < |a| ==> r[k].kind == a[k].kind
    decreases |a| - i
  {
    if i + 1 >= |a| then a
    else
      var p := PairEdit(a[i], a[i + 1], fuel);
      EditFrom(a[i := p.0][i + 1 := p.1], i + 1, fuel)
  }

  /** sort_accbrake. */
  function SortAccBrake(a: seq<Event>, fuel: nat): seq<Event> {
    EditFrom(SortEvents(a), 0, fuel)
  }

  function CountKind(s: seq<Event>, k: Kind): nat
    decreases |s|
  {
    if |s| == 0 then 0 else CountKind(s[..|s| - 1], k) + (if s[|s| - 1].kind == k then 1 else 0)
  }

  lemma {:induction false} CountKindAppend(s: seq<Event>, t: seq<Event>, k: Kind)
    ensures CountKind(s + t, k) == CountKind(s, k) + CountKind(t, k)
    decreases |t|
  {
    if |t| > 0 {
      assert (s + t)[..|s + t| - 1] == s + t[..|t| - 1];
      CountKindAppend(s, t[..|t| - 1], k);
    } else {
      assert s + t == s;
    }
  }

  lemma {:induction false} InsertCountKind(s: seq<Event>, x: Event, k: Kind)
    ensures CountKind(Insert(s, x), k) == CountKind(s, k) + (if x.kind == k then 1 else 0)
    decreases |s|
  {
    if |s| > 0 && !EventLe(s[|s| - 1], x) {
      InsertCountKind(s[..|s| - 1], x, k);
      assert Insert(s, x)[..|Insert(s, x)| - 1] == Insert(s[..|s| - 1], x);
    }
  }

  lemma {:induction false} SortCountKind(s: seq<Event>, k: Kind)
    ensures CountKind(SortEvents(s), k) == CountKind(s, k)
    decreases |s|
  {
    if |s| > 0 {
      SortCountKind(s[..|s| - 1], k);
      InsertCountKind(SortEvents(s[..|s| - 1]), s[|s| - 1], k);
    }
  }

  /** Equal kinds position by position give equal counts. */
  lemma {:induction false} SameKindsCount(s: seq<Event>, t: seq<Event>, k: Kind)
    requires |s| == |t| && forall i :: 0 <= i < |s| ==> s[i].kind == t[i].kind
    ensures CountKind(s, k) == CountKind(t, k)
    decreases |s|
  {
    if |s| > 0 {
      SameKindsCount(s[..|s| - 1], t[..|t| - 1], k);
    }
  }

  /** sort_accbrake keeps the number of events and how many of them
      accelerate and brake. */
  lemma SortAccBrakeKeepsKinds(a: seq<Event>, fuel: nat, k: Kind)
    ensures |SortAccBrake(a, fuel)| == |a|
    ensures CountKind(SortAccBrake(a, fuel), k) == CountKind(a, k)
  {
    SortCountKind(a, k);
    SameKindsCount(SortAccBrake(a, fuel), SortEvents(a), k);
  }

  // Speeds ---------------------------------------------------------------------

  predicate NonNegativeSpeeds(e: Event) {
    e.vstart >= 0.0 && e.vend >= 0.0
  }

  predicate AllNonNegative(s: seq<Event>) {
    forall k :: 0 <= k < |s| ==> NonNegativeSpeeds(s[k])
  }

  /** Slowing down to 80% never makes a speed negative. */
  lemma {:induction false} SlowDownNonNegative(cur: Event, next: Event, fuel: nat)
    requires cur.vend != 0.0 && next.vstart != 0.0
    requires NonNegativeSpeeds(cur) && NonNegativeSpeeds(next)
    ensures NonNegativeSpeeds(SlowDown(cur, next, fuel).0) && NonNegativeSpeeds(SlowDown(cur, next, fuel).1)
    decreases fuel
  {
    if fuel > 0 && next.start < cur.end {
      var v := 0.8 * cur.vend;
      var c := cur.(end := cur.start + ReCalculateS1(cur.end - cur.start, v, cur.vend), vend := v);
      var n := next.(start := next.end - ReCalculateS1(next.end - next.start, v, next.vstart), vstart := v);
      SlowDownNonNegative(c, n, fuel - 1);
    }
  }

  /** Every speed the edit of a pair writes is one of the speeds of the
      pair, 0, or 80% of one, so none becomes negative. */
  lemma PairEditNonNegative(cur: Event, next: Event, fuel: nat)
    requires NonNegativeSpeeds(cur) && NonNegativeSpeeds(next)
    ensures NonNegativeSpeeds(PairEdit(cur, next, fuel).0) && NonNegativeSpeeds(PairEdit(cur, next, fuel).1)
  {
    var n1 := DropNested(cur, next);
    if n1.start < cur.end && cur.kind == Acc && n1.kind == Brake && n1.vend != cur.vend &&
       !(n1.vend > cur.vstart) && !(n1.vend < cur.vstart && n1.vend != n1.vstart) &&
       n1.vend == cur.vstart && cur.vstart == 0.0 && cur.vend != 0.0 && n1.vstart != 0.0 {
      SlowDownNonNegative(cur, n1, fuel);
    }
  }

  lemma {:induction false} EditFromNonNegative(a: seq<Event>, i: nat, fuel: nat)
    requires AllNonNegative(a)
    ensures AllNonNegative(EditFrom(a, i, fuel))
    decreases |a| - i
  {
    if i + 1 < |a| {
      var p := PairEdit(a[i], a[i + 1], fuel);
      PairEditNonNegative(a[i], a[i + 1], fuel);
      EditFromNonNegative(a[i := p.0][i + 1 := p.1], i + 1, fuel);
    }
  }

  /** sort_accbrake keeps every speed non-negative. */
  lemma SortAccBrakeNonNegative(a: seq<Event>, fuel: nat)
    requires AllNonNegative(a)
    ensures AllNonNegative(SortAccBrake(a, fuel))
  {
    var s := SortEvents(a);
    forall k | 0 <= k < |s| ensures NonNegativeSpeeds(s[k]) {
      assert s[k] in multiset(s);
      var m :| 0 <= m < |a| && a[m] == s[k];
    }
    EditFromNonNegative(s, 0, fuel);
  }

  /** An acceleration from 50 to 80 over [0, 10] and a brake held at 30 over
      [5, 20]: the brake starts before the acceleration ends, but no branch
      of the pair edit matches (30 is below 50 and the brake's two speeds
      are equal), so sort_accbrake leaves the pair as it is and the
      trajectory goes back from 10 to 5. */
  lemma OverlapLeftInPlace(fuel: nat)
    ensures var e := [Event(0.0, 10.0, 50.0, 80.0, Acc), Event(5.0, 20.0, 30.0, 30.0, Brake)];
            SortAccBrake(e, fuel) == e && e[1].start < e[0].end
  {
    var e := [Event(0.0, 10.0, 50.0, 80.0, Acc), Event(5.0, 20.0, 30.0, 30.0, Brake)];
    assert e[..1] == [e[0]] && e[..1][..0] == [];
    assert SortEvents(e[..1]) == [e[0]];
    assert SortEvents(e) == e;
    assert PairEdit(e[0], e[1], fuel) == (e[0], e[1]);
    assert e[0 := e[0]][1 := e[1]] == e;
  }

  /** The 80% loop of sort_accbrake. */
  method SlowDownLoop(cur: Event, next: Event, fuel: nat) returns (c: Event, n: Event)
    requires cur.vend != 0.0 && next.vstart != 0.0
    ensures (c, n) == SlowDown(cur, next, fuel)
  {
    c, n := cur, next;
    var rounds := fuel;
    while rounds > 0 && n.start < c.end
      invariant c.vend != 0.0 && n.vstart != 0.0
      invariant SlowDown(c, n, rounds) == SlowDown(cur, next, fuel)
      decreases rounds
    {
      var newSpeed := 0.8 * c.vend;
      c := c.(end := c.start + ReCalculateS1(c.end - c.start, newSpeed, c.vend), vend := newSpeed);
      n := n.(start := n.end - ReCalculateS1(n.end - n.start, newSpeed, n.vstart), vstart := newSpeed);
      rounds := rounds - 1;
    }
  }

  /** The body of the for loop of sort_accbrake for one pair. */
  method EditPair(cur: Event, next: Event, fuel: nat) returns (c: Event, n: Event)
    ensures (c, n) == PairEdit(cur, next, fuel)
  {
    c, n := cur, next;
    if n.start > c.start && n.end < c.end {
      n := Zeroed(n);
    }
    if n.start < c.end {
      if n.kind == Brake && c.kind == Acc {
        if n.vend == c.vend {
          n := n.(start := c.end, end := c.end, vstart := n.vend);
        } else if n.vend > c.vstart {
          c := c.(vend := n.vend);
          var mid := (n.end + c.start) / 2.0;
          c := c.(end := mid);
          n := n.(start := mid, vstart := c.vend);
        } else if n.vend < c.vstart && n.vend != n.vstart {
          c := c.(end := c.start, vend := c.vstart);
          n := n.(start := n.end - ReCalculateS1(n.end - n.start, n.vend - c.vstart, n.vend - n.vstart), vstart := c.vstart);
        } else if n.vend == c.vstart {
          if c.vstart == 0.0 {
            if c.vend != 0.0 && n.vstart != 0.0 {
              c, n := SlowDownLoop(c, n, fuel);
            }
          } else {
            n := Zeroed(n);
            c := c.(start := c.end, vend := c.vstart);
          }
        }
      }
      if n.kind == Brake && c.kind == Brake {
        n := Event(c.end, c.end, c.vend, c.vend, n.kind);
      }
    }
    if n.vstart > c.vend && c.vend != 0.0 {
      n := n.(vstart := c.vend);
    }
  }

  /** sort_accbrake: the sort, then the pass over the pairs in place. */
  method SortAccBrakePass(events: seq<Event>, fuel: nat) returns (a: seq<Event>)
    ensures a == SortAccBrake(events, fuel)
  {
    a := SortEvents(events);
    var i := 0;
    while i + 1 < |a|
      invariant EditFrom(a, i, fuel) == SortAccBrake(events, fuel)
      decreases |a| - i
    {
      var c, n := EditPair(a[i], a[i + 1], fuel);
      a := a[i := c][i + 1 := n];
      i := i + 1;
    }
  }

  /** r rounds of sort_accbrake, starting from e. */
  function Iterate(e: seq<Event>, fuel: nat, r: nat): seq<Event>
    decreases r
  {
    if r == 0 then e else SortAccBrake(Iterate(e, fuel, r - 1), fuel)
  }

  /** What the loop of calculateSpeed holds after r rounds: a is r rounds of
      sort_accbrake from the merged events, every round but the last changed
      the list, and the loop stopped because the last round changed nothing
      (or, with no round, because the list was empty, which equals the
      empty accbrake_array_old). */
  ghost predicate SettledAfter(events: seq<Event>, fuel: nat, r: nat, a: seq<Event>, converged: bool) {
    a == Iterate(events, fuel, r) &&
    (forall j :: 0 < j < r ==> Iterate(events, fuel, j) != Iterate(events, fuel, j - 1)) &&
    (converged <==> if r == 0 then events == [] else Iterate(events, fuel, r) == Iterate(events, fuel, r - 1))
  }

  /** However many rounds run, the number of events and of each kind stays. */
  lemma {:induction false} IterateKeepsKinds(e: seq<Event>, fuel: nat, r: nat, k: Kind)
    ensures |Iterate(e, fuel, r)| == |e| && CountKind(Iterate(e, fuel, r), k) == CountKind(e, k)
    decreases r
  {
    if r > 0 {
      IterateKeepsKinds(e, fuel, r - 1, k);
      SortAccBrakeKeepsKinds(Iterate(e, fuel, r - 1), fuel, k);
    }
  }

  /** The outcome of the loop: at most passes rounds, all of them when it
      did not converge. */
  ghost predicate SettleOutcome(events: seq<Event>, passes: nat, fuel: nat, a: seq<Event>, converged: bool) {
    exists r: nat :: r <= passes && SettledAfter(events, fuel, r, a, converged) && (!converged ==> r == passes)
  }

  /** However many rounds run, speeds that were not negative stay so. */
  lemma {:induction false} IterateNonNegative(e: seq<Event>, fuel: nat, r: nat)
    requires AllNonNegative(e)
    ensures AllNonNegative(Iterate(e, fuel, r))
    decreases r
  {
    if r > 0 {
      IterateNonNegative(e, fuel, r - 1);
      SortAccBrakeNonNegative(Iterate(e, fuel, r - 1), fuel);
    }
  }

  /** When the loop stops because nothing changed, its result is a fixed
      point of sort_accbrake; with no round at all, the list is empty. */
  lemma SettledFixed(events: seq<Event>, fuel: nat, r: nat, a: seq<Event>)
    requires SettledAfter(events, fuel, r, a, true)
    ensures SortAccBrake(a, fuel) == a
    ensures r == 0 ==> a == []
  {
    if r == 0 {
      assert SortEvents([]) == [];
    }
  }

  /** How the loop of calculateSpeed ends: after r rounds, with previous
      the list before the last round (the empty accbrake_array_old when
      there was none), and every earlier round changing the list. */
  lemma SettledAtExit(events: seq<Event>, fuel: nat, r: nat, previous: seq<Event>, a: seq<Event>)
    requires a == Iterate(events, fuel, r)
    requires if r == 0 then previous == [] else previous == Iterate(events, fuel, r - 1)
    requires forall j :: 0 < j < r ==> Iterate(events, fuel, j) != Iterate(events, fuel, j - 1)
    ensures SettledAfter(events, fuel, r, a, previous == a)
  {
  }

  /** One round of the loop: a call of sort_accbrake on the list after r
      rounds gives the list after r + 1. */
  method Round(ghost events: seq<Event>, fuel: nat, ghost r: nat, a: seq<Event>) returns (b: seq<Event>)
    requires a == Iterate(events, fuel, r)
    ensures b == Iterate(events, fuel, r + 1)
  {
    b := SortAccBrakePass(a, fuel);
  }

  /** The loop of calculateSpeed that repeats sort_accbrake until it
      returns its input; passes bounds the repetitions. The result is the
      list after the rounds the PHP loop runs; when converged, it is a fixed
      point of sort_accbrake. */
  method Settle(events: seq<Event>, passes: nat, fuel: nat) returns (a: seq<Event>, converged: bool)
    ensures SettleOutcome(events, passes, fuel, a, converged)
    ensures converged ==> SortAccBrake(a, fuel) == a
    ensures events == [] ==> converged && a == []
    ensures |a| == |events| && forall k :: CountKind(a, k) == CountKind(events, k)
    ensures AllNonNegative(events) ==> AllNonNegative(a)
  {
    var previous: seq<Event> := [];
    a := events;
    var left := passes;
    ghost var rounds: nat := 0;
    while previous != a && left > 0
      invariant rounds + left == passes
      invariant a == Iterate(events, fuel, rounds)
      invariant if rounds == 0 then previous == [] else previous == Iterate(events, fuel, rounds - 1)
      invariant forall j :: 0 < j < rounds ==> Iterate(events, fuel, j) != Iterate(events, fuel, j - 1)
      decreases left
    {
      previous := a;
      a := Round(events, fuel, rounds, a);
      left := left - 1;
      rounds := rounds + 1;
    }
    converged := previous == a;
    SettledAtExit(events, fuel, rounds, previous, a);
    if converged {
      SettledFixed(events, fuel, rounds, a);
    }
    forall k ensures CountKind(a, k) == CountKind(events, k) {
      IterateKeepsKinds(events, fuel, rounds, k);
    }
    IterateKeepsKinds(events, fuel, rounds, Acc);
    if AllNonNegative(events) {
      IterateNonNegative(events, fuel, rounds);
    }
  }

  /** One point of maxspeed_point_array: position and speed. */
  datatype Point = Point(x: real, v: real)

  /** The loop of calculateSpeed that turns every event into its start and
      end point. */
  method Trajectory(events: seq<Event>) returns (points: seq<Point>)
    ensures |points| == 2 * |events|
    ensures forall k :: 0 <= k < |events| ==>
              points[2 * k] == Point(events[k].start, events[k].vstart) &&
              points[2 * k + 1] == Point(events[k].end, events[k].vend)
  {
    points := [];
    var i := 0;
    while i < |events|
      invariant 0 <= i <= |events|
      invariant |points| == 2 * i
      invariant forall k :: 0 <= k < i ==>
                  points[2 * k] == Point(events[k].start, events[k].vstart) &&
                  points[2 * k + 1] == Point(events[k].end, events[k].vend)
    {
      points := points + [Point(events[i].start, events[i].vstart), Point(events[i].end, events[i].vend)];
      i := i + 1;
    }
  }
}
