/** The speed profile of the route as loadRelationWays builds it
    (functions/getData.php:736-757, 905-907): consecutive ways with the same
    limit are merged into one section of maxspeed_array, and the array
    ends with the open run and a (0, 0) sentinel. */
module Profile {
  import opened Osm

  /** One row of maxspeed_array / exmaxarray: (length, limit, exact). */
  datatype Section = Section(length: real, limit: real, exact: bool)

  function SumLengths(s: seq<Section>): real
    decreases |s|
  {
    if |s| == 0 then 0.0 else s[0].length + SumLengths(s[1..])
  }

  lemma {:induction false} SumLengthsAppend(a: seq<Section>, b: seq<Section>)
    ensures SumLengths(a + b) == SumLengths(a) + SumLengths(b)
    decreases |a|
  {
    if |a| > 0 {
      assert (a + b)[1..] == a[1..] + b;
      SumLengthsAppend(a[1..], b);
    } else {
      assert a + b == b;
    }
  }

  /** The sum over s[..k+1] adds s[k] to the sum over s[..k]. */
  lemma SumLengthsSnoc(s: seq<Section>, k: nat)
    requires k < |s|
    ensures SumLengths(s[..k + 1]) == SumLengths(s[..k]) + s[k].length
  {
    assert s[..k + 1] == s[..k] + [s[k]];
    SumLengthsAppend(s[..k], [s[k]]);
  }

  /** The state of the encoder between two ways: the rows written so far
      (maxspeed_array), the open run (distance_before, maxspeed_before) and
      the exact flag of the last way. */
  datatype Rle = Rle(closed: seq<Section>, runLength: real, runLimit: real, exact: bool)

  /** Before the first way: no rows, an empty run with limit 0, and an
      exact flag that PHP leaves unset (null, read as false). */
  const Start: Rle := Rle([], 0.0, 0.0, false)

  /** Whether way w closes the open run: its limit differs from the run's
      and the run's limit is not 0. */
  predicate Flushes(r: Rle, w: Section) {
    r.runLimit != w.limit && r.runLimit != 0.0
  }

  /** Adding one way. A closed run is written with the exact flag of the
      way that closes it, not of the ways inside it. */
  function Push(r: Rle, w: Section): (q: Rle)
    ensures SumLengths(q.closed) + q.runLength == SumLengths(r.closed) + r.runLength + w.length
    ensures q.runLimit == w.limit && q.exact == w.exact
    ensures Flushes(r, w) ==> q.closed == r.closed + [Section(r.runLength, r.runLimit, w.exact)] && q.runLength == w.length
    ensures !Flushes(r, w) ==> q.closed == r.closed && q.runLength == r.runLength + w.length
  {
    if Flushes(r, w) then
      var row := Section(r.runLength, r.runLimit, w.exact);
      SumLengthsAppend(r.closed, [row]);
      Rle(r.closed + [row], w.length, w.limit, w.exact)
    else
      Rle(r.closed, r.runLength + w.length, w.limit, w.exact)
  }

  /** The encoder after the ways ws. */
  function Encode(ws: seq<Section>): Rle
    decreases |ws|
  {
    if |ws| == 0 then Start else Push(Encode(ws[..|ws| - 1]), ws[|ws| - 1])
  }

  /** The two rows appended after the loop: the open run and the sentinel. */
  function Finish(r: Rle): (a: seq<Section>)
    ensures |a| == |r.closed| + 2 && a[..|r.closed|] == r.closed
    ensures a[|r.closed|] == Section(r.runLength, r.runLimit, r.exact)
    ensures a[|a| - 1] == Section(0.0, 0.0, r.exact)
  {
    r.closed + [Section(r.runLength, r.runLimit, r.exact), Section(0.0, 0.0, r.exact)]
  }

  function MaxspeedArray(ws: seq<Section>): seq<Section> {
    Finish(Encode(ws))
  }

  /** Every metre of every way is in exactly one row. */
  lemma {:induction false} EncodeKeepsLength(ws: seq<Section>)
    ensures SumLengths(Encode(ws).closed) + Encode(ws).runLength == SumLengths(ws)
    decreases |ws|
  {
    if |ws| > 0 {
      EncodeKeepsLength(ws[..|ws| - 1]);
      SumLengthsSnoc(ws, |ws| - 1);
      assert ws[..|ws|] == ws;
    }
  }

  lemma FinishLength(r: Rle)
    ensures SumLengths(Finish(r)) == SumLengths(r.closed) + r.runLength
  {
    var tail := [Section(r.runLength, r.runLimit, r.exact), Section(0.0, 0.0, r.exact)];
    SumLengthsAppend(r.closed, tail);
    assert tail[1..][1..] == [];
    assert SumLengths(tail[1..]) == 0.0;
    assert SumLengths(tail) == r.runLength;
  }

  /** The rows of maxspeed_array add up to the total length of the ways. */
  lemma MaxspeedArrayLength(ws: seq<Section>)
    ensures SumLengths(MaxspeedArray(ws)) == SumLengths(ws)
  {
    EncodeKeepsLength(ws);
    FinishLength(Encode(ws));
  }

  /** Every limit in the encoder is at most cap. */
  predicate Capped(r: Rle, cap: real) {
    (forall k :: 0 <= k < |r.closed| ==> r.closed[k].limit <= cap) && r.runLimit <= cap
  }

  lemma PushCapped(r: Rle, w: Section, cap: real)
    requires Capped(r, cap) && w.limit <= cap
    ensures Capped(Push(r, w), cap)
  {
  }

  /** With every way limited to cap >= 0, no row of maxspeed_array exceeds
      cap (the sentinel's 0 included). */
  lemma {:induction false} MaxspeedArrayCapped(ws: seq<Section>, cap: real)
    requires cap >= 0.0
    requires forall i :: 0 <= i < |ws| ==> ws[i].limit <= cap
    ensures forall k :: 0 <= k < |MaxspeedArray(ws)| ==> MaxspeedArray(ws)[k].limit <= cap
  {
    EncodeCapped(ws, cap);
  }

  lemma {:induction false} EncodeCapped(ws: seq<Section>, cap: real)
    requires cap >= 0.0
    requires forall i :: 0 <= i < |ws| ==> ws[i].limit <= cap
    ensures Capped(Encode(ws), cap)
    decreases |ws|
  {
    if |ws| > 0 {
      EncodeCapped(ws[..|ws| - 1], cap);
      PushCapped(Encode(ws[..|ws| - 1]), ws[|ws| - 1], cap);
    }
  }

  /** Consecutive rows limit differently, and no row limits 0. */
  predicate Maximal(r: Rle) {
    (forall k :: 0 <= k < |r.closed| ==> r.closed[k].limit != 0.0) &&
    (forall k :: 0 <= k < |r.closed| - 1 ==> r.closed[k].limit != r.closed[k + 1].limit) &&
    (|r.closed| > 0 ==> r.closed[|r.closed| - 1].limit != r.runLimit)
  }

  /** When no way has limit 0 the runs are maximal: a new row opens only
      where the limit changes, so neighbouring rows (the sentinel aside)
      always differ. */
  lemma {:induction false} EncodeMaximal(ws: seq<Section>)
    requires forall i :: 0 <= i < |ws| ==> ws[i].limit != 0.0
    ensures Maximal(Encode(ws))
    ensures |ws| > 0 ==> Encode(ws).runLimit != 0.0
    decreases |ws|
  {
    if |ws| > 0 {
      EncodeMaximal(ws[..|ws| - 1]);
    }
  }

  lemma MaxspeedArrayMaximal(ws: seq<Section>)
    requires forall i :: 0 <= i < |ws| ==> ws[i].limit != 0.0
    ensures var a := MaxspeedArray(ws);
            forall k :: 0 <= k < |a| - 2 ==> a[k].limit != a[k + 1].limit
  {
    EncodeMaximal(ws);
  }

  /** A way with limit 0 never closes the run before it, and the run
      after it absorbs its length: its metres are merged into the next
      limit. */
  lemma ZeroLimitMerges()
    ensures MaxspeedArray([Section(1.0, 0.0, true), Section(2.0, 80.0, true)])
         == [Section(3.0, 80.0, true), Section(0.0, 0.0, true)]
  {
    var ws := [Section(1.0, 0.0, true), Section(2.0, 80.0, true)];
    assert ws[..1] == [Section(1.0, 0.0, true)];
    assert ws[..1][..0] == [];
    assert Encode(ws[..1]) == Rle([], 1.0, 0.0, true);
    assert Encode(ws) == Rle([], 3.0, 80.0, true);
  }

  /** A guessed run closed by a tagged way is written with exact = true. */
  lemma ExactFlagFromClosingWay()
    ensures MaxspeedArray([Section(1.0, 80.0, false), Section(2.0, 60.0, true)])
         == [Section(1.0, 80.0, true), Section(2.0, 60.0, true), Section(0.0, 0.0, true)]
  {
    var ws := [Section(1.0, 80.0, false), Section(2.0, 60.0, true)];
    assert ws[..1] == [Section(1.0, 80.0, false)];
    assert ws[..1][..0] == [];
    assert Encode(ws[..1]) == Rle([], 1.0, 80.0, false);
    assert Encode(ws) == Rle([Section(1.0, 80.0, true)], 2.0, 60.0, true);
  }
}
