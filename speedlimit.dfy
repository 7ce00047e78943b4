/** The speed limit of one way: the tagged limit chosen according to the
    direction of travel (functions/getData.php:676-730), or the heuristic of
    getMaxspeed (functions/getData.php:2331-2444) when nothing is tagged. */
module SpeedLimit {
  import opened Osm

  /** getMaxspeed's triple (typical, min, max). */
  datatype Heuristic = Heuristic(typical: real, minimum: real, maximum: real)

  predicate Ordered(h: Heuristic) {
    h.minimum <= h.typical <= h.maximum
  }

  predicate IsTramOrSubway(tags: Tags) {
    HasTag(tags, "railway", "tram") || HasTag(tags, "railway", "subway")
  }

  /** PZB, LZB or IMU train protection. */
  predicate HasTrainProtection(tags: Tags) {
    HasTag(tags, "railway:pzb", "yes") || HasTag(tags, "railway:lzb", "yes") || HasTag(tags, "railway:imu", "yes")
  }

  /** LZB, any ETCS level other than "no", or SELCAB. */
  predicate HasHighSpeedProtection(tags: Tags) {
    HasTag(tags, "railway:lzb", "yes") ||
    ("railway:etcs" in tags && tags["railway:etcs"] != "no") ||
    HasTag(tags, "railway:selcab", "yes")
  }

  /** The upper estimate of main lines and of the fallback: 200 where the
      line is tagged as not high-speed, 250 otherwise. */
  function LineMaximum(tags: Tags): real {
    if HasTag(tags, "highspeed", "no") then 200.0 else 250.0
  }

  /** getMaxspeed: the estimate for a way without a usable maxspeed tag,
      tested in the order tram/subway, light rail, high-speed line, main
      or branch usage, service track, anything else. */
  function GetMaxspeed(tags: Tags): (h: Heuristic)
    ensures Ordered(h)
    ensures 15.0 <= h.minimum && h.maximum <= 320.0
    ensures 30.0 <= h.typical <= 250.0
  {
    if IsTramOrSubway(tags) then
      if "service" in tags then Heuristic(30.0, 15.0, 40.0)
      else if HasTrainProtection(tags) then Heuristic(80.0, 15.0, 90.0)
      else Heuristic(50.0, 15.0, 70.0)
    else if HasTag(tags, "railway", "light_rail") then
      if "service" in tags then Heuristic(30.0, 25.0, 60.0)
      else Heuristic(80.0, 30.0, 120.0)
    else if HasTag(tags, "highspeed", "yes") then
      Heuristic(250.0, 200.0, 320.0)
    else if HasTag(tags, "usage", "main") then
      Heuristic(if HasHighSpeedProtection(tags) then 200.0 else 140.0, 40.0, LineMaximum(tags))
    else if HasTag(tags, "usage", "branch") then
      Heuristic(50.0, 20.0, 100.0)
    else if "service" in tags then
      Heuristic(60.0, 20.0, 120.0)
    else
      Heuristic(100.0, 20.0, LineMaximum(tags))
  }

  /** Tram and subway tracks are estimated before the high-speed test, so
      a highspeed tag never changes their estimate. */
  lemma TramIgnoresHighspeed(tags: Tags, v: string)
    requires IsTramOrSubway(tags)
    ensures GetMaxspeed(tags["highspeed" := v]) == GetMaxspeed(tags)
  {
    var t := tags["highspeed" := v];
    assert "service" in t <==> "service" in tags;
    assert HasTrainProtection(t) == HasTrainProtection(tags);
  }

  /** A non-tram, non-light-rail way tagged highspeed=yes gets (250, 200, 320)
      whatever its usage or service tags say. */
  lemma HighspeedBeatsUsage(tags: Tags, u: string)
    requires !IsTramOrSubway(tags) && !HasTag(tags, "railway", "light_rail")
    requires HasTag(tags, "highspeed", "yes")
    ensures GetMaxspeed(tags["usage" := u]) == GetMaxspeed(tags) == Heuristic(250.0, 200.0, 320.0)
  {
  }

  /** An untagged way that matches no class gets (100, 20, 250). */
  lemma FallbackEstimate()
    ensures GetMaxspeed(map["railway" := "rail"]) == Heuristic(100.0, 20.0, 250.0)
  {
  }

  /** The value of the maxspeed tag after the normalisation of
      loadRelationWays: a value ending in "mph" is stripped of the suffix,
      trimmed and converted with mph when numeric, and dropped otherwise;
      any other value is kept only when it is numeric. num is PHP's
      conversion of a numeric string, mph the round(x * 1.609)
      conversion; both are left abstract. */
  function GeneralMaxspeed(tags: Tags, num: string -> real, mph: string -> real): (r: Option<real>)
    ensures r.Some? ==> "maxspeed" in tags
    ensures "maxspeed" in tags && !EndsWithMph(tags["maxspeed"]) ==>
              (r.Some? <==> IsNumeric(tags["maxspeed"])) && (r.Some? ==> r.value == num(tags["maxspeed"]))
    ensures "maxspeed" in tags && EndsWithMph(tags["maxspeed"]) ==>
              var t := Trim(tags["maxspeed"][..|tags["maxspeed"]| - 3]);
              (r.Some? <==> IsNumeric(t)) && (r.Some? ==> r.value == mph(t))
  {
    if "maxspeed" in tags then NormalizeMaxspeed(tags["maxspeed"], num, mph) else None
  }

  /** The normalisation of one maxspeed value. */
  function NormalizeMaxspeed(v: string, num: string -> real, mph: string -> real): (r: Option<real>)
    ensures EndsWithMph(v) ==>
              |v| >= 3 && (r.Some? <==> IsNumeric(Trim(v[..|v| - 3]))) &&
              (r.Some? ==> r.value == mph(Trim(v[..|v| - 3])))
    ensures !EndsWithMph(v) ==> (r.Some? <==> IsNumeric(v)) && (r.Some? ==> r.value == num(v))
  {
    if EndsWithMph(v) then
      var t := Trim(v[..|v| - 3]);
      if IsNumeric(t) then Some(mph(t)) else None
    else if IsNumeric(v) then Some(num(v))
    else None
  }

  lemma MphExample(num: string -> real, mph: string -> real)
    ensures GeneralMaxspeed(map["maxspeed" := "50 mph"], num, mph) == Some(mph("50"))
  {
    var v := "50 mph";
    assert Tail(v, 3) == "mph";
    assert v[..|v| - 3] == "50 ";
    assert TrimLeft("50 ") == "50 ";
    assert TrimRight("50") == "50";
    assert TrimRight("50 ") == "50";
    assert DropSpace("50") == "50" && DropSign("50") == "50";
    assert DigitRun("0") == 1;
    assert DigitRun("50") == 2;
    assert "50"[2..] == [];
  }

  lemma NonNumericDropped(num: string -> real, mph: string -> real)
    ensures GeneralMaxspeed(map["maxspeed" := "none"], num, mph) == None
  {
    assert Tail("none", 3) == "one";
    NumericRejectsWord();
  }

  /** is_numeric accepts a sign, so a negative maxspeed tag is taken as the
      limit of the way. */
  lemma NegativeLimitAccepted(num: string -> real, mph: string -> real)
    requires num("-20") == -20.0
    ensures WayLimit(map["maxspeed" := "-20"], Forward, 100.0, num, mph) == Limit(-20.0, true)
  {
    assert Tail("-20", 3) == "-20";
    NumericAcceptsNegative();
  }

  /** The limit a way contributes, and whether it was tagged. */
  datatype Limit = Limit(speed: real, exact: bool)

  /** maxspeed:forward applies when the way is travelled forward. */
  predicate ForwardTagged(tags: Tags, dir: Direction) {
    "maxspeed:forward" in tags && dir == Forward
  }

  /** maxspeed:backward applies when the way is travelled backward. */
  predicate BackwardTagged(tags: Tags, dir: Direction) {
    "maxspeed:backward" in tags && dir == Backward
  }

  /** The limit of lines 700-730: the directional tag that matches the
      direction, else the normalised maxspeed tag, else the typical value
      of the heuristic; the result is capped at the train's maxspeed. The
      directional tags are not checked for being numeric and go through
      num. */
  function WayLimit(tags: Tags, dir: Direction, trainMax: real,
                    num: string -> real, mph: string -> real): (l: Limit)
    ensures l.speed <= trainMax
    ensures l.exact <==> GeneralMaxspeed(tags, num, mph).Some? || ForwardTagged(tags, dir) || BackwardTagged(tags, dir)
    ensures ForwardTagged(tags, dir) ==> l.speed == Min(num(tags["maxspeed:forward"]), trainMax)
    ensures BackwardTagged(tags, dir) ==> l.speed == Min(num(tags["maxspeed:backward"]), trainMax)
    ensures !ForwardTagged(tags, dir) && !BackwardTagged(tags, dir) && GeneralMaxspeed(tags, num, mph).Some? ==>
              l.speed == Min(GeneralMaxspeed(tags, num, mph).value, trainMax)
    ensures !l.exact ==> l.speed == Min(GetMaxspeed(tags).typical, trainMax)
  {
    var general := GeneralMaxspeed(tags, num, mph);
    if general.Some? || ForwardTagged(tags, dir) || BackwardTagged(tags, dir) then
      var v := if ForwardTagged(tags, dir) then num(tags["maxspeed:forward"])
               else if BackwardTagged(tags, dir) then num(tags["maxspeed:backward"])
               else general.value;
      Limit(Min(v, trainMax), true)
    else
      Limit(Min(GetMaxspeed(tags).typical, trainMax), false)
  }

  /** t and tags agree on key k. */
  predicate SameAt(t: Tags, tags: Tags, k: string) {
    (k in t <==> k in tags) && (k in tags ==> t[k] == tags[k])
  }

  /** Two tag maps that agree on every key the estimate and the tag
      normalisation read give the same limit. */
  lemma WayLimitFrame(t: Tags, tags: Tags, dir: Direction, trainMax: real,
                      num: string -> real, mph: string -> real)
    requires SameAt(t, tags, "railway") && SameAt(t, tags, "service") && SameAt(t, tags, "highspeed")
    requires SameAt(t, tags, "usage") && SameAt(t, tags, "maxspeed")
    requires SameAt(t, tags, "railway:pzb") && SameAt(t, tags, "railway:lzb") && SameAt(t, tags, "railway:imu")
    requires SameAt(t, tags, "railway:etcs") && SameAt(t, tags, "railway:selcab")
    requires SameAt(t, tags, "maxspeed:forward") || dir != Forward
    requires SameAt(t, tags, "maxspeed:backward") || dir != Backward
    ensures WayLimit(t, dir, trainMax, num, mph) == WayLimit(tags, dir, trainMax, num, mph)
  {
    GetMaxspeedFrame(t, tags);
    GeneralMaxspeedFrame(t, tags, num, mph);
    assert ForwardTagged(t, dir) == ForwardTagged(tags, dir);
    assert BackwardTagged(t, dir) == BackwardTagged(tags, dir);
  }

  lemma GeneralMaxspeedFrame(t: Tags, tags: Tags, num: string -> real, mph: string -> real)
    requires SameAt(t, tags, "maxspeed")
    ensures GeneralMaxspeed(t, num, mph) == GeneralMaxspeed(tags, num, mph)
  {
    if "maxspeed" in tags {
      assert t["maxspeed"] == tags["maxspeed"];
    }
  }

  lemma GetMaxspeedFrame(t: Tags, tags: Tags)
    requires SameAt(t, tags, "railway") && SameAt(t, tags, "service") && SameAt(t, tags, "highspeed")
    requires SameAt(t, tags, "usage")
    requires SameAt(t, tags, "railway:pzb") && SameAt(t, tags, "railway:lzb") && SameAt(t, tags, "railway:imu")
    requires SameAt(t, tags, "railway:etcs") && SameAt(t, tags, "railway:selcab")
    ensures GetMaxspeed(t) == GetMaxspeed(tags)
  {
    assert IsTramOrSubway(t) == IsTramOrSubway(tags);
    assert HasTrainProtection(t) == HasTrainProtection(tags);
    assert HasHighSpeedProtection(t) == HasHighSpeedProtection(tags);
    assert LineMaximum(t) == LineMaximum(tags);
  }

  /** On a way of unknown direction the directional tags play no part. */
  lemma UnknownIgnoresDirectionalTags(tags: Tags, f: string, b: string, trainMax: real,
                                      num: string -> real, mph: string -> real)
    ensures WayLimit(tags["maxspeed:forward" := f]["maxspeed:backward" := b], Unknown, trainMax, num, mph)
         == WayLimit(tags, Unknown, trainMax, num, mph)
  {
    var t := tags["maxspeed:forward" := f]["maxspeed:backward" := b];
    WayLimitFrame(t, tags, Unknown, trainMax, num, mph);
  }

  /** A forward tag does not apply to a way travelled backward. */
  lemma ForwardTagIgnoredBackward(tags: Tags, f: string, trainMax: real,
                                  num: string -> real, mph: string -> real)
    ensures WayLimit(tags["maxspeed:forward" := f], Backward, trainMax, num, mph)
         == WayLimit(tags, Backward, trainMax, num, mph)
  {
    var t := tags["maxspeed:forward" := f];
    WayLimitFrame(t, tags, Backward, trainMax, num, mph);
  }

  /** The railway values loadRelationWays keeps; every other way of the
      relation is skipped after its direction has been worked out. */
  predicate IsTrack(tags: Tags) {
    "railway" in tags && tags["railway"] in {"rail", "light_rail", "tram", "narrow_gauge", "subway"}
  }
}
