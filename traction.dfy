/** The vehicle of functions/train.php: the scaled constants the constructor
    stores and the speed-dependent mean acceleration between two speeds. */
module Traction {
  import opened Osm

  /** 3600 * 3.6: turns m/s^2 into km/h^2, so that v^2 / (2 a) comes out in km
      when v is in km/h. */
  const UnitScale: real := 12960.0

  /** Average mass of one passenger, in the unscaled mass unit (80 kg). */
  const PassengerMass: real := 0.080

  /** The brake floor the constructor applies, in m/s^2. */
  const ComfortBrake: real := 0.7

  /** The vehicle as the constructor leaves it. Acceleration, brake, mass,
      torque and power are stored multiplied by UnitScale. Type, name,
      seats, length and image are display data and are not modelled. */
  datatype Train = Train(ref: string, maxspeed: real, acceleration: real, brake: real,
                         massEmpty: real, torque: real, power: real)

  /** The physical values every later division relies on. */
  predicate Physical(t: Train) {
    t.massEmpty > 0.0 && t.torque > 0.0 && t.power > 0.0 && t.brake > 0.0
  }

  /** A train whose divisions are all defined. */
  type PhysicalTrain = t: Train | Physical(t) witness Train("", 0.0, 0.0, 1.0, 1.0, 1.0, 1.0)

  /** The constructor's field assignments, with the train table's entries
      for the selected train passed in. The brake is floored at 0.7 m/s^2
      (the source calls it a maximum, but max() makes it a minimum). */
  function NewTrain(ref: string, maxspeed: real, acc: real, brake: real,
                    mass: real, torque: real, power: real): (t: PhysicalTrain)
    requires mass > 0.0 && torque > 0.0 && power > 0.0
    ensures t.ref == ref && t.maxspeed == maxspeed
    ensures t.brake >= ComfortBrake * UnitScale && t.brake >= brake * UnitScale
    ensures t.brake == ComfortBrake * UnitScale || t.brake == brake * UnitScale
    ensures t.acceleration == acc * UnitScale
    ensures t.massEmpty == mass * UnitScale && t.torque == torque * UnitScale && t.power == power * UnitScale
    ensures t.torque / t.massEmpty == torque / mass
    ensures t.power / t.torque == power / torque
    ensures t.power / t.massEmpty == power / mass
  {
    Train(ref, maxspeed, acc * UnitScale, Max(brake, ComfortBrake) * UnitScale,
          mass * UnitScale, torque * UnitScale, power * UnitScale)
  }

  /** Mass with the given number of passengers aboard. */
  function LoadedMass(massIn: real, passenger: real): real {
    massIn + passenger * PassengerMass
  }

  /** The speed above which the drive is power-limited: power / torque. */
  function CriticalSpeed(torque: real, power: real): real
    requires torque > 0.0
  {
    power / torque
  }

  /** The mean of P / (v m) over [vb, va] written with the logarithm:
      (P / m) * ln(va / vb) / (va - vb). */
  function PowerLimitedMean(power: real, mass: real, va: real, vb: real, ln: real -> real): real
    requires mass != 0.0 && vb != 0.0 && va != vb
  {
    ((power / mass) * ln(va / vb)) / (va - vb)
  }

  /** Train::acceleration: the mean acceleration (km/h^2) between v1in and
      v2in (km/h); ln is PHP's log, kept abstract. None is the fall-through
      of the source, which returns nothing when the speeds differ and one
      of them is exactly the critical speed. */
  function Acceleration(massIn: real, torque: real, power: real, passenger: real,
                        v1in: real, v2in: real, ln: real -> real): (r: Option<real>)
    requires LoadedMass(massIn, passenger) > 0.0 && torque > 0.0 && power > 0.0
    ensures v1in == v2in ==> r == Some(0.0)
    ensures r.None? <==>
      v1in != v2in && (v1in / 3.6 == CriticalSpeed(torque, power) || v2in / 3.6 == CriticalSpeed(torque, power))
  {
    if v1in == v2in then Some(0.0)
    else
      var mass := LoadedMass(massIn, passenger);
      var aMax := torque / mass;
      var v1 := v1in / 3.6;
      var v2 := v2in / 3.6;
      var vk := CriticalSpeed(torque, power);
      if v1 < vk && v2 < vk then
        Some(aMax * UnitScale)
      else if v1 > vk && v2 > vk then
        Some(PowerLimitedMean(power, mass, v1, v2, ln) * UnitScale)
      else if v1 < vk && v2 > vk then
        Some(Blend(PowerLimitedMean(power, mass, v2, vk, ln), aMax, v2 - vk, vk - v1) * UnitScale)
      else if v1 > vk && v2 < vk then
        Some(Blend(PowerLimitedMean(power, mass, v1, vk, ln), aMax, v1 - vk, vk - v2) * UnitScale)
      else
        None
  }

  /** Below the critical speed the result is the torque limit a_max, the
      same for every pair of distinct speeds. */
  lemma TorqueLimitedIsConstant(massIn: real, torque: real, power: real, passenger: real,
                                v1: real, v2: real, w1: real, w2: real, ln: real -> real)
    requires LoadedMass(massIn, passenger) > 0.0 && torque > 0.0 && power > 0.0
    requires v1 != v2 && w1 != w2
    requires v1 / 3.6 < power / torque && v2 / 3.6 < power / torque
    requires w1 / 3.6 < power / torque && w2 / 3.6 < power / torque
    ensures Acceleration(massIn, torque, power, passenger, v1, v2, ln)
         == Acceleration(massIn, torque, power, passenger, w1, w2, ln)
         == Some(torque / LoadedMass(massIn, passenger) * UnitScale)
  {
  }

  predicate Between(x: real, a: real, b: real) {
    Min(a, b) <= x <= Max(a, b)
  }

  /** The speed-weighted mean of the two regimes when the interval
      straddles the critical speed: a over a stretch of width wa and b over
      one of width wb, divided by the whole width wa + wb (which is
      |v2 - v1|). With positive weights it lies between a and b. */
  function Blend(a: real, b: real, wa: real, wb: real): (m: real)
    requires wa > 0.0 && wb > 0.0
    ensures m * (wa + wb) == a * wa + b * wb
    ensures Between(m, a, b)
  {
    var m := (a * wa + b * wb) / (wa + wb);
    WeightedMeanBetween(m, a, b, wa, wb);
    m
  }

  /** Anything that balances a * wa + b * wb over positive weights lies
      between a and b. */
  lemma WeightedMeanBetween(m: real, a: real, b: real, wa: real, wb: real)
    requires wa > 0.0 && wb > 0.0
    requires m * (wa + wb) == a * wa + b * wb
    ensures Between(m, a, b)
  {
    assert (m - a) * (wa + wb) == (b - a) * wb;
    assert (b - m) * (wa + wb) == (b - a) * wa;
    if a <= b {
      assert (b - a) * wb >= 0.0;
      assert (b - a) * wa >= 0.0;
    } else {
      assert (a - b) * wb >= 0.0;
      assert (a - b) * wa >= 0.0;
    }
  }

  lemma ScaleBetween(x: real, a: real, b: real, k: real)
    requires Between(x, a, b) && k > 0.0
    ensures Between(x * k, a * k, b * k)
  {
    if a <= b {
      assert a * k <= x * k <= b * k;
    } else {
      assert b * k <= x * k <= a * k;
    }
  }

  /** Accelerating across the critical speed (v1 below, v2 above): the
      result is a weighted mean of the logarithmic term from v_krit to v2
      and a_max, weighted by (v2 - v_krit) and (v_krit - v1), so it lies
      between the two. */
  lemma StraddleUpIsBetween(massIn: real, torque: real, power: real, passenger: real,
                            v1in: real, v2in: real, ln: real -> real)
    requires LoadedMass(massIn, passenger) > 0.0 && torque > 0.0 && power > 0.0
    requires v1in / 3.6 < power / torque < v2in / 3.6
    ensures var mass := LoadedMass(massIn, passenger);
            var vk := power / torque;
            var r := Acceleration(massIn, torque, power, passenger, v1in, v2in, ln);
            r.Some? &&
            Between(r.value, PowerLimitedMean(power, mass, v2in / 3.6, vk, ln) * UnitScale,
                    torque / mass * UnitScale)
  {
    var mass := LoadedMass(massIn, passenger);
    var vk := power / torque;
    var v1, v2 := v1in / 3.6, v2in / 3.6;
    var am2 := PowerLimitedMean(power, mass, v2, vk, ln);
    var x := Blend(am2, torque / mass, v2 - vk, vk - v1);
    ScaleBetween(x, am2, torque / mass, UnitScale);
  }

  /** The same for the opposite direction (v1 above, v2 below). */
  lemma StraddleDownIsBetween(massIn: real, torque: real, power: real, passenger: real,
                              v1in: real, v2in: real, ln: real -> real)
    requires LoadedMass(massIn, passenger) > 0.0 && torque > 0.0 && power > 0.0
    requires v2in / 3.6 < power / torque < v1in / 3.6
    ensures var mass := LoadedMass(massIn, passenger);
            var vk := power / torque;
            var r := Acceleration(massIn, torque, power, passenger, v1in, v2in, ln);
            r.Some? &&
            Between(r.value, PowerLimitedMean(power, mass, v1in / 3.6, vk, ln) * UnitScale,
                    torque / mass * UnitScale)
  {
    var mass := LoadedMass(massIn, passenger);
    var vk := power / torque;
    var v1, v2 := v1in / 3.6, v2in / 3.6;
    var am2 := PowerLimitedMean(power, mass, v1, vk, ln);
    var x := Blend(am2, torque / mass, v1 - vk, vk - v2);
    ScaleBetween(x, am2, torque / mass, UnitScale);
  }

  /** Scaling mass, torque and power by the same factor leaves the critical
      speed and the torque limit of the empty train unchanged. */
  lemma UniformScaling(mass: real, torque: real, power: real)
    requires mass > 0.0 && torque > 0.0 && power > 0.0
    ensures CriticalSpeed(torque * UnitScale, power * UnitScale) == CriticalSpeed(torque, power)
    ensures (torque * UnitScale) / (mass * UnitScale) == torque / mass
  {
  }

  /** The acceleration the route computation uses: 200 passengers aboard,
      and 0 where Train::acceleration returns nothing (PHP reads null as 0). */
  const PlanningLoad: real := 200.0

  function PlanningAcceleration(t: PhysicalTrain, ln: real -> real, v1: real, v2: real): (a: real)
    ensures v1 == v2 ==> a == 0.0
  {
    match Acceleration(t.massEmpty, t.torque, t.power, PlanningLoad, v1, v2, ln)
    case Some(a) => a
    case None => 0.0
  }
}
