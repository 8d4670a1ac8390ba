/**
 * Normal loads on the four wheels: the static split fixed when the
 * simulation is created and the weight transfer applied every tick.
 */
module Loads {
  import opened Config

  /** Wheels in main.py's order: 0 right front, 1 left front, 2 left rear, 3 right rear. */
  const WheelCount: nat := 4

  /** Wheels 0 and 1 sit on the front axle, wheels 2 and 3 on the rear. */
  predicate IsFront(i: nat)
  {
    i <= 1
  }

  /** The sum of a sequence of reals. */
  function Sum(s: seq<real>): real
  {
    if |s| == 0 then 0.0 else s[0] + Sum(s[1..])
  }

  lemma SumOfFour(s: seq<real>)
    requires |s| == 4
    ensures Sum(s) == s[0] + s[1] + s[2] + s[3]
  {
    assert s[1..][1..] == s[2..];
    assert s[2..][1..] == s[3..];
    assert s[3..][1..] == [];
    assert Sum(s[3..]) == s[3];
    assert Sum(s[2..]) == s[2] + s[3];
  }

  /**
   * The loads at rest: the front axle carries m·b/l and the rear axle m·a/l,
   * each split evenly across its two wheels. They sum to the mass m.
   */
  function StaticLoads(v: Vehicle): (fz: seq<real>)
    requires Wheelbase(v) != 0.0
    ensures |fz| == WheelCount
    ensures fz[0] == fz[1] && fz[2] == fz[3]
    ensures (fz[0] + fz[1]) * Wheelbase(v) == v.m * v.b
    ensures (fz[2] + fz[3]) * Wheelbase(v) == v.m * v.a
    ensures Sum(fz) == v.m
  {
    var l := Wheelbase(v);
    var front := v.m * v.b / l / 2.0;
    var rear := v.m * v.a / l / 2.0;
    var fz := [front, front, rear, rear];
    SumOfFour(fz);
    assert (front + rear) * 2.0 * l == v.m * (v.a + v.b);
    fz
  }

  /** The load moved from the front axle to the rear axle by a longitudinal acceleration. */
  function WeightTransfer(v: Vehicle, xDDot: real): (wtfr: real)
    requires Wheelbase(v) != 0.0
    ensures wtfr * Wheelbase(v) * Gravity == v.h * v.m * xDDot
    ensures v.h * v.m / Wheelbase(v) > 0.0 ==> (wtfr > 0.0 <==> xDDot > 0.0)
  {
    v.h / Wheelbase(v) * v.m * xDDot / Gravity
  }

  /**
   * The loads after a weight transfer, always taken from the static loads:
   * each front wheel loses half the transfer and each rear wheel gains half.
   */
  function TransferLoads(atRest: seq<real>, wtfr: real): (fz: seq<real>)
    requires |atRest| == WheelCount
    ensures |fz| == WheelCount
    ensures forall i: nat :: i < WheelCount && IsFront(i) ==> fz[i] + wtfr / 2.0 == atRest[i]
    ensures forall i: nat :: i < WheelCount && !IsFront(i) ==> fz[i] - wtfr / 2.0 == atRest[i]
    ensures fz[0] + fz[1] == atRest[0] + atRest[1] - wtfr
    ensures fz[2] + fz[3] == atRest[2] + atRest[3] + wtfr
    ensures fz[0] - fz[1] == atRest[0] - atRest[1] && fz[2] - fz[3] == atRest[2] - atRest[3]
    ensures Sum(fz) == Sum(atRest)
  {
    var fz := seq(WheelCount, i requires 0 <= i < WheelCount =>
                    if IsFront(i) then atRest[i] - wtfr / 2.0 else atRest[i] + wtfr / 2.0);
    SumOfFour(fz);
    SumOfFour(atRest);
    fz
  }

  /**
   * Weight transfer conserves the total load for any acceleration, and the
   * two wheels of each axle keep equal loads.
   */
  lemma TransferConservesLoad(v: Vehicle, xDDot: real)
    requires Wheelbase(v) != 0.0
    ensures var fz := TransferLoads(StaticLoads(v), WeightTransfer(v, xDDot));
      Sum(fz) == v.m && fz[0] == fz[1] && fz[2] == fz[3]
  {
  }
}
