/**
 * Journey records (one row per vessel trip) and the per-journey GHG
 * intensity `calculate_ghg_intensity`. Only the columns the compliance core
 * reads are kept: `ship_id`, `ship_type`, `distance` and `CO2_emissions`.
 */
module Journeys {

  datatype Journey = Journey(shipId: string, shipType: string, distance: real, co2Emissions: real)

  /** Grams per kilogram: CO2 is logged in kg, intensity is in grams per mile. */
  const GramsPerKg: real := 1000.0

  /**
   * `calculate_ghg_intensity(co2, distance, cargo_capacity=1.0)`: grams of CO2
   * per distance-capacity unit, and exactly 0 for a zero distance.
   * A zero capacity with a non-zero distance divides by zero; the engine
   * never passes one.
   */
  function GhgIntensity(co2: real, distance: real, capacity: real := 1.0): (r: real)
    requires distance == 0.0 || capacity != 0.0
    ensures distance == 0.0 ==> r == 0.0
    ensures distance != 0.0 ==> r * (distance * capacity) == co2 * GramsPerKg
  {
    if distance == 0.0 then 0.0 else (co2 * GramsPerKg) / (distance * capacity)
  }

  lemma IntensityNonNegative(co2: real, distance: real, capacity: real)
    requires co2 >= 0.0 && distance >= 0.0 && capacity > 0.0
    ensures GhgIntensity(co2, distance, capacity) >= 0.0
  {
    if distance != 0.0 {
      assert distance * capacity > 0.0;
    }
  }

  /** The intensity the fleet calculation gives one journey (default capacity). */
  function JourneyIntensity(j: Journey): real
  {
    GhgIntensity(j.co2Emissions, j.distance)
  }

  function Co2Of(j: Journey): real { j.co2Emissions }

  function DistanceOf(j: Journey): real { j.distance }

  /** Sum of `f` over the journeys, in table order. */
  function Sum(js: seq<Journey>, f: Journey -> real): real
  {
    if |js| == 0 then 0.0 else Sum(js[..|js| - 1], f) + f(js[|js| - 1])
  }

  lemma {:induction false} SumNonNegative(js: seq<Journey>, f: Journey -> real)
    requires forall i :: 0 <= i < |js| ==> f(js[i]) >= 0.0
    ensures Sum(js, f) >= 0.0
  {
    if |js| > 0 {
      SumNonNegative(js[..|js| - 1], f);
    }
  }

  /** The same value `c` for every journey. */
  function Const(c: real): Journey -> real
  {
    (j: Journey) => c
  }

  lemma {:induction false} SumConst(js: seq<Journey>, c: real)
    ensures Sum(js, Const(c)) == (|js| as real) * c
  {
    if |js| > 0 {
      SumConst(js[..|js| - 1], c);
      assert (|js| as real) * c == (|js| as real - 1.0) * c + c;
    }
  }

  /** `fleet_data['ship_id'].values` as a set. */
  ghost function ShipIdSet(js: seq<Journey>): set<string>
  {
    set i | 0 <= i < |js| :: js[i].shipId
  }

  /** The journeys of one vessel, in table order (one `groupby` group). */
  function OfShip(js: seq<Journey>, id: string): (r: seq<Journey>)
    ensures |r| <= |js|
    ensures forall i :: 0 <= i < |r| ==> r[i].shipId == id
    ensures forall k :: 0 <= k < |js| && js[k].shipId == id ==> js[k] in r
  {
    if |js| == 0 then []
    else
      assert forall k :: 0 <= k < |js| - 1 ==> js[..|js| - 1][k] == js[k];
      OfShip(js[..|js| - 1], id) + (if js[|js| - 1].shipId == id then [js[|js| - 1]] else [])
  }

  lemma {:induction false} OfShipNonEmpty(js: seq<Journey>, id: string)
    requires id in ShipIdSet(js)
    ensures |OfShip(js, id)| > 0
  {
    var k :| 0 <= k < |js| && js[k].shipId == id;
    if k < |js| - 1 {
      assert js[..|js| - 1][k] == js[k];
      OfShipNonEmpty(js[..|js| - 1], id);
    }
  }

  /** Index of the first journey of vessel `id`: what `'first'` aggregates from. */
  function FirstIndex(js: seq<Journey>, id: string): (k: nat)
    requires id in ShipIdSet(js)
    ensures k < |js| && js[k].shipId == id
    ensures forall m :: 0 <= m < k ==> js[m].shipId != id
  {
    if js[0].shipId == id then 0
    else
      var w :| 0 <= w < |js| && js[w].shipId == id;
      assert js[1..][w - 1] == js[w];
      1 + FirstIndex(js[1..], id)
  }
}
