/**
 * `calculate_fleet_compliance`: per-journey intensities, one summary row per
 * vessel (pandas `groupby('ship_id')`, keys ascending), the fleet mean over
 * all journeys, the reduced target, and each vessel's status, balance, excess
 * tons and monetary impact.
 */
module Fleet {
  import opened Wrappers
  import opened ShipIds
  import opened Journeys

  /** Grams per metric ton (the `/ 1000000` of the excess tons). */
  const GramsPerTon: real := 1000000.0
  /** Currency units charged per excess ton. */
  const PenaltyPerTon: real := 100.0
  /** The default `target_reduction` (5 % below the fleet mean). */
  const DefaultTargetReduction: real := 0.05

  datatype Status = Surplus | Deficit

  /** One row of the compliance table, with its columns in the engine's order. */
  datatype VesselSummary = VesselSummary(
    shipId: string,
    ghgIntensity: real,
    co2Emissions: real,
    distance: real,
    shipType: string,
    targetIntensity: real,
    intensityDifference: real,
    complianceStatus: Status,
    complianceBalance: real,
    totalDistance: real,
    excessCo2Tons: real,
    financialImpact: real)

  /**
   * The triple the engine returns. The two means are `None` for an empty
   * journey table, where pandas yields NaN.
   */
  datatype FleetCompliance = FleetCompliance(
    vessels: seq<VesselSummary>,
    fleetAvgIntensity: Option<real>,
    targetIntensity: Option<real>)

  /** What the column assignments make true of every row. */
  ghost predicate Consistent(v: VesselSummary)
  {
    && v.intensityDifference == v.ghgIntensity - v.targetIntensity
    && v.complianceBalance == v.intensityDifference
    && (v.complianceStatus == Deficit <==> v.intensityDifference >= 0.0)
    && v.totalDistance == v.distance
    && v.excessCo2Tons == v.intensityDifference * v.totalDistance / GramsPerTon
    && v.financialImpact == v.excessCo2Tons * PenaltyPerTon
  }

  /** Status of a signed intensity difference: only a negative one is a surplus. */
  function Classify(difference: real): (st: Status)
    ensures st == Deficit <==> difference >= 0.0
  {
    if difference < 0.0 then Surplus else Deficit
  }

  /** The distinct ship ids of the table in ascending order: the group keys. */
  function SortedShipIds(js: seq<Journey>): (ids: seq<string>)
    ensures StrictlySorted(ids)
    ensures forall id :: id in ids <==> id in ShipIdSet(js)
  {
    if |js| == 0 then []
    else
      var init := js[..|js| - 1];
      assert ShipIdSet(js) == ShipIdSet(init) + {js[|js| - 1].shipId} by {
        forall id | id in ShipIdSet(js) ensures id in ShipIdSet(init) + {js[|js| - 1].shipId} {
          var k :| 0 <= k < |js| && js[k].shipId == id;
          if k < |js| - 1 { assert init[k] == js[k]; }
        }
        forall id | id in ShipIdSet(init) ensures id in ShipIdSet(js) {
          var k :| 0 <= k < |init| && init[k].shipId == id;
          assert js[k] == init[k];
        }
      }
      Insert(SortedShipIds(init), js[|js| - 1].shipId)
  }

  /** The `'mean'` aggregation of the journey intensities of one group. */
  function MeanIntensity(group: seq<Journey>): (m: real)
    requires |group| > 0
    ensures (|group| as real) * m == Sum(group, JourneyIntensity)
  {
    Sum(group, JourneyIntensity) / (|group| as real)
  }

  /** One aggregated row: mean intensity, sums of CO2 and distance, first ship type, then the money. */
  function Summarize(js: seq<Journey>, id: string, target: real): (v: VesselSummary)
    requires id in ShipIdSet(js)
    ensures v.shipId == id && v.targetIntensity == target && Consistent(v)
    ensures |OfShip(js, id)| > 0 && v.ghgIntensity == MeanIntensity(OfShip(js, id))
    ensures v.co2Emissions == Sum(OfShip(js, id), Co2Of)
    ensures v.distance == Sum(OfShip(js, id), DistanceOf)
    ensures v.shipType == js[FirstIndex(js, id)].shipType
    ensures v.complianceStatus == Deficit <==> v.ghgIntensity >= target
    ensures v.financialImpact == (v.ghgIntensity - target) * v.totalDistance / 10000.0
  {
    var group := OfShip(js, id);
    OfShipNonEmpty(js, id);
    var intensity := MeanIntensity(group);
    var difference := intensity - target;
    var distance := Sum(group, DistanceOf);
    var excess := difference * distance / GramsPerTon;
    VesselSummary(id, intensity, Sum(group, Co2Of), distance, js[FirstIndex(js, id)].shipType,
                  target, difference, Classify(difference), difference, distance,
                  excess, excess * PenaltyPerTon)
  }

  /** The rows for the keys `ids`, in that order. */
  function Summaries(js: seq<Journey>, ids: seq<string>, target: real): (vs: seq<VesselSummary>)
    requires forall k :: 0 <= k < |ids| ==> ids[k] in ShipIdSet(js)
    ensures |vs| == |ids|
    ensures forall k :: 0 <= k < |ids| ==> vs[k] == Summarize(js, ids[k], target)
  {
    if |ids| == 0 then []
    else Summaries(js, ids[..|ids| - 1], target) + [Summarize(js, ids[|ids| - 1], target)]
  }

  /** The regulatory target: the fleet mean lowered by the reduction fraction. */
  function ReducedTarget(fleetAvg: real, reduction: real): real
  {
    fleetAvg * (1.0 - reduction)
  }

  /** `calculate_fleet_compliance(fleet_data, target_reduction)`. */
  function CalculateFleetCompliance(js: seq<Journey>, reduction: real := DefaultTargetReduction): (f: FleetCompliance)
    ensures |js| == 0 ==> f == FleetCompliance([], None, None)
    ensures |js| > 0 ==> f.fleetAvgIntensity.Some? && f.targetIntensity.Some?
    ensures |js| > 0 ==> f.fleetAvgIntensity == Some(Sum(js, JourneyIntensity) / (|js| as real))
    ensures f.fleetAvgIntensity.Some? ==>
              f.targetIntensity.Some? && f.targetIntensity.value == ReducedTarget(f.fleetAvgIntensity.value, reduction)
    ensures |js| > 0 ==> forall i :: 0 <= i < |f.vessels| ==>
              && f.vessels[i].shipId in ShipIdSet(js)
              && f.vessels[i] == Summarize(js, f.vessels[i].shipId, f.targetIntensity.value)
  {
    if |js| == 0 then FleetCompliance([], None, None)
    else
      var avg := Sum(js, JourneyIntensity) / (|js| as real);
      var target := ReducedTarget(avg, reduction);
      var ids := SortedShipIds(js);
      FleetCompliance(Summaries(js, ids, target), Some(avg), Some(target))
  }

  /** The rows carry the group keys, one each and in key order. */
  lemma FleetIds(js: seq<Journey>, reduction: real)
    requires |js| > 0
    ensures |CalculateFleetCompliance(js, reduction).vessels| == |SortedShipIds(js)|
    ensures forall i :: 0 <= i < |SortedShipIds(js)| ==>
              CalculateFleetCompliance(js, reduction).vessels[i].shipId == SortedShipIds(js)[i]
  {
  }

  /** The rows come in ascending ship id order (the `groupby` key order). */
  lemma FleetVesselOrder(js: seq<Journey>, reduction: real)
    ensures forall i, j :: 0 <= i < j < |CalculateFleetCompliance(js, reduction).vessels| ==>
              Less(CalculateFleetCompliance(js, reduction).vessels[i].shipId,
                   CalculateFleetCompliance(js, reduction).vessels[j].shipId)
  {
    if |js| > 0 {
      FleetIds(js, reduction);
    }
  }

  /** There is a row for a ship id exactly when the table has a journey of that ship. */
  lemma FleetCoversShips(js: seq<Journey>, reduction: real)
    ensures forall id :: id in ShipIdSet(js) <==>
              exists i :: 0 <= i < |CalculateFleetCompliance(js, reduction).vessels|
                          && CalculateFleetCompliance(js, reduction).vessels[i].shipId == id
  {
    var vs := CalculateFleetCompliance(js, reduction).vessels;
    if |js| > 0 {
      var ids := SortedShipIds(js);
      FleetIds(js, reduction);
      forall id | id in ShipIdSet(js) ensures exists i :: 0 <= i < |vs| && vs[i].shipId == id {
        var i :| 0 <= i < |ids| && ids[i] == id;
        assert vs[i].shipId == id;
      }
    }
  }

  // ----- sums over the vessel rows -----

  function SumVessels(vs: seq<VesselSummary>, g: VesselSummary -> real): real
  {
    if |vs| == 0 then 0.0 else SumVessels(vs[..|vs| - 1], g) + g(vs[|vs| - 1])
  }

  function VesselCo2(v: VesselSummary): real { v.co2Emissions }

  function VesselDistance(v: VesselSummary): real { v.totalDistance }

  function VesselImpact(v: VesselSummary): real { v.financialImpact }

  /** Sum of `f` over the groups of the keys `ids`. */
  function ShipSums(js: seq<Journey>, ids: seq<string>, f: Journey -> real): real
  {
    if |ids| == 0 then 0.0 else ShipSums(js, ids[..|ids| - 1], f) + Sum(OfShip(js, ids[|ids| - 1]), f)
  }

  lemma {:induction false} SumSnoc(js: seq<Journey>, j: Journey, f: Journey -> real)
    ensures Sum(js + [j], f) == Sum(js, f) + f(j)
  {
    assert (js + [j])[..|js|] == js;
  }

  lemma {:induction false} ShipSumsEmpty(ids: seq<string>, f: Journey -> real)
    ensures ShipSums([], ids, f) == 0.0
  {
    if |ids| > 0 {
      ShipSumsEmpty(ids[..|ids| - 1], f);
    }
  }

  lemma {:induction false} ShipSumsSnoc(js: seq<Journey>, j: Journey, ids: seq<string>, f: Journey -> real)
    requires StrictlySorted(ids)
    ensures ShipSums(js + [j], ids, f) == ShipSums(js, ids, f) + (if j.shipId in ids then f(j) else 0.0)
  {
    if |ids| > 0 {
      var init, last := ids[..|ids| - 1], ids[|ids| - 1];
      ShipSumsSnoc(js, j, init, f);
      assert (js + [j])[..|js|] == js;
      assert OfShip(js + [j], last) == OfShip(js, last) + (if j.shipId == last then [j] else []);
      if j.shipId == last {
        SumSnoc(OfShip(js, last), j, f);
        assert j.shipId !in init by {
          forall k | 0 <= k < |init| ensures init[k] != last {
            assert Less(ids[k], ids[|ids| - 1]);
            LessIrreflexive(last);
          }
        }
      } else {
        assert OfShip(js + [j], last) == OfShip(js, last);
        assert j.shipId in ids <==> j.shipId in init;
      }
    }
  }

  /** Every journey lies in exactly one group: the group sums add up to the table sum. */
  lemma {:induction false} ShipSumsPartition(js: seq<Journey>, ids: seq<string>, f: Journey -> real)
    requires StrictlySorted(ids)
    requires forall i :: 0 <= i < |js| ==> js[i].shipId in ids
    ensures ShipSums(js, ids, f) == Sum(js, f)
  {
    if |js| == 0 {
      ShipSumsEmpty(ids, f);
    } else {
      var init, j := js[..|js| - 1], js[|js| - 1];
      assert js == init + [j];
      ShipSumsPartition(init, ids, f);
      ShipSumsSnoc(init, j, ids, f);
    }
  }

  /** Summing a row column over the rows of `ids` is summing the matching journey column by group. */
  lemma {:induction false} SummariesSum(js: seq<Journey>, ids: seq<string>, target: real,
                                        g: VesselSummary -> real, f: Journey -> real)
    requires forall k :: 0 <= k < |ids| ==> ids[k] in ShipIdSet(js)
    requires forall k :: 0 <= k < |ids| ==> g(Summarize(js, ids[k], target)) == Sum(OfShip(js, ids[k]), f)
    ensures SumVessels(Summaries(js, ids, target), g) == ShipSums(js, ids, f)
  {
    if |ids| > 0 {
      var init := ids[..|ids| - 1];
      SummariesSum(js, init, target, g, f);
      var vs := Summaries(js, ids, target);
      assert vs[..|vs| - 1] == Summaries(js, init, target);
    }
  }

  /** Per-vessel CO2 and distance totals add up to the fleet's journey totals. */
  lemma FleetTotals(js: seq<Journey>, reduction: real)
    ensures SumVessels(CalculateFleetCompliance(js, reduction).vessels, VesselCo2) == Sum(js, Co2Of)
    ensures SumVessels(CalculateFleetCompliance(js, reduction).vessels, VesselDistance) == Sum(js, DistanceOf)
  {
    if |js| > 0 {
      var ids := SortedShipIds(js);
      var target := CalculateFleetCompliance(js, reduction).targetIntensity.value;
      SummariesSum(js, ids, target, VesselCo2, Co2Of);
      SummariesSum(js, ids, target, VesselDistance, DistanceOf);
      ShipSumsPartition(js, ids, Co2Of);
      ShipSumsPartition(js, ids, DistanceOf);
    }
  }

  lemma {:induction false} ShipSumsBelow(js: seq<Journey>, ids: seq<string>, f: Journey -> real, g: Journey -> real)
    requires |ids| > 0
    requires forall k :: 0 <= k < |ids| ==> Sum(OfShip(js, ids[k]), f) < Sum(OfShip(js, ids[k]), g)
    ensures ShipSums(js, ids, f) < ShipSums(js, ids, g)
  {
    if |ids| > 1 {
      ShipSumsBelow(js, ids[..|ids| - 1], f, g);
    }
  }

  /**
   * With non-negative emissions and distances and a non-negative reduction,
   * some vessel is always in deficit: the target never exceeds the fleet
   * mean, and not every vessel mean can lie below the journey-weighted mean.
   */
  lemma SomeVesselIsDeficit(js: seq<Journey>, reduction: real)
    requires |js| > 0 && reduction >= 0.0
    requires forall i :: 0 <= i < |js| ==> js[i].co2Emissions >= 0.0 && js[i].distance >= 0.0
    ensures exists i :: 0 <= i < |CalculateFleetCompliance(js, reduction).vessels|
                        && CalculateFleetCompliance(js, reduction).vessels[i].complianceStatus == Deficit
  {
    var f := CalculateFleetCompliance(js, reduction);
    var ids := SortedShipIds(js);
    var target := f.targetIntensity.value;
    assert target <= Sum(js, JourneyIntensity) / (|js| as real) by {
      forall i | 0 <= i < |js| ensures JourneyIntensity(js[i]) >= 0.0 {
        IntensityNonNegative(js[i].co2Emissions, js[i].distance, 1.0);
      }
      SumNonNegative(js, JourneyIntensity);
      MeanNonNegative(Sum(js, JourneyIntensity), |js| as real);
      TargetAtMostMean(f.fleetAvgIntensity.value, reduction);
    }
    var k := SomeSummaryIsDeficit(js, target);
    FleetIds(js, reduction);
    assert f.vessels[k].shipId == ids[k];
  }

  /** Against a target at most the journey mean, some group's row is in deficit. */
  lemma SomeSummaryIsDeficit(js: seq<Journey>, target: real) returns (k: nat)
    requires |js| > 0 && target <= Sum(js, JourneyIntensity) / (|js| as real)
    ensures k < |SortedShipIds(js)| && Summarize(js, SortedShipIds(js)[k], target).complianceStatus == Deficit
  {
    var ids := SortedShipIds(js);
    assert js[0].shipId in ids;
    if forall k :: 0 <= k < |ids| ==> Summarize(js, ids[k], target).complianceStatus == Surplus {
      AllSurplusSumsBelow(js, target);
      MeanBelowConst(js, target);
      assert false;
    }
    k :| 0 <= k < |ids| && Summarize(js, ids[k], target).complianceStatus == Deficit;
  }

  /** If every row were in surplus, the journeys' intensities would sum to less than `target` each. */
  lemma AllSurplusSumsBelow(js: seq<Journey>, target: real)
    requires |js| > 0
    requires forall k :: 0 <= k < |SortedShipIds(js)| ==>
               Summarize(js, SortedShipIds(js)[k], target).complianceStatus == Surplus
    ensures Sum(js, JourneyIntensity) < Sum(js, Const(target))
  {
    var ids := SortedShipIds(js);
    assert js[0].shipId in ids;
    forall k | 0 <= k < |ids|
      ensures Sum(OfShip(js, ids[k]), JourneyIntensity) < Sum(OfShip(js, ids[k]), Const(target))
    {
      GroupBelowTarget(OfShip(js, ids[k]), target);
    }
    ShipSumsBelow(js, ids, JourneyIntensity, Const(target));
    ShipSumsPartition(js, ids, JourneyIntensity);
    ShipSumsPartition(js, ids, Const(target));
  }

  lemma MeanNonNegative(total: real, n: real)
    requires total >= 0.0 && n > 0.0
    ensures total / n >= 0.0
  {
  }

  /** Journeys whose intensities sum to less than `t` each have a mean intensity below `t`. */
  lemma MeanBelowConst(js: seq<Journey>, t: real)
    requires |js| > 0 && Sum(js, JourneyIntensity) < Sum(js, Const(t))
    ensures Sum(js, JourneyIntensity) / (|js| as real) < t
  {
    SumConst(js, t);
    BelowMean(Sum(js, JourneyIntensity) / (|js| as real), t, |js| as real);
  }

  /** A group whose mean intensity is below `t` has less intensity in all than `t` per journey. */
  lemma GroupBelowTarget(group: seq<Journey>, t: real)
    requires |group| > 0 && MeanIntensity(group) < t
    ensures Sum(group, JourneyIntensity) < Sum(group, Const(t))
  {
    var n, m := |group| as real, MeanIntensity(group);
    calc {
      Sum(group, JourneyIntensity);
      == n * m;
      < { assert (t - m) * n > 0.0; }
      n * t;
      == { SumConst(group, t); }
      Sum(group, Const(t));
    }
  }

  lemma TargetAtMostMean(avg: real, reduction: real)
    requires avg >= 0.0 && reduction >= 0.0
    ensures ReducedTarget(avg, reduction) <= avg
  {
    assert avg * reduction >= 0.0;
  }

  /** For a positive count `n`, `x < t` exactly when `x * n < n * t`. */
  lemma BelowMean(x: real, t: real, n: real)
    requires n > 0.0
    ensures x < t <==> x * n < n * t
  {
    if x < t {
      assert (t - x) * n > 0.0;
    } else {
      assert (x - t) * n >= 0.0;
    }
  }

  /** A one-vessel fleet: the vessel's mean is the fleet mean, and it is always in deficit. */
  lemma SingleVesselIsDeficit(js: seq<Journey>, reduction: real)
    requires |js| > 0 && reduction >= 0.0
    requires forall i :: 0 <= i < |js| ==> js[i].shipId == js[0].shipId
    requires forall i :: 0 <= i < |js| ==> js[i].co2Emissions >= 0.0 && js[i].distance >= 0.0
    ensures |CalculateFleetCompliance(js, reduction).vessels| == 1
    ensures CalculateFleetCompliance(js, reduction).vessels[0].ghgIntensity
         == CalculateFleetCompliance(js, reduction).fleetAvgIntensity.value
    ensures CalculateFleetCompliance(js, reduction).vessels[0].complianceStatus == Deficit
  {
    var f := CalculateFleetCompliance(js, reduction);
    var ids := SortedShipIds(js);
    var id := js[0].shipId;
    assert forall x :: x in ids <==> x == id;
    if |ids| > 1 {
      assert ids[0] == id && ids[1] == id;
      assert Less(ids[0], ids[1]);
      LessIrreflexive(id);
    }
    assert |ids| == 1;
    SomeVesselIsDeficit(js, reduction);
    ShipSumsPartition(js, ids, JourneyIntensity);
    ShipSumsEmpty(ids[..0], JourneyIntensity);
    assert ids[..0] == [];
    OfShipAll(js, id);
  }

  lemma {:induction false} OfShipAll(js: seq<Journey>, id: string)
    requires forall i :: 0 <= i < |js| ==> js[i].shipId == id
    ensures OfShip(js, id) == js
  {
    if |js| > 0 {
      var init, last := js[..|js| - 1], js[|js| - 1];
      OfShipAll(init, id);
      calc {
        OfShip(js, id);
        == OfShip(init, id) + [last];
        == init + [last];
        == { assert init + [last] == js; }
        js;
      }
    }
  }

  // ----- classification -----

  /** `compliance_df[compliance_df['compliance_status'] == st]`, rows in table order. */
  function WithStatus(vs: seq<VesselSummary>, st: Status): (r: seq<VesselSummary>)
    ensures |r| <= |vs|
    ensures forall i :: 0 <= i < |r| ==> r[i].complianceStatus == st && r[i] in vs
  {
    if |vs| == 0 then []
    else
      var rest := WithStatus(vs[..|vs| - 1], st);
      assert forall v :: v in vs[..|vs| - 1] ==> v in vs;
      rest + (if vs[|vs| - 1].complianceStatus == st then [vs[|vs| - 1]] else [])
  }

  /** Surplus and Deficit partition the rows: no row is lost or counted twice. */
  lemma {:induction false} StatusPartition(vs: seq<VesselSummary>)
    ensures |WithStatus(vs, Surplus)| + |WithStatus(vs, Deficit)| == |vs|
  {
    if |vs| > 0 {
      StatusPartition(vs[..|vs| - 1]);
    }
  }

  lemma {:induction false} WithStatusContains(vs: seq<VesselSummary>, st: Status, v: VesselSummary)
    requires v in vs && v.complianceStatus == st
    ensures v in WithStatus(vs, st)
  {
    if vs[|vs| - 1] != v {
      assert v in vs[..|vs| - 1] by {
        var k :| 0 <= k < |vs| && vs[k] == v;
        assert vs[..|vs| - 1][k] == v;
      }
      WithStatusContains(vs[..|vs| - 1], st, v);
    }
  }

  ghost predicate DistinctIds(vs: seq<VesselSummary>)
  {
    forall i, j :: 0 <= i < j < |vs| ==> vs[i].shipId != vs[j].shipId
  }

  /** Every row of a fleet calculation is consistent, carries the shared target and has its own id. */
  lemma FleetRowsWellFormed(js: seq<Journey>, reduction: real)
    ensures DistinctIds(CalculateFleetCompliance(js, reduction).vessels)
    ensures forall i :: 0 <= i < |CalculateFleetCompliance(js, reduction).vessels| ==>
              && Consistent(CalculateFleetCompliance(js, reduction).vessels[i])
              && CalculateFleetCompliance(js, reduction).vessels[i].targetIntensity
                 == CalculateFleetCompliance(js, reduction).targetIntensity.value
  {
    var vs := CalculateFleetCompliance(js, reduction).vessels;
    forall i, j | 0 <= i < j < |vs| ensures vs[i].shipId != vs[j].shipId {
      LessIrreflexive(vs[i].shipId);
    }
  }

  /** With non-negative journey distances every row's total distance is non-negative. */
  lemma FleetDistancesNonNegative(js: seq<Journey>, reduction: real)
    requires forall i :: 0 <= i < |js| ==> js[i].distance >= 0.0
    ensures forall i :: 0 <= i < |CalculateFleetCompliance(js, reduction).vessels| ==>
              CalculateFleetCompliance(js, reduction).vessels[i].totalDistance >= 0.0
  {
    var vs := CalculateFleetCompliance(js, reduction).vessels;
    forall i | 0 <= i < |vs| ensures vs[i].totalDistance >= 0.0 {
      var g := OfShip(js, vs[i].shipId);
      forall k | 0 <= k < |g| ensures DistanceOf(g[k]) >= 0.0 {
        OfShipIn(js, vs[i].shipId, k);
      }
      SumNonNegative(g, DistanceOf);
    }
  }

  lemma {:induction false} OfShipIn(js: seq<Journey>, id: string, k: nat)
    requires k < |OfShip(js, id)|
    ensures OfShip(js, id)[k] in js
  {
    var init := js[..|js| - 1];
    if k < |OfShip(init, id)| {
      OfShipIn(init, id, k);
      assert forall j :: j in init ==> j in js;
    }
  }

  // ----- a worked example -----

  /** Two journeys of vessel A at 1,000 each and one of vessel B at 4,000. */
  function ExampleTable(): seq<Journey>
  {
    [Journey("A", "Ferry", 1.0, 1.0), Journey("A", "Ferry", 1.0, 1.0), Journey("B", "Ferry", 1.0, 4.0)]
  }

  lemma ExampleSum()
    ensures Sum(ExampleTable(), JourneyIntensity) == 6000.0
  {
    var a := Journey("A", "Ferry", 1.0, 1.0);
    var b := Journey("B", "Ferry", 1.0, 4.0);
    assert JourneyIntensity(a) == 1000.0;
    assert JourneyIntensity(b) == 4000.0;
    assert ExampleTable()[..2] == [a, a];
    assert [a, a][..1] == [a];
    assert [a][..0] == [];
    assert Sum([a], JourneyIntensity) == 1000.0;
    assert Sum([a, a], JourneyIntensity) == 2000.0;
  }

  lemma ExampleGroups()
    ensures OfShip(ExampleTable(), "A") == [Journey("A", "Ferry", 1.0, 1.0), Journey("A", "Ferry", 1.0, 1.0)]
    ensures OfShip(ExampleTable(), "B") == [Journey("B", "Ferry", 1.0, 4.0)]
  {
    var a := Journey("A", "Ferry", 1.0, 1.0);
    var b := Journey("B", "Ferry", 1.0, 4.0);
    assert ExampleTable()[..2] == [a, a];
    assert [a, a][..1] == [a];
    assert [a][..0] == [];
    assert OfShip([a], "A") == [a];
    assert OfShip([a, a], "A") == [a, a];
    assert OfShip([a], "B") == [];
    assert OfShip([a, a], "B") == [];
  }

  lemma ExampleGroupSums()
    ensures Sum([Journey("A", "Ferry", 1.0, 1.0), Journey("A", "Ferry", 1.0, 1.0)], JourneyIntensity) == 2000.0
    ensures Sum([Journey("B", "Ferry", 1.0, 4.0)], JourneyIntensity) == 4000.0
  {
    var a := Journey("A", "Ferry", 1.0, 1.0);
    var b := Journey("B", "Ferry", 1.0, 4.0);
    assert JourneyIntensity(a) == 1000.0;
    assert JourneyIntensity(b) == 4000.0;
    assert [a, a][..1] == [a];
    assert [a][..0] == [];
    assert [b][..0] == [];
    assert Sum([a], JourneyIntensity) == 1000.0;
  }

  lemma ExampleIds()
    ensures SortedShipIds(ExampleTable()) == ["A", "B"]
  {
    var a := Journey("A", "Ferry", 1.0, 1.0);
    var js := ExampleTable();
    assert js[..2] == [a, a];
    assert [a, a][..1] == [a];
    assert [a][..0] == [];
    assert SortedShipIds([a]) == ["A"];
    assert SortedShipIds([a, a]) == ["A"];
    assert !Less("B", "A");
    assert ["A"][1..] == [];
    assert Insert(["A"], "B") == ["A", "B"];
  }

  /**
   * Two journeys of A at 1,000 and one of B at 4,000: the fleet mean is the
   * journey mean 2,000, not the mean 2,500 of the two vessel means.
   */
  lemma FleetMeanIsJourneyMean()
    ensures CalculateFleetCompliance(ExampleTable()).fleetAvgIntensity == Some(2000.0)
    ensures |CalculateFleetCompliance(ExampleTable()).vessels| == 2
    ensures CalculateFleetCompliance(ExampleTable()).vessels[0].ghgIntensity == 1000.0
    ensures CalculateFleetCompliance(ExampleTable()).vessels[1].ghgIntensity == 4000.0
  {
    ExampleSum();
    ExampleGroups();
    ExampleGroupSums();
    ExampleIds();
    FleetIds(ExampleTable(), DefaultTargetReduction);
    var vs := CalculateFleetCompliance(ExampleTable()).vessels;
    assert vs[0].shipId == "A" && vs[1].shipId == "B";
    assert MeanIntensity(OfShip(ExampleTable(), "A")) == 1000.0;
    assert MeanIntensity(OfShip(ExampleTable(), "B")) == 4000.0;
  }
}
