/**
 * `simulate_pooling`: two vessel rows are looked up by ship id, their
 * distances and distance-weighted intensities are combined, and the combined
 * intensity is compared with the first vessel's target. The savings are the
 * two rows' own monetary impacts minus the impact of the pool.
 */
module Pooling {
  import opened Wrappers
  import opened Fleet

  /** The dictionary returned for one simulated pair. */
  datatype PoolOutcome = PoolOutcome(
    vessel1Id: string,
    vessel2Id: string,
    vessel1Status: Status,
    vessel2Status: Status,
    vessel1Balance: real,
    vessel2Balance: real,
    combinedBalance: real,
    weightedIntensity: real,
    targetIntensity: real,
    poolingSuccessful: bool,
    excessCo2Tons: real,
    financialImpact: real,
    savings: real)

  /**
   * Why a pair has no outcome: an id with no row (the `.iloc[0]` lookup
   * fails), or two rows whose distances add up to zero, where the weighted
   * intensity and everything after it would be NaN.
   */
  datatype PoolError = VesselNotFound(shipId: string) | ZeroCombinedDistance

  /** `compliance_df[compliance_df['ship_id'] == id].iloc[0]`: the first row with that id. */
  function Find(vs: seq<VesselSummary>, id: string): Option<VesselSummary>
  {
    if |vs| == 0 then None
    else if vs[0].shipId == id then Some(vs[0])
    else Find(vs[1..], id)
  }

  /** The lookup fails exactly when no row has the id, and otherwise yields the first such row. */
  lemma {:induction false} FindFirst(vs: seq<VesselSummary>, id: string)
    ensures Find(vs, id).None? <==> forall i :: 0 <= i < |vs| ==> vs[i].shipId != id
    ensures Find(vs, id).Some? ==>
              exists i :: && 0 <= i < |vs| && vs[i] == Find(vs, id).value && vs[i].shipId == id
                          && forall k :: 0 <= k < i ==> vs[k].shipId != id
  {
    if |vs| > 0 && vs[0].shipId != id {
      var tail := vs[1..];
      FindFirst(tail, id);
      assert forall i :: 1 <= i < |vs| ==> vs[i] == tail[i - 1];
      if Find(tail, id).Some? {
        var i :| && 0 <= i < |tail| && tail[i] == Find(tail, id).value && tail[i].shipId == id
                 && forall k :: 0 <= k < i ==> tail[k].shipId != id;
        assert vs[i + 1] == tail[i];
      }
    }
  }

  /** The row found for an id is a row of the table. */
  lemma FindIn(vs: seq<VesselSummary>, id: string)
    requires Find(vs, id).Some?
    ensures Find(vs, id).value in vs && Find(vs, id).value.shipId == id
  {
    FindFirst(vs, id);
  }

  /** With one row per id, looking up a row's id yields that row. */
  lemma FindDistinct(vs: seq<VesselSummary>, i: nat)
    requires DistinctIds(vs) && i < |vs|
    ensures Find(vs, vs[i].shipId) == Some(vs[i])
  {
    FindFirst(vs, vs[i].shipId);
  }

  /** The pooled intensity: the rows' intensities weighted by their total distances. */
  function WeightedIntensity(v1: VesselSummary, v2: VesselSummary): real
    requires v1.totalDistance + v2.totalDistance != 0.0
  {
    (v1.ghgIntensity * v1.totalDistance + v2.ghgIntensity * v2.totalDistance)
      / (v1.totalDistance + v2.totalDistance)
  }

  /** The pooled intensity is the distance-weighted mean of the two intensities. */
  lemma WeightedMean(v1: VesselSummary, v2: VesselSummary)
    requires v1.totalDistance + v2.totalDistance != 0.0
    ensures WeightedIntensity(v1, v2) * (v1.totalDistance + v2.totalDistance)
         == v1.ghgIntensity * v1.totalDistance + v2.ghgIntensity * v2.totalDistance
  {
  }

  /** Tons of CO2 for an excess intensity (grams per mile) over a distance. */
  function ExcessTons(excess: real, distance: real): real
  {
    excess * distance / GramsPerTon
  }

  /** The simulation proper, once both rows are found and their distances do not cancel. */
  function Pool(v1: VesselSummary, v2: VesselSummary): PoolOutcome
    requires v1.totalDistance + v2.totalDistance != 0.0
  {
    var distance := v1.totalDistance + v2.totalDistance;
    var w := WeightedIntensity(v1, v2);
    var target := v1.targetIntensity;
    var successful := w <= target;
    var excess := if successful then 0.0 else ExcessTons(w - target, distance);
    var impact := excess * PenaltyPerTon;
    PoolOutcome(v1.shipId, v2.shipId, v1.complianceStatus, v2.complianceStatus,
                v1.complianceBalance, v2.complianceBalance,
                v1.complianceBalance + v2.complianceBalance,
                w, target, successful, excess, impact,
                v1.financialImpact + v2.financialImpact - impact)
  }

  /**
   * The remaining fields of a pool: the reported intensity is the weighted
   * intensity, the cost is the excess tons at the penalty rate, and a failed
   * pool's excess tons are its excess intensity over the combined distance.
   */
  lemma PoolFields(v1: VesselSummary, v2: VesselSummary)
    requires v1.totalDistance + v2.totalDistance != 0.0
    ensures Pool(v1, v2).weightedIntensity == WeightedIntensity(v1, v2)
    ensures Pool(v1, v2).financialImpact == Pool(v1, v2).excessCo2Tons * PenaltyPerTon
    ensures !Pool(v1, v2).poolingSuccessful ==>
              Pool(v1, v2).excessCo2Tons
              == ExcessTons(WeightedIntensity(v1, v2) - v1.targetIntensity, v1.totalDistance + v2.totalDistance)
  {
  }

  /**
   * What a pool reports: the two rows' ids, statuses and balances, their
   * summed balance, the first row's target, success exactly when the
   * weighted intensity is within it, no excess and no cost on success,
   * otherwise a cost of (w - t) * D / 10,000 (positive for a positive
   * distance), and the savings relative to the rows' own impacts. The
   * remaining fields are stated by `PoolFields`.
   */
  lemma PoolReport(v1: VesselSummary, v2: VesselSummary)
    requires v1.totalDistance + v2.totalDistance != 0.0
    ensures Pool(v1, v2).vessel1Id == v1.shipId && Pool(v1, v2).vessel2Id == v2.shipId
    ensures Pool(v1, v2).vessel1Status == v1.complianceStatus && Pool(v1, v2).vessel2Status == v2.complianceStatus
    ensures Pool(v1, v2).vessel1Balance == v1.complianceBalance && Pool(v1, v2).vessel2Balance == v2.complianceBalance
    ensures Pool(v1, v2).combinedBalance == v1.complianceBalance + v2.complianceBalance
    ensures Pool(v1, v2).targetIntensity == v1.targetIntensity
    ensures Pool(v1, v2).poolingSuccessful <==> WeightedIntensity(v1, v2) <= v1.targetIntensity
    ensures Pool(v1, v2).poolingSuccessful ==> Pool(v1, v2).excessCo2Tons == 0.0 && Pool(v1, v2).financialImpact == 0.0
    ensures !Pool(v1, v2).poolingSuccessful ==>
              && Pool(v1, v2).financialImpact
                 == (WeightedIntensity(v1, v2) - v1.targetIntensity) * (v1.totalDistance + v2.totalDistance) / 10000.0
              && (Pool(v1, v2).financialImpact > 0.0 <==> v1.totalDistance + v2.totalDistance > 0.0)
    ensures Pool(v1, v2).savings == v1.financialImpact + v2.financialImpact - Pool(v1, v2).financialImpact
  {
    var d := v1.totalDistance + v2.totalDistance;
    var x := WeightedIntensity(v1, v2) - v1.targetIntensity;
    if x > 0.0 {
      PositiveCost(x, d);
    }
  }

  lemma PositiveCost(x: real, d: real)
    requires x > 0.0
    ensures ExcessTons(x, d) * PenaltyPerTon == x * d / 10000.0
    ensures ExcessTons(x, d) * PenaltyPerTon > 0.0 <==> d > 0.0
  {
    if d > 0.0 {
      assert x * d > 0.0;
    } else {
      assert x * d <= 0.0;
    }
  }

  /**
   * `simulate_pooling(vessel1_id, vessel2_id, compliance_df)`: the first id
   * is looked up first, so its absence is the error reported when both are
   * missing.
   */
  function SimulatePooling(id1: string, id2: string, vs: seq<VesselSummary>): Result<PoolOutcome, PoolError>
  {
    match Find(vs, id1)
    case None => Err(VesselNotFound(id1))
    case Some(v1) =>
      match Find(vs, id2)
      case None => Err(VesselNotFound(id2))
      case Some(v2) =>
        if v1.totalDistance + v2.totalDistance == 0.0 then Err(ZeroCombinedDistance)
        else Ok(Pool(v1, v2))
  }

  /**
   * The error cases in the order the source meets them: an unknown first
   * id, then an unknown second id, then distances that cancel; otherwise
   * the pool of the two first rows.
   */
  lemma SimulatePoolingCases(id1: string, id2: string, vs: seq<VesselSummary>)
    ensures (forall i :: 0 <= i < |vs| ==> vs[i].shipId != id1) ==>
              SimulatePooling(id1, id2, vs) == Err(VesselNotFound(id1))
    ensures (exists i :: 0 <= i < |vs| && vs[i].shipId == id1) && (forall i :: 0 <= i < |vs| ==> vs[i].shipId != id2) ==>
              SimulatePooling(id1, id2, vs) == Err(VesselNotFound(id2))
    ensures SimulatePooling(id1, id2, vs).Ok? <==>
              && Find(vs, id1).Some? && Find(vs, id2).Some?
              && Find(vs, id1).value.totalDistance + Find(vs, id2).value.totalDistance != 0.0
    ensures SimulatePooling(id1, id2, vs) == Err(ZeroCombinedDistance) <==>
              && Find(vs, id1).Some? && Find(vs, id2).Some?
              && Find(vs, id1).value.totalDistance + Find(vs, id2).value.totalDistance == 0.0
    ensures SimulatePooling(id1, id2, vs).Ok? ==>
              SimulatePooling(id1, id2, vs).value == Pool(Find(vs, id1).value, Find(vs, id2).value)
  {
    FindFirst(vs, id1);
    FindFirst(vs, id2);
  }

  /** Rows present and distances not cancelling: an outcome, whose vessels are the found rows. */
  lemma SimulatePoolingRows(id1: string, id2: string, vs: seq<VesselSummary>)
    requires SimulatePooling(id1, id2, vs).Ok?
    ensures Find(vs, id1).Some? && Find(vs, id1).value in vs && Find(vs, id1).value.shipId == id1
    ensures Find(vs, id2).Some? && Find(vs, id2).value in vs && Find(vs, id2).value.shipId == id2
    ensures Find(vs, id1).value.totalDistance + Find(vs, id2).value.totalDistance != 0.0
    ensures SimulatePooling(id1, id2, vs).value == Pool(Find(vs, id1).value, Find(vs, id2).value)
  {
    FindIn(vs, id1);
    FindIn(vs, id2);
  }

  // ----- properties of a pool -----

  /**
   * Pooling is commutative for two rows with the same target: the combined
   * balance, weighted intensity, success, excess, impact and savings agree.
   */
  lemma PoolSymmetric(v1: VesselSummary, v2: VesselSummary)
    requires v1.totalDistance + v2.totalDistance != 0.0
    requires v1.targetIntensity == v2.targetIntensity
    ensures Pool(v2, v1).combinedBalance == Pool(v1, v2).combinedBalance
    ensures Pool(v2, v1).weightedIntensity == Pool(v1, v2).weightedIntensity
    ensures Pool(v2, v1).poolingSuccessful == Pool(v1, v2).poolingSuccessful
    ensures Pool(v2, v1).excessCo2Tons == Pool(v1, v2).excessCo2Tons
    ensures Pool(v2, v1).financialImpact == Pool(v1, v2).financialImpact
    ensures Pool(v2, v1).savings == Pool(v1, v2).savings
  {
    assert v2.totalDistance + v1.totalDistance == v1.totalDistance + v2.totalDistance;
  }

  /** Looking the pair up the other way round gives the mirrored outcome. */
  lemma SimulatePoolingSymmetric(id1: string, id2: string, vs: seq<VesselSummary>)
    requires SimulatePooling(id1, id2, vs).Ok?
    requires Find(vs, id1).value.targetIntensity == Find(vs, id2).value.targetIntensity
    ensures SimulatePooling(id2, id1, vs).Ok?
    ensures SimulatePooling(id2, id1, vs).value.weightedIntensity == SimulatePooling(id1, id2, vs).value.weightedIntensity
    ensures SimulatePooling(id2, id1, vs).value.poolingSuccessful == SimulatePooling(id1, id2, vs).value.poolingSuccessful
    ensures SimulatePooling(id2, id1, vs).value.combinedBalance == SimulatePooling(id1, id2, vs).value.combinedBalance
    ensures SimulatePooling(id2, id1, vs).value.savings == SimulatePooling(id1, id2, vs).value.savings
  {
    SimulatePoolingRows(id1, id2, vs);
    PoolSymmetric(Find(vs, id1).value, Find(vs, id2).value);
  }

  /** With non-negative distances the pooled intensity lies between the two rows' intensities. */
  lemma WeightedBetween(v1: VesselSummary, v2: VesselSummary)
    requires v1.totalDistance >= 0.0 && v2.totalDistance >= 0.0
    requires v1.totalDistance + v2.totalDistance != 0.0
    ensures v1.ghgIntensity <= v2.ghgIntensity ==>
              v1.ghgIntensity <= WeightedIntensity(v1, v2) <= v2.ghgIntensity
    ensures v2.ghgIntensity <= v1.ghgIntensity ==>
              v2.ghgIntensity <= WeightedIntensity(v1, v2) <= v1.ghgIntensity
  {
    var w := WeightedIntensity(v1, v2);
    WeightedMean(v1, v2);
    MeanBetween(v1.ghgIntensity, v1.totalDistance, v2.ghgIntensity, v2.totalDistance, w);
    MeanBetween(v2.ghgIntensity, v2.totalDistance, v1.ghgIntensity, v1.totalDistance, w);
  }

  /**
   * Two deficit rows never pool below their shared target: with non-negative
   * distances the pooled intensity is at least the target, so a successful
   * pool of two deficits sits exactly on it.
   */
  lemma TwoDeficitsPoolOnlyAtTarget(v1: VesselSummary, v2: VesselSummary)
    requires Consistent(v1) && Consistent(v2)
    requires v1.targetIntensity == v2.targetIntensity
    requires v1.complianceStatus == Deficit && v2.complianceStatus == Deficit
    requires v1.totalDistance >= 0.0 && v2.totalDistance >= 0.0
    requires v1.totalDistance + v2.totalDistance > 0.0
    ensures WeightedIntensity(v1, v2) >= v1.targetIntensity
    ensures Pool(v1, v2).poolingSuccessful ==> WeightedIntensity(v1, v2) == v1.targetIntensity
  {
    WeightedBetween(v1, v2);
  }

  /** Two deficit rows exactly on the target of 6,000, over 100 each. */
  function AtTarget(id: string): VesselSummary
  {
    VesselSummary(id, 6000.0, 600.0, 100.0, "Cargo", 6000.0, 0.0, Deficit, 0.0, 100.0, 0.0, 0.0)
  }

  /**
   * Such a row is a well-formed deficit row on its target, so two of them meet
   * the requirements of `TwoDeficitsAtTargetPool` and pool successfully.
   */
  lemma AtTargetConsistent(id: string)
    ensures Consistent(AtTarget(id)) && AtTarget(id).complianceStatus == Deficit
    ensures AtTarget(id).ghgIntensity == AtTarget(id).targetIntensity == 6000.0
    ensures AtTarget(id).totalDistance == 100.0
  {
  }

  /**
   * Two deficit rows exactly on their shared target, over a positive combined
   * distance: the pool sits on the target, the `<=` test reports it as
   * successful, and it costs and saves nothing.
   */
  lemma TwoDeficitsAtTargetPool(v1: VesselSummary, v2: VesselSummary)
    requires Consistent(v1) && Consistent(v2)
    requires v1.ghgIntensity == v1.targetIntensity && v2.ghgIntensity == v1.targetIntensity
    requires v2.targetIntensity == v1.targetIntensity
    requires v1.totalDistance + v2.totalDistance > 0.0
    ensures v1.complianceStatus == Deficit && v2.complianceStatus == Deficit
    ensures Pool(v1, v2).weightedIntensity == v1.targetIntensity
    ensures Pool(v1, v2).poolingSuccessful
    ensures Pool(v1, v2).financialImpact == 0.0 && Pool(v1, v2).savings == 0.0
  {
    var t, d := v1.targetIntensity, v1.totalDistance + v2.totalDistance;
    var w := WeightedIntensity(v1, v2);
    assert w == t by {
      WeightedMean(v1, v2);
      assert w * d == t * d;
      SameScaled(w, t, d);
    }
    PoolReport(v1, v2);
  }

  /**
   * The concrete pair: any two deficit rows at 6,000 against a 6,000 target,
   * over 100 each, pool successfully.
   */
  lemma TwoDeficitsAtTargetExample(id1: string, id2: string) returns (p: PoolOutcome)
    ensures p == Pool(AtTarget(id1), AtTarget(id2))
    ensures p.vessel1Status == Deficit && p.vessel2Status == Deficit
    ensures p.weightedIntensity == 6000.0
    ensures p.poolingSuccessful && p.savings == 0.0
  {
    var a, b := AtTarget(id1), AtTarget(id2);
    AtTargetConsistent(id1);
    AtTargetConsistent(id2);
    TwoDeficitsAtTargetPool(a, b);
    p := Pool(a, b);
  }

  /** Scaling by a positive factor is injective. */
  lemma SameScaled(x: real, y: real, d: real)
    requires d > 0.0 && x * d == y * d
    ensures x == y
  {
    assert (x - y) * d == 0.0;
  }

  /** A weighted mean `w` of `a` and `b` (weights `da`, `db` >= 0) is no less than the smaller. */
  lemma MeanBetween(a: real, da: real, b: real, db: real, w: real)
    requires da >= 0.0 && db >= 0.0 && da + db > 0.0
    requires w * (da + db) == a * da + b * db
    ensures a <= b ==> a <= w <= b
  {
    if a <= b {
      assert (w - a) * (da + db) == (b - a) * db;
      assert (b - w) * (da + db) == (b - a) * da;
      NonNegativeProduct(b - a, db);
      NonNegativeProduct(b - a, da);
      NonNegativeFactor(w - a, da + db);
      NonNegativeFactor(b - w, da + db);
    }
  }

  lemma NonNegativeProduct(x: real, y: real)
    requires x >= 0.0 && y >= 0.0
    ensures x * y >= 0.0
  {
  }

  lemma NonNegativeFactor(x: real, y: real)
    requires y > 0.0 && x * y >= 0.0
    ensures x >= 0.0
  {
  }

  /** Two rows' impacts together: the impact of their summed excess intensity-distance. */
  lemma ImpactSum(g1: real, d1: real, g2: real, d2: real, t: real)
    ensures (g1 - t) * d1 / GramsPerTon * PenaltyPerTon + (g2 - t) * d2 / GramsPerTon * PenaltyPerTon
         == (g1 * d1 + g2 * d2 - t * (d1 + d2)) / 10000.0
  {
  }

  /** The impact of a failed pool, written out over the weighted sum `s = w * d`. */
  lemma PoolImpactExpand(w: real, d: real, s: real, t: real)
    requires w * d == s
    ensures (w - t) * d / GramsPerTon * PenaltyPerTon == (s - t * d) / 10000.0
  {
  }

  /** A weighted intensity within the target over a positive distance leaves no excess. */
  lemma WithinTargetScaled(w: real, d: real, s: real, t: real)
    requires w * d == s && d > 0.0 && w <= t
    ensures s - t * d <= 0.0
  {
    assert (t - w) * d >= 0.0;
  }

  /**
   * The savings identity. For two consistent rows with a shared target and
   * a positive combined distance, a failed pool costs exactly what the two
   * rows cost alone (savings 0), and a successful one saves the rows' own
   * impacts, whose sum is never positive. So a pool never saves anything.
   */
  lemma PoolSavings(v1: VesselSummary, v2: VesselSummary)
    requires Consistent(v1) && Consistent(v2)
    requires v1.targetIntensity == v2.targetIntensity
    requires v1.totalDistance + v2.totalDistance > 0.0
    ensures !Pool(v1, v2).poolingSuccessful ==> Pool(v1, v2).savings == 0.0
    ensures Pool(v1, v2).poolingSuccessful ==>
              && Pool(v1, v2).savings == v1.financialImpact + v2.financialImpact
              && v1.financialImpact + v2.financialImpact <= 0.0
    ensures Pool(v1, v2).savings <= 0.0
  {
    var t := v1.targetIntensity;
    var g1, d1, g2, d2 := v1.ghgIntensity, v1.totalDistance, v2.ghgIntensity, v2.totalDistance;
    var w := WeightedIntensity(v1, v2);
    WeightedMean(v1, v2);
    PoolReport(v1, v2);
    ImpactSum(g1, d1, g2, d2, t);
    if w <= t {
      WithinTargetScaled(w, d1 + d2, g1 * d1 + g2 * d2, t);
    } else {
      PoolImpactExpand(w, d1 + d2, g1 * d1 + g2 * d2, t);
    }
  }

  /**
   * The worked example: a deficit vessel at 10,000 and a surplus vessel at
   * 1,000 over 100 miles each, against a target of 6,000, pool at 5,500,
   * succeed, and the savings are the rows' own impacts, 40 + (-50).
   */
  lemma WorkedExample()
    ensures Pool(VesselSummary("A", 10000.0, 1000.0, 100.0, "Cargo", 6000.0, 4000.0, Deficit, 4000.0, 100.0, 0.4, 40.0),
                 VesselSummary("B", 1000.0, 100.0, 100.0, "Cargo", 6000.0, -5000.0, Surplus, -5000.0, 100.0, -0.5, -50.0))
         == PoolOutcome("A", "B", Deficit, Surplus, 4000.0, -5000.0, -1000.0, 5500.0, 6000.0, true, 0.0, 0.0, -10.0)
  {
    var a := VesselSummary("A", 10000.0, 1000.0, 100.0, "Cargo", 6000.0, 4000.0, Deficit, 4000.0, 100.0, 0.4, 40.0);
    var b := VesselSummary("B", 1000.0, 100.0, 100.0, "Cargo", 6000.0, -5000.0, Surplus, -5000.0, 100.0, -0.5, -50.0);
    assert Consistent(a) && Consistent(b);
    assert WeightedIntensity(a, b) == 5500.0;
  }
}
