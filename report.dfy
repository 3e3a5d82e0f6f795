/**
 * `generate_compliance_report`: the fleet calculation at the default 5 %
 * reduction, the vessel counts, the summed monetary impact, the five
 * lowest- and five highest-intensity vessels, and the pools found with the
 * default limit of ten.
 */
module ComplianceReport {
  import opened Wrappers
  import opened ShipIds
  import opened Journeys
  import opened Fleet
  import opened Pooling
  import opened StableSort
  import opened PoolSearch

  /** How many vessels each performer list holds at most. */
  const PerformerCount: int := 5
  /** The `max_pools` the report passes to the search. */
  const ReportPools: int := 10

  /** The four columns kept for the performer lists. */
  datatype Performer = Performer(shipId: string, shipType: string, ghgIntensity: real, complianceStatus: Status)

  datatype Report = Report(
    totalVessels: nat,
    surplusVessels: nat,
    deficitVessels: nat,
    fleetAvgIntensity: Option<real>,
    targetIntensity: Option<real>,
    totalFinancialImpact: real,
    complianceDetails: seq<VesselSummary>,
    topPerformers: seq<Performer>,
    worstPerformers: seq<Performer>,
    optimalPools: seq<PoolOutcome>)

  function Intensity(v: VesselSummary): real { v.ghgIntensity }

  function NegatedIntensity(v: VesselSummary): real { -v.ghgIntensity }

  /** `nsmallest(5, 'ghg_intensity')`: ascending, earlier rows first among equals. */
  function Lowest(vs: seq<VesselSummary>): seq<VesselSummary>
  {
    Prefix(SortDesc(vs, NegatedIntensity), PerformerCount)
  }

  /** `nlargest(5, 'ghg_intensity')`: descending, earlier rows first among equals. */
  function Highest(vs: seq<VesselSummary>): seq<VesselSummary>
  {
    Prefix(SortDesc(vs, Intensity), PerformerCount)
  }

  /** The column selection `[['ship_id', 'ship_type', 'ghg_intensity', 'compliance_status']]`. */
  function Performers(vs: seq<VesselSummary>): (ps: seq<Performer>)
    ensures |ps| == |vs|
    ensures forall i :: 0 <= i < |vs| ==>
              ps[i] == Performer(vs[i].shipId, vs[i].shipType, vs[i].ghgIntensity, vs[i].complianceStatus)
  {
    if |vs| == 0 then []
    else Performers(vs[..|vs| - 1])
         + [Performer(vs[|vs| - 1].shipId, vs[|vs| - 1].shipType, vs[|vs| - 1].ghgIntensity, vs[|vs| - 1].complianceStatus)]
  }

  /**
   * The first `n` of a stable descending sort: `min(n, |s|)` elements of `s`,
   * in non-increasing key order, none of them below an element left out.
   */
  lemma TopByKey<T>(s: seq<T>, key: T -> real, n: nat)
    ensures |Prefix(SortDesc(s, key), n)| == if n < |s| then n else |s|
    ensures forall i, j :: 0 <= i < j < |Prefix(SortDesc(s, key), n)| ==>
              key(Prefix(SortDesc(s, key), n)[j]) <= key(Prefix(SortDesc(s, key), n)[i])
    ensures forall i :: 0 <= i < |Prefix(SortDesc(s, key), n)| ==> Prefix(SortDesc(s, key), n)[i] in s
    ensures forall x, i :: x in s && x !in Prefix(SortDesc(s, key), n) && 0 <= i < |Prefix(SortDesc(s, key), n)| ==>
              key(x) <= key(Prefix(SortDesc(s, key), n)[i])
  {
    var sorted := SortDesc(s, key);
    var top := Prefix(sorted, n);
    SortDescSorted(s, key);
    SortDescPermutes(s, key);
    forall i | 0 <= i < |top| ensures top[i] in s {
      assert top[i] == sorted[i];
      assert sorted[i] in multiset(sorted);
    }
    forall x, i | x in s && x !in top && 0 <= i < |top| ensures key(x) <= key(top[i]) {
      assert x in multiset(sorted);
      var j :| 0 <= j < |sorted| && sorted[j] == x;
      assert top[i] == sorted[i];
    }
  }

  /** The top performers: at most five rows of the table, lowest intensity first, none beaten by a row left out. */
  lemma LowestPerformers(vs: seq<VesselSummary>)
    ensures |Lowest(vs)| == if |vs| < 5 then |vs| else 5
    ensures forall i, j :: 0 <= i < j < |Lowest(vs)| ==> Lowest(vs)[i].ghgIntensity <= Lowest(vs)[j].ghgIntensity
    ensures forall i :: 0 <= i < |Lowest(vs)| ==> Lowest(vs)[i] in vs
    ensures forall v, i :: v in vs && v !in Lowest(vs) && 0 <= i < |Lowest(vs)| ==>
              Lowest(vs)[i].ghgIntensity <= v.ghgIntensity
  {
    TopByKey(vs, NegatedIntensity, 5);
  }

  /** The worst performers: at most five rows, highest intensity first, none beaten by a row left out. */
  lemma HighestPerformers(vs: seq<VesselSummary>)
    ensures |Highest(vs)| == if |vs| < 5 then |vs| else 5
    ensures forall i, j :: 0 <= i < j < |Highest(vs)| ==> Highest(vs)[j].ghgIntensity <= Highest(vs)[i].ghgIntensity
    ensures forall i :: 0 <= i < |Highest(vs)| ==> Highest(vs)[i] in vs
    ensures forall v, i :: v in vs && v !in Highest(vs) && 0 <= i < |Highest(vs)| ==>
              v.ghgIntensity <= Highest(vs)[i].ghgIntensity
  {
    TopByKey(vs, Intensity, 5);
  }

  /** `generate_compliance_report(fleet_data)`. */
  function GenerateComplianceReport(js: seq<Journey>): (r: Report)
    ensures r.complianceDetails == CalculateFleetCompliance(js).vessels
    ensures r.fleetAvgIntensity == CalculateFleetCompliance(js).fleetAvgIntensity
    ensures r.targetIntensity == CalculateFleetCompliance(js).targetIntensity
    ensures r.totalVessels == |r.complianceDetails|
    ensures r.surplusVessels == |WithStatus(r.complianceDetails, Surplus)|
    ensures r.deficitVessels == |WithStatus(r.complianceDetails, Deficit)|
    ensures r.surplusVessels + r.deficitVessels == r.totalVessels
    ensures r.totalFinancialImpact == SumVessels(r.complianceDetails, VesselImpact)
    ensures r.topPerformers == Performers(Lowest(r.complianceDetails))
    ensures r.worstPerformers == Performers(Highest(r.complianceDetails))
    ensures |r.topPerformers| <= PerformerCount && |r.worstPerformers| <= PerformerCount
    ensures r.optimalPools == OptimalPools(r.complianceDetails, ReportPools)
    ensures |r.optimalPools| <= ReportPools
  {
    var f := CalculateFleetCompliance(js);
    var vs := f.vessels;
    StatusPartition(vs);
    Report(|vs|, |WithStatus(vs, Surplus)|, |WithStatus(vs, Deficit)|,
           f.fleetAvgIntensity, f.targetIntensity,
           SumVessels(vs, VesselImpact),
           vs, Performers(Lowest(vs)), Performers(Highest(vs)),
           OptimalPools(vs, ReportPools))
  }

  /** The report counts one row per distinct ship id. */
  lemma ReportCounts(js: seq<Journey>)
    ensures GenerateComplianceReport(js).totalVessels == |ShipIdSet(js)|
  {
    var ids := SortedShipIds(js);
    StrictlySortedCount(ids);
    assert (set x | x in ids) == ShipIdSet(js);
    if |js| > 0 {
      FleetIds(js, DefaultTargetReduction);
    }
  }

  /**
   * The total impact is signed, not clamped: a surplus row over a positive
   * distance lowers it and a deficit row over a non-negative distance never
   * does.
   */
  lemma ImpactSign(v: VesselSummary)
    requires Consistent(v)
    ensures v.complianceStatus == Surplus && v.totalDistance > 0.0 ==> v.financialImpact < 0.0
    ensures v.complianceStatus == Surplus && v.totalDistance >= 0.0 ==> v.financialImpact <= 0.0
    ensures v.complianceStatus == Deficit && v.totalDistance >= 0.0 ==> v.financialImpact >= 0.0
  {
    var x, d := v.intensityDifference, v.totalDistance;
    if x < 0.0 && d > 0.0 {
      assert x * d < 0.0;
    }
    if x < 0.0 && d >= 0.0 {
      assert x * d <= 0.0;
    }
    if x >= 0.0 && d >= 0.0 {
      assert x * d >= 0.0;
    }
  }

  /** The report's rows carry impacts of the sign of their status, so the total is their signed sum. */
  lemma ReportImpactSigns(js: seq<Journey>, i: nat)
    requires forall k :: 0 <= k < |js| ==> js[k].distance >= 0.0
    requires i < |GenerateComplianceReport(js).complianceDetails|
    ensures GenerateComplianceReport(js).complianceDetails[i].complianceStatus == Deficit ==>
              GenerateComplianceReport(js).complianceDetails[i].financialImpact >= 0.0
    ensures GenerateComplianceReport(js).complianceDetails[i].complianceStatus == Surplus ==>
              GenerateComplianceReport(js).complianceDetails[i].financialImpact <= 0.0
  {
    var v := GenerateComplianceReport(js).complianceDetails[i];
    assert Consistent(v) && v.totalDistance >= 0.0 by {
      FleetRowsWellFormed(js, DefaultTargetReduction);
      FleetDistancesNonNegative(js, DefaultTargetReduction);
    }
    ImpactSign(v);
  }

  /** With non-negative distances the report never lists a pool. */
  lemma ReportHasNoPools(js: seq<Journey>)
    requires forall k :: 0 <= k < |js| ==> js[k].distance >= 0.0
    ensures GenerateComplianceReport(js).optimalPools == []
  {
    FleetHasNoPools(js, DefaultTargetReduction, ReportPools);
  }
}
