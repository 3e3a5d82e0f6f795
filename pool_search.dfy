/**
 * `identify_optimal_pools`: every (deficit, surplus) pair of rows is
 * simulated, outcomes with positive savings are kept in enumeration order
 * (deficit rows outer, surplus rows inner), the list is sorted by savings,
 * highest first and stably, and cut to `max_pools` entries.
 */
module PoolSearch {
  import opened Wrappers
  import opened Journeys
  import opened Fleet
  import opened Pooling
  import opened StableSort

  /** The sort key of the outcomes. */
  function SavingsOf(o: PoolOutcome): real { o.savings }

  /** The outcome of one pair if it is kept: simulated without error and with positive savings. */
  function Opportunity(d: VesselSummary, s: VesselSummary, vs: seq<VesselSummary>): (r: seq<PoolOutcome>)
    ensures |r| <= 1
    ensures |r| == 1 <==> SimulatePooling(d.shipId, s.shipId, vs).Ok?
                          && SimulatePooling(d.shipId, s.shipId, vs).value.savings > 0.0
    ensures |r| == 1 ==> r[0] == SimulatePooling(d.shipId, s.shipId, vs).value
  {
    var res := SimulatePooling(d.shipId, s.shipId, vs);
    if res.Ok? && res.value.savings > 0.0 then [res.value] else []
  }

  /** `Opportunity` over the table `vs`, as a function of the pair. */
  function KeptIn(vs: seq<VesselSummary>): (VesselSummary, VesselSummary) -> seq<PoolOutcome>
  {
    (d: VesselSummary, s: VesselSummary) => Opportunity(d, s, vs)
  }

  /** What `keep` yields for `d` with each of `ss`, in order (the inner loop). */
  function PairsWith<A, B, O>(d: A, ss: seq<B>, keep: (A, B) -> seq<O>): seq<O>
  {
    if |ss| == 0 then [] else PairsWith(d, ss[..|ss| - 1], keep) + keep(d, ss[|ss| - 1])
  }

  /** What `keep` yields for all pairs, `ds`-major (both loops). */
  function AllPairs<A, B, O>(ds: seq<A>, ss: seq<B>, keep: (A, B) -> seq<O>): seq<O>
  {
    if |ds| == 0 then [] else AllPairs(ds[..|ds| - 1], ss, keep) + PairsWith(ds[|ds| - 1], ss, keep)
  }

  /** `o` is what `keep` yields for some pair taken from `ds` and `ss`. */
  ghost predicate FromPair<A, B, O>(ds: seq<A>, ss: seq<B>, keep: (A, B) -> seq<O>, o: O)
  {
    exists a, b :: 0 <= a < |ds| && 0 <= b < |ss| && keep(ds[a], ss[b]) == [o]
  }

  lemma {:induction false} PairsWithMembers<A, B, O>(d: A, ss: seq<B>, keep: (A, B) -> seq<O>, o: O)
    requires forall a: A, b: B :: |keep(a, b)| <= 1
    ensures o in PairsWith(d, ss, keep) <==> exists b :: 0 <= b < |ss| && keep(d, ss[b]) == [o]
  {
    if |ss| > 0 {
      var init := ss[..|ss| - 1];
      PairsWithMembers(d, init, keep, o);
      assert forall b :: 0 <= b < |init| ==> init[b] == ss[b];
      var last := keep(d, ss[|ss| - 1]);
      if o in last {
        assert last == [o];
      }
    }
  }

  /** With at most one outcome per pair, the enumeration holds exactly the pairs' outcomes. */
  lemma {:induction false} AllPairsMembers<A, B, O>(ds: seq<A>, ss: seq<B>, keep: (A, B) -> seq<O>, o: O)
    requires forall a: A, b: B :: |keep(a, b)| <= 1
    ensures o in AllPairs(ds, ss, keep) <==> FromPair(ds, ss, keep, o)
  {
    if |ds| > 0 {
      var init := ds[..|ds| - 1];
      var d := ds[|ds| - 1];
      AllPairsMembers(init, ss, keep, o);
      PairsWithMembers(d, ss, keep, o);
      assert AllPairs(ds, ss, keep) == AllPairs(init, ss, keep) + PairsWith(d, ss, keep);
      if FromPair(ds, ss, keep, o) {
        var a, b :| 0 <= a < |ds| && 0 <= b < |ss| && keep(ds[a], ss[b]) == [o];
        if a < |init| {
          assert keep(init[a], ss[b]) == [o];
        }
      }
      if FromPair(init, ss, keep, o) {
        var a, b :| 0 <= a < |init| && 0 <= b < |ss| && keep(init[a], ss[b]) == [o];
        assert keep(ds[a], ss[b]) == [o];
      }
    }
  }

  lemma PairsWithStep<A, B, O>(d: A, ss: seq<B>, j: nat, keep: (A, B) -> seq<O>)
    requires j < |ss|
    ensures PairsWith(d, ss[..j + 1], keep) == PairsWith(d, ss[..j], keep) + keep(d, ss[j])
  {
    assert ss[..j + 1][..j] == ss[..j];
  }

  lemma AllPairsStep<A, B, O>(ds: seq<A>, i: nat, ss: seq<B>, keep: (A, B) -> seq<O>)
    requires i < |ds|
    ensures AllPairs(ds[..i + 1], ss, keep) == AllPairs(ds[..i], ss, keep) + PairsWith(ds[i], ss, keep)
  {
    assert ds[..i + 1][..i] == ds[..i];
  }

  /** The kept outcomes of a compliance table: deficit rows outer, surplus rows inner. */
  function Opportunities(vs: seq<VesselSummary>): seq<PoolOutcome>
  {
    AllPairs(WithStatus(vs, Deficit), WithStatus(vs, Surplus), KeptIn(vs))
  }

  /**
   * The collected outcomes are exactly the kept outcomes of the (deficit,
   * surplus) pairs: simulated without error and with positive savings.
   */
  lemma OpportunitiesMembers(vs: seq<VesselSummary>, o: PoolOutcome)
    ensures o in Opportunities(vs) <==> FromPair(WithStatus(vs, Deficit), WithStatus(vs, Surplus), KeptIn(vs), o)
  {
    AllPairsMembers(WithStatus(vs, Deficit), WithStatus(vs, Surplus), KeptIn(vs), o);
  }

  /** Python's `s[:k]`: the first `k` elements, or all but the last `-k` for negative `k`. */
  function Prefix<T>(s: seq<T>, k: int): (r: seq<T>)
    ensures |r| <= |s| && r == s[..|r|]
    ensures k >= 0 ==> |r| == if k < |s| then k else |s|
    ensures k < 0 ==> |r| == if |s| + k > 0 then |s| + k else 0
  {
    if k >= 0 then (if k < |s| then s[..k] else s)
    else if |s| + k > 0 then s[..|s| + k]
    else []
  }

  /** All kept outcomes of a compliance table, ranked by savings (before the cut). */
  function Ranked(vs: seq<VesselSummary>): seq<PoolOutcome>
  {
    SortDesc(Opportunities(vs), SavingsOf)
  }

  /** The result of `identify_optimal_pools(compliance_df, max_pools)`. */
  function OptimalPools(vs: seq<VesselSummary>, maxPools: int): seq<PoolOutcome>
  {
    Prefix(Ranked(vs), maxPools)
  }

  /** The search itself: the two nested loops, the stable sort, the slice. */
  method IdentifyOptimalPools(vs: seq<VesselSummary>, maxPools: int := 10) returns (pools: seq<PoolOutcome>)
    ensures pools == OptimalPools(vs, maxPools)
  {
    var surplus := WithStatus(vs, Surplus);
    var deficit := WithStatus(vs, Deficit);
    var opportunities: seq<PoolOutcome> := [];
    var i := 0;
    while i < |deficit|
      invariant 0 <= i <= |deficit|
      invariant opportunities == AllPairs(deficit[..i], surplus, KeptIn(vs))
    {
      var found := PairsFor(deficit[i], surplus, vs);
      opportunities := opportunities + found;
      AllPairsStep(deficit, i, surplus, KeptIn(vs));
      i := i + 1;
    }
    assert deficit[..i] == deficit;
    var sorted := StableSortDescending(opportunities, SavingsOf);
    pools := Prefix(sorted, maxPools);
  }

  /** The inner loop: simulate deficit row `d` with every surplus row, keeping positive savings. */
  method PairsFor(d: VesselSummary, surplus: seq<VesselSummary>, vs: seq<VesselSummary>) returns (found: seq<PoolOutcome>)
    ensures found == PairsWith(d, surplus, KeptIn(vs))
  {
    found := [];
    var j := 0;
    while j < |surplus|
      invariant 0 <= j <= |surplus|
      invariant found == PairsWith(d, surplus[..j], KeptIn(vs))
    {
      var result := SimulatePooling(d.shipId, surplus[j].shipId, vs);
      if result.Ok? && result.value.savings > 0.0 {
        found := found + [result.value];
      }
      PairsWithStep(d, surplus, j, KeptIn(vs));
      j := j + 1;
    }
    assert surplus[..j] == surplus;
  }

  // ----- properties of the search result -----

  /** At most `max_pools` entries (none for a negative bound beyond the list's length). */
  lemma OptimalPoolsLength(vs: seq<VesselSummary>, maxPools: int)
    ensures maxPools >= 0 ==> |OptimalPools(vs, maxPools)| <= maxPools
    ensures |OptimalPools(vs, maxPools)| <= |Ranked(vs)|
  {
  }

  /**
   * Every returned entry has positive savings and is the outcome of a
   * (deficit row, surplus row) pair; with one row per id, its first vessel
   * is in deficit and its second in surplus.
   */
  lemma OptimalPoolsEntries(vs: seq<VesselSummary>, maxPools: int, i: nat)
    requires i < |OptimalPools(vs, maxPools)|
    ensures OptimalPools(vs, maxPools)[i].savings > 0.0
    ensures FromPair(WithStatus(vs, Deficit), WithStatus(vs, Surplus), KeptIn(vs), OptimalPools(vs, maxPools)[i])
    ensures DistinctIds(vs) ==>
              && OptimalPools(vs, maxPools)[i].vessel1Status == Deficit
              && OptimalPools(vs, maxPools)[i].vessel2Status == Surplus
  {
    var ds, ss := WithStatus(vs, Deficit), WithStatus(vs, Surplus);
    var o := OptimalPools(vs, maxPools)[i];
    assert o == Ranked(vs)[i];
    SortDescPermutes(Opportunities(vs), SavingsOf);
    assert o in multiset(Ranked(vs));
    OpportunitiesMembers(vs, o);
    var a, b :| 0 <= a < |ds| && 0 <= b < |ss| && KeptIn(vs)(ds[a], ss[b]) == [o];
    assert Opportunity(ds[a], ss[b], vs) == [o];
    if DistinctIds(vs) {
      var p :| 0 <= p < |vs| && vs[p] == ds[a];
      var q :| 0 <= q < |vs| && vs[q] == ss[b];
      FindDistinct(vs, p);
      FindDistinct(vs, q);
      SimulatePoolingRows(ds[a].shipId, ss[b].shipId, vs);
      PoolReport(ds[a], ss[b]);
    }
  }

  /**
   * The entries come in non-increasing order of savings, each at least as
   * large as any ranked outcome cut off by the limit.
   */
  lemma OptimalPoolsOrder(vs: seq<VesselSummary>, maxPools: int)
    ensures NonIncreasing(OptimalPools(vs, maxPools), SavingsOf)
    ensures forall i, j :: 0 <= i < |OptimalPools(vs, maxPools)| <= j < |Ranked(vs)| ==>
              Ranked(vs)[j].savings <= OptimalPools(vs, maxPools)[i].savings
  {
    SortDescSorted(Opportunities(vs), SavingsOf);
    var r := Ranked(vs);
    assert forall i, j :: 0 <= i < j < |r| ==> SavingsOf(r[j]) <= SavingsOf(r[i]);
  }

  /**
   * Ties keep the enumeration order: outcomes with equal savings appear in
   * the ranking in the order the loops produced them.
   */
  lemma RankedStable(vs: seq<VesselSummary>, k: real)
    ensures KeyClass(Ranked(vs), SavingsOf, k)
         == KeyClass(Opportunities(vs), SavingsOf, k)
  {
    SortDescStable(Opportunities(vs), SavingsOf, k);
  }

  /** Rows that are consistent, share one target and have non-negative distances. */
  ghost predicate SharedTargetTable(vs: seq<VesselSummary>)
  {
    && (forall i :: 0 <= i < |vs| ==> Consistent(vs[i]) && vs[i].totalDistance >= 0.0)
    && (forall i, j :: 0 <= i < |vs| && 0 <= j < |vs| ==> vs[i].targetIntensity == vs[j].targetIntensity)
  }

  /** In such a table no simulated pair has positive savings. */
  lemma NoPositiveSavings(vs: seq<VesselSummary>, id1: string, id2: string)
    requires SharedTargetTable(vs)
    requires SimulatePooling(id1, id2, vs).Ok?
    ensures SimulatePooling(id1, id2, vs).value.savings <= 0.0
  {
    SimulatePoolingRows(id1, id2, vs);
    var v1, v2 := Find(vs, id1).value, Find(vs, id2).value;
    var p :| 0 <= p < |vs| && vs[p] == v1;
    var q :| 0 <= q < |vs| && vs[q] == v2;
    PoolSavings(v1, v2);
  }

  /** Hence the search over such a table finds nothing. */
  lemma NoPoolsInSharedTargetTable(vs: seq<VesselSummary>, maxPools: int)
    requires SharedTargetTable(vs)
    ensures OptimalPools(vs, maxPools) == []
  {
    var ds, ss := WithStatus(vs, Deficit), WithStatus(vs, Surplus);
    var opps := Opportunities(vs);
    if |opps| > 0 {
      var o := opps[0];
      OpportunitiesMembers(vs, o);
      var a, b :| 0 <= a < |ds| && 0 <= b < |ss| && KeptIn(vs)(ds[a], ss[b]) == [o];
      assert Opportunity(ds[a], ss[b], vs) == [o];
      NoPositiveSavings(vs, ds[a].shipId, ss[b].shipId);
      assert false;
    }
  }

  /**
   * For any journey table with non-negative distances, the pools of its fleet
   * calculation are empty: the filter on positive savings never passes.
   */
  lemma FleetHasNoPools(js: seq<Journey>, reduction: real, maxPools: int)
    requires forall i :: 0 <= i < |js| ==> js[i].distance >= 0.0
    ensures OptimalPools(CalculateFleetCompliance(js, reduction).vessels, maxPools) == []
  {
    FleetRowsWellFormed(js, reduction);
    FleetDistancesNonNegative(js, reduction);
    NoPoolsInSharedTargetTable(CalculateFleetCompliance(js, reduction).vessels, maxPools);
  }
}
