/**
 * The candidate pipeline of the optimisation request: refuse an empty
 * market list, compute distances, keep the markets within the maximum
 * distance or else fall back to the five closest ones (tagging those market
 * objects in place), price every candidate, run the decision engine and
 * project its ranking into the response.
 *
 * The market list and the distance provider's reply are inputs; fetching
 * them is I/O and not modelled.
 */
module Optimize {
  import opened Common
  import opened Sorting
  import opened Market
  import opened Distance
  import opened Profit
  import opened Decision

  /** The request body after sanitising; `customRatePerKm` is `customVehicle?.ratePerKm`. */
  datatype Request = Request(
    crop: string, quantity: real, vehicleType: string, source: LatLng, customRatePerKm: Option<real>)

  /** What the request validation admits. */
  predicate ValidRequest(req: Request) {
    && req.crop != ""
    && 0.1 <= req.quantity <= 1000.0
    && req.vehicleType in VehicleRates
    && -90.0 <= req.source.lat <= 90.0
    && -180.0 <= req.source.lng <= 180.0
  }

  /** `customVehicle?.ratePerKm || null`: a missing or zero rate is no custom rate. */
  function CustomVehicleRate(ratePerKm: Option<real>): (rate: Option<real>)
    ensures rate.Some? <==> ratePerKm.Some? && ratePerKm.value != 0.0
    ensures rate.Some? ==> rate == ratePerKm
  {
    match ratePerKm
    case Some(r) => if r != 0.0 then Some(r) else None
    case None => None
  }

  /** The rate the response reports: `customVehicleRate || getVehicleRate(vehicleType)`. */
  function ReportedVehicleRate(customRate: Option<real>, vehicleType: string): (rate: real)
    ensures customRate.Some? && customRate.value != 0.0 ==> rate == customRate.value
    ensures customRate.None? || customRate.value == 0.0 ==> rate == GetVehicleRate(vehicleType)
  {
    if customRate.Some? && customRate.value != 0.0 then customRate.value else GetVehicleRate(vehicleType)
  }

  /** The custom-rate choice is the one `calculateProfit` prices with. */
  lemma ReportedRateIsPricedRate(ratePerKm: Option<real>, vehicleType: string)
    ensures ReportedVehicleRate(CustomVehicleRate(ratePerKm), vehicleType)
         == EffectiveRate(vehicleType, CustomVehicleRate(ratePerKm))
  {
  }

  /**
   * `parseInt(process.env.MAX_MANDI_DISTANCE_KM) || 100`. The setting is the
   * parsed integer, None where it does not parse (NaN).
   */
  function MaxDistance(setting: Option<int>): (km: int)
    ensures setting.Some? && setting.value != 0 ==> km == setting.value
    ensures setting.None? || setting.value == 0 ==> km == 100
  {
    match setting
    case Some(v) => if v != 0 then v else 100
    case None => 100
  }

  /** How many of the closest markets the fallback takes. */
  const FallbackCount: nat := 5

  function ResultDistance(r: DistanceResult): real {
    r.distance
  }

  /** `[...mandiDistances].sort((a, b) => a.distance - b.distance).slice(0, 5)`. */
  function ClosestCandidates(results: seq<DistanceResult>): (closest: seq<DistanceResult>)
    ensures |closest| == if |results| < FallbackCount then |results| else FallbackCount
    ensures closest == SortBy(results, ResultDistance)[..|closest|]
    ensures multiset(closest) <= multiset(results)
    ensures forall x :: x in closest ==> x in results
    ensures forall i, j :: 0 <= i < j < |closest| ==> closest[i].distance <= closest[j].distance
    ensures forall x, y :: x in closest && y in SortBy(results, ResultDistance)[|closest|..] ==> x.distance <= y.distance
  {
    var sorted := SortBy(results, ResultDistance);
    var n := if |results| < FallbackCount then |results| else FallbackCount;
    var closest := sorted[..n];
    PrefixOfPermutation(sorted, results, n);
    forall i, j | 0 <= i < j < |closest| ensures closest[i].distance <= closest[j].distance {
      assert ResultDistance(sorted[i]) <= ResultDistance(sorted[j]);
    }
    forall x, y | x in closest && y in sorted[n..] ensures x.distance <= y.distance {
      PrefixHoldsSmallest(results, ResultDistance, n, x, y);
    }
    closest
  }

  /** The candidates: the in-range results when there are any, the closest ones otherwise. */
  function Candidates(results: seq<DistanceResult>, maxDistance: real): (candidates: seq<DistanceResult>)
    ensures FilterByMaxDistance(results, maxDistance) != [] ==> candidates == FilterByMaxDistance(results, maxDistance)
    ensures FilterByMaxDistance(results, maxDistance) == [] ==> candidates == ClosestCandidates(results)
    ensures candidates == [] <==> results == []
  {
    var nearby := FilterByMaxDistance(results, maxDistance);
    if nearby != [] then nearby
    else
      assert results != [] ==> results[0] in results;
      ClosestCandidates(results)
  }

  /**
   * The distance the tagging loop leaves in `m.originalDistance` after
   * visiting `s` in order: that of the last entry for `m`, None if there is none.
   */
  function LastDistance(s: seq<DistanceResult>, m: Mandi): (d: Option<real>)
    ensures d.None? <==> forall x :: x in s ==> x.destination != m
    ensures d.Some? ==> exists x :: x in s && x.destination == m && x.distance == d.value
  {
    if s == [] then None
    else if s[|s| - 1].destination == m then Some(s[|s| - 1].distance)
    else
      var front := s[..|s| - 1];
      assert s == front + [s[|s| - 1]];
      LastDistance(front, m)
  }

  /** When no market occurs twice, each entry's own distance is the one recorded. */
  lemma {:induction false} LastDistanceOfDistinct(s: seq<DistanceResult>, i: nat)
    requires forall j, k :: 0 <= j < k < |s| ==> s[j].destination != s[k].destination
    requires i < |s|
    ensures LastDistance(s, s[i].destination) == Some(s[i].distance)
  {
    if i < |s| - 1 {
      var front := s[..|s| - 1];
      assert front[i] == s[i];
      LastDistanceOfDistinct(front, i);
    }
  }

  /** One more step of the tagging loop. */
  lemma LastDistanceExtend(s: seq<DistanceResult>, i: nat, m: Mandi)
    requires i < |s|
    ensures LastDistance(s[..i + 1], m)
         == if s[i].destination == m then Some(s[i].distance) else LastDistance(s[..i], m)
  {
    assert s[..i + 1][..i] == s[..i];
  }

  datatype OptimizeError = NoMandisFound

  /**
   * The tag fields of `m`: set from `tag` when the loop visited `m`, as
   * they were (`wasFallback`, `wasDistance`) otherwise.
   */
  predicate TagState(m: Mandi, tag: Option<real>, wasFallback: bool, wasDistance: Option<real>)
    reads m
  {
    if tag.Some? then m.isFallback && m.originalDistance == tag
    else m.isFallback == wasFallback && m.originalDistance == wasDistance
  }

  /**
   * Lines 44-71 of the controller on the computed distances: the in-range
   * results if any; otherwise the closest five, each of whose market
   * objects is tagged in place with `isFallback` and `originalDistance`.
   * Markets that are not tagged keep their fields.
   */
  method SelectCandidates(mandiDistances: seq<DistanceResult>, maxDistance: real)
    returns (nearby: Result<seq<DistanceResult>, OptimizeError>)
    modifies set r | r in mandiDistances :: r.destination
    ensures nearby.Failure? <==> mandiDistances == []
    ensures nearby.Success? ==> nearby.value == Candidates(mandiDistances, maxDistance)
    ensures FilterByMaxDistance(mandiDistances, maxDistance) != [] ==> forall r :: r in mandiDistances ==>
      r.destination.isFallback == old(r.destination.isFallback)
      && r.destination.originalDistance == old(r.destination.originalDistance)
    ensures FilterByMaxDistance(mandiDistances, maxDistance) == [] ==> forall r :: r in mandiDistances ==>
      TagState(r.destination, LastDistance(ClosestCandidates(mandiDistances), r.destination),
               old(r.destination.isFallback), old(r.destination.originalDistance))
  {
    var filtered := FilterByMaxDistance(mandiDistances, maxDistance);
    if filtered != [] {
      assert filtered[0] in mandiDistances;
      return Success(filtered);
    }
    var closest := ClosestCandidates(mandiDistances);
    assert |closest| == 0 <==> mandiDistances == [];
    if |closest| == 0 {
      return Failure(NoMandisFound);
    }
    TagFallbacks(closest, mandiDistances);
    nearby := Success(filtered + closest);
    assert filtered + closest == closest;
  }

  /**
   * The `forEach` of the fallback: each visited market gets `isFallback`
   * and, as `originalDistance`, the distance of its last visit. `all` is any
   * list of distance results; the markets of its entries that the loop does
   * not visit keep their fields.
   */
  method TagFallbacks(closest: seq<DistanceResult>, ghost all: seq<DistanceResult>)
    modifies set r | r in closest :: r.destination
    ensures forall r :: r in closest ==>
      r.destination.isFallback && r.destination.originalDistance == LastDistance(closest, r.destination)
    ensures forall r :: r in all ==>
      TagState(r.destination, LastDistance(closest, r.destination),
               old(r.destination.isFallback), old(r.destination.originalDistance))
  {
    var i := 0;
    while i < |closest|
      invariant 0 <= i <= |closest|
      invariant forall r :: r in closest ==>
        TagState(r.destination, LastDistance(closest[..i], r.destination),
                 old(r.destination.isFallback), old(r.destination.originalDistance))
      invariant forall r :: r in all ==>
        TagState(r.destination, LastDistance(closest[..i], r.destination),
                 old(r.destination.isFallback), old(r.destination.originalDistance))
    {
      var m := closest[i];
      m.destination.isFallback := true;
      m.destination.originalDistance := Some(m.distance);
      forall r | r in closest || r in all
        ensures LastDistance(closest[..i + 1], r.destination)
             == if m.destination == r.destination then Some(m.distance) else LastDistance(closest[..i], r.destination)
      {
        LastDistanceExtend(closest, i, r.destination);
      }
      i := i + 1;
    }
    assert closest[..|closest|] == closest;
    forall r | r in closest ensures LastDistance(closest, r.destination).Some? {
    }
  }

  /** One row of the response's `results`. */
  datatype ResultRow = ResultRow(
    mandi: string, distance: real, price: real, revenue: int, transportCost: int, handlingCost: int,
    totalCost: int, netProfit: int, profitPerQuintal: int, profitPercentage: Option<real>)

  function ProjectResult(r: ProfitResult): ResultRow {
    ResultRow(r.mandiName, r.distance, r.price, r.revenue, r.transportCost, r.handlingCost,
              r.totalCost, r.netProfit, r.profitPerQuintal, r.profitPercentage)
  }

  /** `decision.allOptions.map(...)`: one row per option, in ranking order. */
  function ProjectResults(options: seq<ProfitResult>): (rows: seq<ResultRow>)
    ensures |rows| == |options|
    ensures forall i :: 0 <= i < |options| ==> rows[i] == ProjectResult(options[i])
  {
    seq(|options|, i requires 0 <= i < |options| => ProjectResult(options[i]))
  }

  /** The projected rows keep the ranking: net profit never rises down the list. */
  lemma ProjectedRowsRanked(results: seq<ProfitResult>, crop: Option<string>)
    requires results != []
    ensures var rows := ProjectResults(FindBestMandi(results, crop).value.allOptions);
      forall i, j :: 0 <= i < j < |rows| ==> rows[i].netProfit >= rows[j].netProfit
  {
    DecisionRanking(results, crop);
  }

  /** The `optimization` part of the response. */
  datatype Optimization = Optimization(
    bestMandi: BestSummary,
    localMandi: Option<LocalSummary>,
    extraProfit: int,
    recommendation: Recommendation,
    worthExtraDistance: Worthiness,
    perishability: Option<PerishabilityComparison>)

  datatype Metadata = Metadata(totalMandisAnalyzed: nat, maxDistanceKm: int, vehicleRate: real)

  datatype Response = Response(optimization: Optimization, results: seq<ResultRow>, metadata: Metadata)

  function OptimizationOf(d: Decision): Optimization {
    Optimization(d.bestMandi, d.localMandi, d.extraProfit, d.recommendation, d.worthExtraDistance, d.perishability)
  }

  /**
   * `optimizeTrip` from the fetched market list on. `reply` is how the
   * distance lookup ended, `greatCircle` the great-circle formula, and
   * `maxDistanceSetting` the parsed configuration value.
   */
  method OptimizeTrip(req: Request, mandis: seq<Mandi>, reply: ProviderReply,
                      greatCircle: (LatLng, LatLng) -> real, maxDistanceSetting: Option<int>)
    returns (r: Result<Response, OptimizeError>)
    requires ValidRequest(req)
    modifies set m | m in mandis
    ensures r.Failure? <==> mandis == []
    ensures r.Success? ==>
      var distances := CalculateDistances(reply, greatCircle, req.source, mandis);
      var maxDistance := MaxDistance(maxDistanceSetting);
      var customRate := CustomVehicleRate(req.customRatePerKm);
      var profits := CalculateMultipleProfits(Candidates(distances, maxDistance as real), req.quantity,
                                              req.vehicleType, customRate);
      var d := FindBestMandi(profits, Some(req.crop));
      && d.Success?
      && r.value.optimization == OptimizationOf(d.value)
      && r.value.results == ProjectResults(d.value.allOptions)
      && r.value.metadata == Metadata(|profits|, maxDistance, ReportedVehicleRate(customRate, req.vehicleType))
    ensures var distances := CalculateDistances(reply, greatCircle, req.source, mandis);
      FilterByMaxDistance(distances, MaxDistance(maxDistanceSetting) as real) != [] ==>
        forall m :: m in mandis ==> m.isFallback == old(m.isFallback) && m.originalDistance == old(m.originalDistance)
    ensures var distances := CalculateDistances(reply, greatCircle, req.source, mandis);
      FilterByMaxDistance(distances, MaxDistance(maxDistanceSetting) as real) == [] ==>
        forall m :: m in mandis ==>
          TagState(m, LastDistance(ClosestCandidates(distances), m), old(m.isFallback), old(m.originalDistance))
  {
    if |mandis| == 0 {
      return Failure(NoMandisFound);
    }
    var distances := CalculateDistances(reply, greatCircle, req.source, mandis);
    assert forall x :: x in distances ==> x.destination in mandis;
    forall m | m in mandis ensures exists x :: x in distances && x.destination == m {
      var i :| 0 <= i < |mandis| && mandis[i] == m;
      assert distances[i] in distances;
    }
    var maxDistance := MaxDistance(maxDistanceSetting);
    var selected := SelectCandidates(distances, maxDistance as real);
    // The second emptiness check of the fallback cannot fire here: there is one distance per market.
    assert selected.Success?;
    var nearby := selected.value;
    var customRate := CustomVehicleRate(req.customRatePerKm);
    var profits := CalculateMultipleProfits(nearby, req.quantity, req.vehicleType, customRate);
    assert nearby != [];
    var decision := FindBestMandi(profits, Some(req.crop));
    var d := decision.value;
    r := Success(Response(
      OptimizationOf(d),
      ProjectResults(d.allOptions),
      Metadata(|profits|, maxDistance, ReportedVehicleRate(customRate, req.vehicleType))));
  }
}
