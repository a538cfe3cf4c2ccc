/**
 * The decision engine: rank the profit results by net profit, pick the
 * best and the nearest ("local") market, judge whether the extra distance
 * pays (at least 50 rupees per extra km), choose one of four
 * recommendations, and fold in the perishability of the crop.
 */
module Decision {
  import opened Common
  import opened Sorting
  import opened Profit
  import opened Perishability

  /** Ascending by this key is descending by net profit: the comparator `b.netProfit - a.netProfit`. */
  function ProfitKey(r: ProfitResult): real {
    -(r.netProfit as real)
  }

  /** The comparator `a.distance - b.distance`. */
  function DistanceKey(r: ProfitResult): real {
    r.distance
  }

  /** The results sorted by net profit, highest first, on a copy. */
  function SortByProfit(results: seq<ProfitResult>): (sorted: seq<ProfitResult>)
    ensures |sorted| == |results| && multiset(sorted) == multiset(results)
    ensures forall i, j :: 0 <= i < j < |sorted| ==> sorted[i].netProfit >= sorted[j].netProfit
  {
    var sorted := SortBy(results, ProfitKey);
    assert forall i, j :: 0 <= i < j < |sorted| ==> ProfitKey(sorted[i]) <= ProfitKey(sorted[j]);
    sorted
  }

  /** Results with equal net profit keep their input order. */
  lemma SortByProfitIsStable(results: seq<ProfitResult>, netProfit: int)
    ensures WithKey(SortByProfit(results), ProfitKey, -(netProfit as real))
         == WithKey(results, ProfitKey, -(netProfit as real))
  {
    SortByIsStable(results, ProfitKey, -(netProfit as real));
  }

  /** `findLocalMandi`: the head of a copy sorted by distance, None for no results. */
  function FindLocalMandi(results: seq<ProfitResult>): (local: Option<ProfitResult>)
    ensures local.None? <==> results == []
    ensures local.Some? ==> local.value == results[FirstMinIndex(results, DistanceKey)]
    ensures local.Some? ==> forall r :: r in results ==> local.value.distance <= r.distance
  {
    if results == [] then None
    else
      SortByHead(results, DistanceKey);
      var k := FirstMinIndex(results, DistanceKey);
      assert forall j :: 0 <= j < |results| ==> DistanceKey(results[k]) <= DistanceKey(results[j]);
      Some(SortBy(results, DistanceKey)[0])
  }

  /**
   * `calculateWorthiness`. `BestIsNearest` is the case without a separate
   * local market. A zero extra distance divides by zero, which yields an
   * infinite ratio (or NaN); `profitPerExtraKm` is then None.
   */
  datatype Worthiness =
    | BestIsNearest
    | Compared(worth: bool, profitPerExtraKm: Option<int>, extraDistance: real, extraProfit: int)

  const WorthThreshold: real := 50.0

  predicate IsWorth(w: Worthiness) {
    w.BestIsNearest? || w.worth
  }

  function CalculateWorthiness(best: ProfitResult, local: Option<ProfitResult>): (w: Worthiness)
    ensures w.BestIsNearest? <==> local.None? || best.mandiName == local.value.mandiName
    ensures w.Compared? ==>
      && w.extraProfit == best.netProfit - local.value.netProfit
      && w.extraDistance == Round1(best.distance - local.value.distance)
    ensures w.Compared? && best.distance > local.value.distance ==>
      (w.worth <==> (w.extraProfit as real) >= WorthThreshold * (best.distance - local.value.distance))
    ensures w.Compared? && best.distance < local.value.distance ==>
      (w.worth <==> (w.extraProfit as real) <= WorthThreshold * (best.distance - local.value.distance))
    ensures w.Compared? && best.distance == local.value.distance ==>
      (w.worth <==> w.extraProfit > 0) && w.profitPerExtraKm.None?
    ensures w.Compared? && best.distance != local.value.distance ==>
      w.profitPerExtraKm == Some(Round(w.extraProfit as real / (best.distance - local.value.distance)))
  {
    if local.None? || best.mandiName == local.value.mandiName then BestIsNearest
    else
      var extraDistance := best.distance - local.value.distance;
      var extraProfit := best.netProfit - local.value.netProfit;
      if extraDistance == 0.0 then
        // Infinity >= 50 holds; -Infinity and NaN compare false.
        Compared(extraProfit > 0, None, Round1(extraDistance), extraProfit)
      else
        var profitPerExtraKm := extraProfit as real / extraDistance;
        RatioThreshold(extraProfit as real, extraDistance, WorthThreshold);
        Compared(profitPerExtraKm >= WorthThreshold, Some(Round(profitPerExtraKm)), Round1(extraDistance),
                 Round(extraProfit as real))
  }

  /** A ratio against a threshold, multiplied out by the sign of the divisor. */
  lemma RatioThreshold(p: real, d: real, t: real)
    requires d != 0.0
    ensures d > 0.0 ==> (p / d >= t <==> p >= t * d)
    ensures d < 0.0 ==> (p / d >= t <==> p <= t * d)
  {
    assert p == (p / d) * d;
    if d > 0.0 {
      if p / d >= t {
        assert (p / d - t) * d >= 0.0;
      } else {
        assert (t - p / d) * d > 0.0;
      }
    } else {
      if p / d >= t {
        assert (p / d - t) * d <= 0.0;
      } else {
        assert (t - p / d) * d < 0.0;
      }
    }
  }

  /** `generateRecommendation`, as which of its four messages it gives. */
  datatype Recommendation = GoAhead | TravelForMore | SlightlyBetter | StickLocal

  function GenerateRecommendation(best: ProfitResult, local: Option<ProfitResult>, extraProfit: int)
    : (rec: Recommendation)
    ensures rec == GoAhead <==> local.None? || best.mandiName == local.value.mandiName
    ensures rec == TravelForMore <==> rec != GoAhead && extraProfit > 500
    ensures rec == SlightlyBetter <==> rec != GoAhead && 0 < extraProfit <= 500
    ensures rec == StickLocal <==> rec != GoAhead && extraProfit <= 0
  {
    if local.None? || best.mandiName == local.value.mandiName then GoAhead
    else if extraProfit > 500 then TravelForMore
    else if extraProfit > 0 then SlightlyBetter
    else StickLocal
  }

  /** `getTopOptions` takes `slice(0, n)`; this is where that slice ends. */
  function SliceEnd(length: nat, n: int): (end: nat)
    ensures end <= length
    ensures n >= 0 ==> end == if n <= length then n else length
    ensures n < 0 ==> end == if length + n >= 0 then length + n else 0
  {
    if n >= 0 then (if n <= length then n else length)
    else if length + n >= 0 then length + n else 0
  }

  const DefaultTopOptions: int := 3

  /** `getTopOptions`: the best `n` results by net profit. */
  function GetTopOptions(results: seq<ProfitResult>, n: int := DefaultTopOptions): (top: seq<ProfitResult>)
    ensures |top| == SliceEnd(|results|, n)
    ensures top == SortByProfit(results)[..|top|]
    ensures multiset(top) <= multiset(results)
    ensures forall i, j :: 0 <= i < j < |top| ==> top[i].netProfit >= top[j].netProfit
    ensures forall x, y :: x in top && y in SortByProfit(results)[|top|..] ==> x.netProfit >= y.netProfit
  {
    var sorted := SortByProfit(results);
    var top := sorted[..SliceEnd(|results|, n)];
    DescendingPrefix(sorted, |top|);
    top
  }

  /** A prefix of a ranking taken by net profit outranks the rest. */
  lemma DescendingPrefix(sorted: seq<ProfitResult>, n: nat)
    requires n <= |sorted|
    requires forall i, j :: 0 <= i < j < |sorted| ==> sorted[i].netProfit >= sorted[j].netProfit
    ensures multiset(sorted[..n]) <= multiset(sorted)
    ensures forall x, y :: x in sorted[..n] && y in sorted[n..] ==> x.netProfit >= y.netProfit
  {
    assert sorted == sorted[..n] + sorted[n..];
    forall x, y | x in sorted[..n] && y in sorted[n..] ensures x.netProfit >= y.netProfit {
      var i :| 0 <= i < n && sorted[..n][i] == x;
      var j :| 0 <= j < |sorted| - n && sorted[n..][j] == y;
      assert sorted[i] == x && sorted[n + j] == y;
    }
  }

  /** `compareMandis`: who wins on profit, price and distance, and the absolute differences. */
  datatype Comparison = Comparison(
    winner: string,
    profitDifference: int,
    distanceDifference: real,
    priceDifference: real,
    profitWinner: string,
    priceWinner: string,
    distanceWinner: string)

  function CompareMandis(first: ProfitResult, second: ProfitResult): (c: Comparison)
    ensures c.winner == (if first.netProfit > second.netProfit then first.mandiName else second.mandiName)
    ensures c.profitWinner == c.winner
    ensures c.priceWinner == (if first.price > second.price then first.mandiName else second.mandiName)
    ensures c.distanceWinner == (if first.distance < second.distance then first.mandiName else second.mandiName)
    ensures c.profitDifference >= 0 && (c.profitDifference == first.netProfit - second.netProfit
                                      || c.profitDifference == second.netProfit - first.netProfit)
    ensures c.distanceDifference == Abs(first.distance - second.distance)
    ensures c.priceDifference == Abs(first.price - second.price)
  {
    var profitDiff := first.netProfit - second.netProfit;
    var distanceDiff := first.distance - second.distance;
    var priceDiff := first.price - second.price;
    var profitWinner := if profitDiff > 0 then first.mandiName else second.mandiName;
    Comparison(
      profitWinner,
      if profitDiff < 0 then -profitDiff else profitDiff,
      Abs(distanceDiff),
      Abs(priceDiff),
      profitWinner,
      if priceDiff > 0.0 then first.mandiName else second.mandiName,
      if distanceDiff < 0.0 then first.mandiName else second.mandiName)
  }

  /**
   * Swapping the two markets keeps the differences and, unless their net
   * profits tie, the winner; a tie goes to whichever is passed second.
   */
  lemma CompareMandisSwapped(a: ProfitResult, b: ProfitResult)
    ensures CompareMandis(a, b).profitDifference == CompareMandis(b, a).profitDifference
    ensures CompareMandis(a, b).distanceDifference == CompareMandis(b, a).distanceDifference
    ensures CompareMandis(a, b).priceDifference == CompareMandis(b, a).priceDifference
    ensures a.netProfit != b.netProfit ==> CompareMandis(a, b).winner == CompareMandis(b, a).winner
    ensures a.netProfit == b.netProfit ==> CompareMandis(a, b).winner == b.mandiName
  {
  }

  /** The best market as the decision reports it. */
  datatype BestSummary = BestSummary(
    name: string, netProfit: int, distance: real, price: real, profitPerQuintal: int,
    profitPercentage: Option<real>)

  /** The local market as the decision reports it. */
  datatype LocalSummary = LocalSummary(name: string, netProfit: int, distance: real, price: real)

  function SummarizeBest(r: ProfitResult): BestSummary {
    BestSummary(r.mandiName, r.netProfit, r.distance, r.price, r.profitPerQuintal, r.profitPercentage)
  }

  function SummarizeLocal(r: ProfitResult): LocalSummary {
    LocalSummary(r.mandiName, r.netProfit, r.distance, r.price)
  }

  /** The perishability fold-in: both analyses and whether selling locally deserves a look. */
  datatype PerishabilityComparison = PerishabilityComparison(
    bestMandi: Analysis, localMandi: Option<Analysis>, shouldConsiderLocal: bool)

  datatype Decision = Decision(
    bestMandi: BestSummary,
    localMandi: Option<LocalSummary>,
    extraProfit: int,
    extraProfitVsWorst: int,
    isLocalBest: bool,
    worthExtraDistance: Worthiness,
    recommendation: Recommendation,
    perishability: Option<PerishabilityComparison>,
    allOptions: seq<ProfitResult>,
    totalOptions: nat)

  /** The error `findBestMandi` throws for an empty list. */
  datatype DecisionError = NoMandiOptions

  /** A crop is given when it is present and not the empty string (which is falsy). */
  predicate CropGiven(crop: Option<string>) {
    crop.Some? && crop.value != ""
  }

  function ComparePerishability(crop: string, best: ProfitResult, local: Option<ProfitResult>)
    : (p: PerishabilityComparison)
    ensures p.bestMandi == AnalyzePerishability(crop, best)
    ensures p.localMandi.Some? <==> local.Some?
    ensures local.Some? ==> p.localMandi == Some(AnalyzePerishability(crop, local.value))
    ensures p.shouldConsiderLocal <==>
      p.bestMandi.spoilage.riskLevel == High && local.Some? && p.localMandi.value.spoilage.riskLevel != High
  {
    var bestAnalysis := AnalyzePerishability(crop, best);
    var localAnalysis := match local
      case Some(l) => Some(AnalyzePerishability(crop, l))
      case None => None;
    PerishabilityComparison(
      bestAnalysis, localAnalysis,
      bestAnalysis.spoilage.riskLevel == High && localAnalysis.Some? && localAnalysis.value.spoilage.riskLevel != High)
  }

  /** `findBestMandi`. */
  function FindBestMandi(results: seq<ProfitResult>, crop: Option<string>): (r: Result<Decision, DecisionError>)
    ensures r.Failure? <==> results == []
    ensures r.Success? ==>
      var d := r.value;
      && d.allOptions == SortByProfit(results) && d.totalOptions == |results|
      && d.bestMandi == SummarizeBest(d.allOptions[0])
      && d.localMandi == Some(SummarizeLocal(FindLocalMandi(d.allOptions).value))
      && d.extraProfit == d.bestMandi.netProfit - d.localMandi.value.netProfit
      && d.extraProfitVsWorst == d.bestMandi.netProfit - d.allOptions[|results| - 1].netProfit
      && (d.isLocalBest <==> d.bestMandi.name == d.localMandi.value.name)
      && d.worthExtraDistance == CalculateWorthiness(d.allOptions[0], FindLocalMandi(d.allOptions))
      && d.recommendation == GenerateRecommendation(d.allOptions[0], FindLocalMandi(d.allOptions), d.extraProfit)
      && (d.perishability.None? <==> !CropGiven(crop))
      && (d.perishability.Some? ==>
            d.perishability.value == ComparePerishability(crop.value, d.allOptions[0], FindLocalMandi(d.allOptions)))
  {
    if results == [] then Failure(NoMandiOptions)
    else
      var sorted := SortByProfit(results);
      var best := sorted[0];
      var worst := sorted[|sorted| - 1];
      var local := FindLocalMandi(sorted);
      var extraProfitVsWorst := best.netProfit - worst.netProfit;
      var extraProfitVsLocal := match local case Some(l) => best.netProfit - l.netProfit case None => 0;
      var perishability := if CropGiven(crop) then Some(ComparePerishability(crop.value, best, local)) else None;
      Success(Decision(
        SummarizeBest(best),
        match local case Some(l) => Some(SummarizeLocal(l)) case None => None,
        extraProfitVsLocal,
        extraProfitVsWorst,
        match local case Some(l) => best.mandiName == l.mandiName case None => false,
        CalculateWorthiness(best, local),
        GenerateRecommendation(best, local, extraProfitVsLocal),
        perishability,
        sorted,
        |sorted|))
  }

  /** The ranking: a reordering of the input, highest net profit first, the best one at least as good as any. */
  lemma DecisionRanking(results: seq<ProfitResult>, crop: Option<string>)
    requires results != []
    ensures var d := FindBestMandi(results, crop).value;
      && multiset(d.allOptions) == multiset(results)
      && (forall i, j :: 0 <= i < j < |d.allOptions| ==> d.allOptions[i].netProfit >= d.allOptions[j].netProfit)
      && (forall x :: x in results ==> d.bestMandi.netProfit >= x.netProfit)
      && (forall x :: x in results ==> d.bestMandi.netProfit - d.extraProfitVsWorst <= x.netProfit)
      && d.extraProfitVsWorst >= 0
  {
    SortedByProfitBounds(results);
  }

  lemma SortedByProfitBounds(results: seq<ProfitResult>)
    requires results != []
    ensures var sorted := SortByProfit(results);
      forall x :: x in results ==> sorted[0].netProfit >= x.netProfit >= sorted[|sorted| - 1].netProfit
  {
    var sorted := SortByProfit(results);
    forall x | x in results
      ensures sorted[0].netProfit >= x.netProfit >= sorted[|sorted| - 1].netProfit
    {
      assert x in multiset(sorted);
      var i :| 0 <= i < |sorted| && sorted[i] == x;
    }
  }

  /** The local market is a nearest one and earns no more than the best. */
  lemma DecisionLocal(results: seq<ProfitResult>, crop: Option<string>)
    requires results != []
    ensures var d := FindBestMandi(results, crop).value;
      && (forall x :: x in results ==> d.localMandi.value.distance <= x.distance)
      && d.extraProfit >= 0
  {
    var sorted := SortByProfit(results);
    var local := FindLocalMandi(sorted).value;
    forall x | x in results ensures local.distance <= x.distance {
      assert x in multiset(sorted);
    }
    assert local in multiset(sorted);
    assert local in multiset(results);
    DecisionRanking(results, crop);
  }

  /**
   * The local tie-break follows profit order, so a best market whose name
   * differs from the local one is strictly farther away: the worthiness
   * ratio never divides by zero.
   */
  lemma {:induction false} BestFartherThanLocal(sorted: seq<ProfitResult>)
    requires sorted != []
    requires sorted[0].mandiName != FindLocalMandi(sorted).value.mandiName
    ensures sorted[0].distance > FindLocalMandi(sorted).value.distance
  {
    var local := FindLocalMandi(sorted).value;
    var k := FirstMinIndex(sorted, DistanceKey);
    assert local == sorted[k];
    assert k != 0;
    assert DistanceKey(sorted[0]) > DistanceKey(sorted[k]);
  }

  /** So, when the best is not the nearest, it is worth it exactly when it gains 50 per extra km. */
  lemma WorthinessOfDecision(results: seq<ProfitResult>, crop: Option<string>)
    requires results != []
    ensures var d := FindBestMandi(results, crop).value;
      var w := d.worthExtraDistance;
      && (w.BestIsNearest? <==> d.isLocalBest)
      && (w.Compared? ==>
            && d.bestMandi.distance > d.localMandi.value.distance
            && w.profitPerExtraKm.Some?
            && (w.worth <==> d.extraProfit as real >= WorthThreshold * (d.bestMandi.distance - d.localMandi.value.distance)))
  {
    var sorted := SortByProfit(results);
    if sorted[0].mandiName != FindLocalMandi(sorted).value.mandiName {
      BestFartherThanLocal(sorted);
    }
  }

  /** `StickLocal` is reached only when the local market earns exactly as much as the best. */
  lemma StickLocalOnlyOnTie(results: seq<ProfitResult>, crop: Option<string>)
    requires results != []
    ensures var d := FindBestMandi(results, crop).value;
      d.recommendation == StickLocal ==> d.extraProfit == 0 && !d.isLocalBest
  {
    DecisionLocal(results, crop);
  }

  /**
   * Two markets: 21950 net at 10 km and, under another name, 25200 net at
   * 80 km. The far one is best and earns 3250 more, but that is only
   * about 46 rupees per extra km: not worth it, yet still "travel" advice.
   */
  lemma FarMarketBelowThreshold(near: ProfitResult, far: ProfitResult)
    requires near.mandiName != far.mandiName
    requires near.netProfit == 21950 && near.distance == 10.0
    requires far.netProfit == 25200 && far.distance == 80.0
    ensures var d := FindBestMandi([near, far], None).value;
      && d.bestMandi.name == far.mandiName
      && d.localMandi.value.name == near.mandiName
      && d.extraProfit == 3250
      && !IsWorth(d.worthExtraDistance)
      && d.recommendation == TravelForMore
      && d.perishability.None?
  {
    var results := [near, far];
    var sorted := SortByProfit(results);
    assert multiset(sorted) == multiset{near, far};
    assert sorted[0].netProfit >= sorted[1].netProfit;
    assert sorted[0] in multiset(sorted) && sorted[1] in multiset(sorted);
    assert sorted[0] == far && sorted[1] == near;
    assert FirstMinIndex(sorted, DistanceKey) == 1;
    WorthinessOfDecision(results, None);
  }
}
