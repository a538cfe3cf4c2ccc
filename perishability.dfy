/**
 * The perishability model: a per-crop rating table, a piecewise-linear
 * spoilage estimate beyond the crop's safe distance (capped at 50%), the
 * risk tier derived from it, and whether a warning is raised.
 */
module Perishability {
  import opened Common
  import opened Profit

  datatype RiskLevel = Low | Medium | High

  /** A crop's rating: perishability level, safe distance in km, and the spoilage fraction per 50 km beyond it. */
  datatype Rating = Rating(level: RiskLevel, safeDistance: real, spoilageRate: real, shelfLife: string)

  const DefaultRating: Rating := Rating(Medium, 100.0, 0.12, "1-2 weeks")

  /** The crops the rating table lists. */
  datatype Crop =
    Tomato | Lettuce | Spinach | Cucumber | Potato | Onion | Carrot | Cabbage | Rice | Wheat | Corn | Soybean

  /** The table key of each crop. */
  function CropKey(crop: Crop): string {
    match crop
    case Tomato => "tomato"
    case Lettuce => "lettuce"
    case Spinach => "spinach"
    case Cucumber => "cucumber"
    case Potato => "potato"
    case Onion => "onion"
    case Carrot => "carrot"
    case Cabbage => "cabbage"
    case Rice => "rice"
    case Wheat => "wheat"
    case Corn => "corn"
    case Soybean => "soybean"
  }

  /** The table entry of each crop. */
  function CropRating(crop: Crop): (rating: Rating)
    ensures rating.safeDistance > 0.0 && rating.spoilageRate > 0.0
  {
    match crop
    case Tomato => Rating(High, 50.0, 0.20, "3-7 days")
    case Lettuce => Rating(High, 30.0, 0.25, "3-5 days")
    case Spinach => Rating(High, 30.0, 0.25, "3-5 days")
    case Cucumber => Rating(High, 40.0, 0.20, "7-10 days")
    case Potato => Rating(Medium, 150.0, 0.10, "2-3 months")
    case Onion => Rating(Medium, 150.0, 0.10, "1-2 months")
    case Carrot => Rating(Medium, 120.0, 0.12, "2-4 weeks")
    case Cabbage => Rating(Medium, 100.0, 0.15, "2-3 weeks")
    case Rice => Rating(Low, 300.0, 0.02, "6-12 months")
    case Wheat => Rating(Low, 300.0, 0.02, "6-12 months")
    case Corn => Rating(Low, 250.0, 0.05, "3-6 months")
    case Soybean => Rating(Low, 300.0, 0.02, "6-12 months")
  }

  /** The crop a table key names, if any. */
  function LookupCrop(key: string): (crop: Option<Crop>)
    ensures crop.Some? ==> CropKey(crop.value) == key
    ensures crop.None? ==> forall c: Crop :: CropKey(c) != key
  {
    if key == "tomato" then Some(Tomato)
    else if key == "lettuce" then Some(Lettuce)
    else if key == "spinach" then Some(Spinach)
    else if key == "cucumber" then Some(Cucumber)
    else if key == "potato" then Some(Potato)
    else if key == "onion" then Some(Onion)
    else if key == "carrot" then Some(Carrot)
    else if key == "cabbage" then Some(Cabbage)
    else if key == "rice" then Some(Rice)
    else if key == "wheat" then Some(Wheat)
    else if key == "corn" then Some(Corn)
    else if key == "soybean" then Some(Soybean)
    else None
  }

  /** Each further 50 km beyond the safe distance adds one `spoilageRate`. */
  const SpoilageStepKm: real := 50.0
  const SpoilageCapPercent: real := 50.0

  /** The crop key: `crop.toLowerCase().trim()`. */
  function NormalizeCrop(crop: string): (key: string)
    ensures |key| <= |crop|
    ensures key == [] || (!IsTrimmable(key[0]) && !IsTrimmable(key[|key| - 1]))
    ensures forall i :: 0 <= i < |key| ==> !('A' <= key[i] <= 'Z')
  {
    LowerHasNoCapitals(crop);
    TrimmedLowerHasNoCapitals(ToLower(crop));
    Trim(ToLower(crop))
  }

  lemma LowerHasNoCapitals(s: string)
    ensures forall i :: 0 <= i < |ToLower(s)| ==> !('A' <= ToLower(s)[i] <= 'Z')
  {
    forall i | 0 <= i < |ToLower(s)| ensures !('A' <= ToLower(s)[i] <= 'Z') {
      assert ToLower(s)[i] == LowerChar(s[i]);
    }
  }

  lemma TrimmedLowerHasNoCapitals(lower: string)
    requires forall i :: 0 <= i < |lower| ==> !('A' <= lower[i] <= 'Z')
    ensures forall i :: 0 <= i < |Trim(lower)| ==> !('A' <= Trim(lower)[i] <= 'Z')
  {
    TrimWindow(lower);
    var k := |lower| - |TrimStart(lower)|;
    var r := Trim(lower);
    forall i | 0 <= i < |r| ensures !('A' <= r[i] <= 'Z') {
      assert r[i] == lower[k + i];
    }
  }

  /** No two crops share a key. */
  lemma CropKeyInjective(c: Crop, d: Crop)
    requires CropKey(c) == CropKey(d)
    ensures c == d
  {
    match c
    case Tomato => assert CropKey(d)[0] == 't';
    case _ =>
  }

  lemma LookupCropIsUnique(key: string)
    ensures forall c: Crop :: CropKey(c) == key ==> LookupCrop(key) == Some(c)
  {
    forall c: Crop | CropKey(c) == key
      ensures LookupCrop(key) == Some(c)
    {
      CropKeyInjective(c, LookupCrop(key).value);
    }
  }

  /**
   * `getPerishabilityRating`: the entry of the crop the normalised name
   * names, the default entry for any other name (the key "default" included).
   */
  function GetPerishabilityRating(crop: string): (rating: Rating)
    ensures forall c: Crop :: CropKey(c) == NormalizeCrop(crop) ==> rating == CropRating(c)
    ensures (forall c: Crop :: CropKey(c) != NormalizeCrop(crop)) ==> rating == DefaultRating
    ensures rating.safeDistance > 0.0 && rating.spoilageRate > 0.0
  {
    LookupCropIsUnique(NormalizeCrop(crop));
    match LookupCrop(NormalizeCrop(crop))
    case Some(c) => CropRating(c)
    case None => DefaultRating
  }

  /** The tier of an unrounded spoilage percentage. */
  function RiskTier(percentage: real): (tier: RiskLevel)
    ensures tier == High <==> percentage >= 15.0
    ensures tier == Low <==> percentage < 5.0
  {
    if percentage >= 15.0 then High
    else if percentage >= 5.0 then Medium
    else Low
  }

  /** The unrounded spoilage percentage beyond the safe distance, computed step by step as the code does. */
  function SpoilagePercentage(rating: Rating, distance: real): (percentage: real)
    requires distance > rating.safeDistance
    ensures percentage <= SpoilageCapPercent
  {
    var excess := distance - rating.safeDistance;
    var multiplier := (excess / SpoilageStepKm).Floor;
    Min(rating.spoilageRate * 100.0 * (multiplier as real + JsRem(excess, SpoilageStepKm) / SpoilageStepKm),
        SpoilageCapPercent)
  }

  /** The steps and their remainder add up to a plain proportion: 2 × rate × excess, capped at 50. */
  lemma SpoilageIsProportional(rating: Rating, distance: real)
    requires distance > rating.safeDistance
    ensures SpoilagePercentage(rating, distance)
         == Min(2.0 * rating.spoilageRate * (distance - rating.safeDistance), SpoilageCapPercent)
  {
    var excess := distance - rating.safeDistance;
    var steps := excess / SpoilageStepKm;
    var rate := rating.spoilageRate;
    assert Trunc(steps) == steps.Floor;
    var fraction := steps.Floor as real + JsRem(excess, SpoilageStepKm) / SpoilageStepKm;
    assert fraction == steps;
    assert 100.0 * steps == 2.0 * excess;
    assert rate * 100.0 * fraction == rate * (100.0 * steps);
    assert rate * (2.0 * excess) == 2.0 * rate * excess;
  }

  /** Beyond the safe distance every rating of the table (the default included) spoils a positive share. */
  lemma SpoilagePositiveBeyondSafeDistance(rating: Rating, distance: real)
    requires rating.spoilageRate > 0.0
    requires distance > rating.safeDistance
    ensures SpoilagePercentage(rating, distance) > 0.0
  {
    SpoilageIsProportional(rating, distance);
    CappedProportionPositive(rating.spoilageRate, distance, rating.safeDistance);
  }

  lemma CappedProportionPositive(rate: real, distance: real, safe: real)
    requires rate > 0.0 && distance > safe
    ensures Min(2.0 * rate * (distance - safe), SpoilageCapPercent) > 0.0
  {
    ProportionalPositive(rate, distance, safe);
    MinPositive(2.0 * rate * (distance - safe), SpoilageCapPercent);
  }

  lemma ProportionalPositive(rate: real, distance: real, safe: real)
    requires rate > 0.0 && distance > safe
    ensures 2.0 * rate * (distance - safe) > 0.0
  {
    PositiveProduct(2.0 * rate, distance - safe);
  }

  lemma MinPositive(a: real, b: real)
    requires a > 0.0 && b > 0.0
    ensures Min(a, b) > 0.0
  {
  }

  lemma PositiveProduct(a: real, b: real)
    requires a > 0.0 && b > 0.0
    ensures a * b > 0.0
  {
  }

  /** The part of the net profit lost to a spoilage percentage. */
  function SpoiledShare(netProfit: int, percentage: real): real {
    netProfit as real * percentage / 100.0
  }

  /** What `calculateSpoilage` returns; `excessDistance` is present only beyond the safe distance. */
  datatype Spoilage = Spoilage(
    spoilagePercentage: real,
    spoilageAmount: int,
    adjustedProfit: int,
    isSafe: bool,
    riskLevel: RiskLevel,
    excessDistance: Option<int>)

  /**
   * `calculateSpoilage`. Its only caller passes a result's net profit, which
   * is already a whole number of rupees.
   */
  function CalculateSpoilage(crop: string, distance: real, netProfit: int): (s: Spoilage)
    ensures s.isSafe <==> distance <= GetPerishabilityRating(crop).safeDistance
    ensures s.isSafe ==> s == Spoilage(0.0, 0, netProfit, true, Low, None)
    ensures !s.isSafe ==>
      var rating := GetPerishabilityRating(crop);
      var percentage := SpoilagePercentage(rating, distance);
      && s.riskLevel == RiskTier(percentage)
      && s.spoilagePercentage == Round1(percentage)
      && s.spoilageAmount == Round(SpoiledShare(netProfit, percentage))
      && s.adjustedProfit == Round(netProfit as real - SpoiledShare(netProfit, percentage))
      && s.excessDistance == Some(Round(distance - rating.safeDistance))
  {
    var rating := GetPerishabilityRating(crop);
    if distance <= rating.safeDistance then
      Spoilage(0.0, 0, netProfit, true, Low, None)
    else
      var excess := distance - rating.safeDistance;
      var percentage := SpoilagePercentage(rating, distance);
      var spoilageAmount := SpoiledShare(netProfit, percentage);
      var adjustedProfit := netProfit as real - spoilageAmount;
      Spoilage(Round1(percentage), Round(spoilageAmount), Round(adjustedProfit), false,
               RiskTier(percentage), Some(Round(excess)))
  }

  /** Within the safe distance nothing spoils and the profit is kept whole. */
  lemma SafeZone(crop: string, distance: real, netProfit: int)
    requires distance <= GetPerishabilityRating(crop).safeDistance
    ensures var s := CalculateSpoilage(crop, distance, netProfit);
      s.spoilagePercentage == 0.0 && s.spoilageAmount == 0 && s.adjustedProfit == netProfit
      && s.isSafe && s.riskLevel == Low
  {
  }

  /** The reported percentage lies between 0 and the 50% cap, however far the market is. */
  lemma SpoilageWithinCap(crop: string, distance: real, netProfit: int)
    ensures 0.0 <= CalculateSpoilage(crop, distance, netProfit).spoilagePercentage <= SpoilageCapPercent
  {
    var rating := GetPerishabilityRating(crop);
    if distance > rating.safeDistance {
      var percentage := SpoilagePercentage(rating, distance);
      SpoilagePositiveBeyondSafeDistance(rating, distance);
      Round1Monotone(percentage, SpoilageCapPercent);
      Round1Monotone(0.0, percentage);
      RoundOfInteger(500);
      RoundOfInteger(0);
      assert Round1(SpoilageCapPercent) == SpoilageCapPercent;
      assert Round1(0.0) == 0.0;
    }
  }

  /** Tomatoes (safe to 50 km) sent 120 km: 70 km excess, 28% spoilage, high risk. */
  lemma TomatoAt120Km(netProfit: int)
    ensures var s := CalculateSpoilage("tomato", 120.0, netProfit);
      !s.isSafe && s.riskLevel == High
      && SpoilagePercentage(GetPerishabilityRating("tomato"), 120.0) == 28.0
      && s.excessDistance == Some(70)
  {
    TomatoRating();
    var rating := GetPerishabilityRating("tomato");
    SpoilageIsProportional(rating, 120.0);
    assert SpoilagePercentage(rating, 120.0) == 28.0;
    RoundOfInteger(70);
  }

  lemma TomatoRating()
    ensures GetPerishabilityRating("tomato") == Rating(High, 50.0, 0.20, "3-7 days")
  {
    var key := "tomato";
    assert ToLower(key) == key;
    assert !IsTrimmable(key[0]) && !IsTrimmable(key[|key| - 1]);
    assert Trim(key) == key;
    assert CropKey(Tomato) == NormalizeCrop(key);
  }

  /** The lookup ignores letter case. */
  lemma LookupIgnoresCase(crop: string)
    ensures GetPerishabilityRating(ToLower(crop)) == GetPerishabilityRating(crop)
  {
    ToLowerIdempotent(crop);
    assert NormalizeCrop(ToLower(crop)) == NormalizeCrop(crop);
  }

  /** The lookup ignores white space around a name. */
  lemma LookupIgnoresPadding(left: string, crop: string, right: string)
    requires forall i :: 0 <= i < |left| ==> IsTrimmable(left[i])
    requires forall i :: 0 <= i < |right| ==> IsTrimmable(right[i])
    requires crop != [] && !IsTrimmable(crop[0]) && !IsTrimmable(crop[|crop| - 1])
    ensures GetPerishabilityRating(left + crop + right) == GetPerishabilityRating(crop)
  {
    var lowered := ToLower(crop);
    ToLowerAppend(left + crop, right);
    ToLowerAppend(left, crop);
    ToLowerKeepsPadding(left);
    ToLowerKeepsPadding(right);
    LowerCharTrimmable(crop[0]);
    LowerCharTrimmable(crop[|crop| - 1]);
    assert lowered[0] == LowerChar(crop[0]) && lowered[|lowered| - 1] == LowerChar(crop[|crop| - 1]);
    TrimIgnoresPadding(left, lowered, right);
    assert NormalizeCrop(left + crop + right) == lowered;
    assert NormalizeCrop(crop) == lowered;
  }

  /** A crop the table does not list is rated medium, safe to 100 km, 12% per 50 km. */
  lemma UnlistedCropGetsDefault()
    ensures GetPerishabilityRating("mango") == Rating(Medium, 100.0, 0.12, "1-2 weeks")
  {
    MangoNormalized();
    MangoUnlisted();
  }

  lemma MangoNormalized()
    ensures NormalizeCrop("mango") == "mango"
  {
    var key := "mango";
    assert ToLower(key) == key;
    assert !IsTrimmable(key[0]) && !IsTrimmable(key[|key| - 1]);
    assert Trim(key) == key;
  }

  lemma MangoUnlisted()
    ensures LookupCrop("mango") == None
  {
    var key := "mango";
    assert key[0] == 'm' && |key| == 5;
  }

  /** The `hasWarning` and `severity` of `generatePerishabilityWarning`; severity None is 'none'. */
  datatype Warning = Warning(hasWarning: bool, severity: Option<RiskLevel>)

  function GeneratePerishabilityWarning(spoilage: Spoilage): (w: Warning)
    ensures w.hasWarning <==> !spoilage.isSafe
    ensures w.severity.None? <==> spoilage.isSafe
    ensures !spoilage.isSafe ==> w.severity == Some(spoilage.riskLevel)
  {
    if spoilage.isSafe then Warning(false, None)
    else
      match spoilage.riskLevel
      case High => Warning(true, Some(High))
      case Medium => Warning(true, Some(Medium))
      case Low => Warning(true, Some(Low))
  }

  /** `analyzePerishability`: the spoilage of one result, its warning, and the profit it started from. */
  datatype Analysis = Analysis(spoilage: Spoilage, warning: Warning, originalProfit: int)

  function AnalyzePerishability(crop: string, result: ProfitResult): (a: Analysis)
    ensures a.spoilage == CalculateSpoilage(crop, result.distance, result.netProfit)
    ensures a.warning.hasWarning <==> result.distance > GetPerishabilityRating(crop).safeDistance
    ensures a.originalProfit == result.netProfit
    ensures a.warning == GeneratePerishabilityWarning(a.spoilage)
  {
    var spoilage := CalculateSpoilage(crop, result.distance, result.netProfit);
    Analysis(spoilage, GeneratePerishabilityWarning(spoilage), result.netProfit)
  }
}
