/**
 * The profit calculator: revenue, transport and handling cost, and net
 * profit for selling a quantity (in quintals) at one market, with the
 * rounding the results are reported with.
 */
module Profit {
  import opened Common
  import opened Market
  import opened Distance

  /** Transport rates in rupees per km, by vehicle type. */
  const VehicleRates: map<string, real> :=
    map["tractor" := 12.0, "tata-ace" := 18.0, "truck" := 25.0, "mini-truck" := 20.0, "tempo" := 15.0]

  /** Handling charges in rupees per quintal. */
  const LoadingCharge: real := 20.0
  const UnloadingCharge: real := 20.0
  const CommissionCharge: real := 50.0

  /** The unrounded per-item amounts the result reports beside the rounded ones. */
  datatype Breakdown = Breakdown(loading: real, unloading: real, commission: real, transport: real)

  datatype ProfitResult = ProfitResult(
    mandiName: string,
    distance: real,
    price: real,
    revenue: int,
    transportCost: int,
    handlingCost: int,
    totalCost: int,
    netProfit: int,
    profitPerQuintal: int,
    /** None when the revenue is zero, where the division yields a non-finite number. */
    profitPercentage: Option<real>,
    breakdown: Breakdown)

  /** `getVehicleRate`: the table rate of the lower-cased type, the truck's rate for any other type. */
  function GetVehicleRate(vehicleType: string): (rate: real)
    ensures ToLower(vehicleType) in VehicleRates ==> rate == VehicleRates[ToLower(vehicleType)]
    ensures ToLower(vehicleType) !in VehicleRates ==> rate == 25.0
    ensures rate in VehicleRates.Values && rate >= 12.0
  {
    var key := ToLower(vehicleType);
    var rate := if key in VehicleRates && VehicleRates[key] != 0.0 then VehicleRates[key] else VehicleRates["truck"];
    assert VehicleRates["truck"] in VehicleRates.Values;
    rate
  }

  /** The rate `calculateProfit` uses: a custom rate, whenever one is given, overrides the table. */
  function EffectiveRate(vehicleType: string, customRate: Option<real>): (rate: real)
    ensures customRate.Some? ==> rate == customRate.value
    ensures customRate.None? ==> rate == GetVehicleRate(vehicleType)
  {
    match customRate
    case Some(custom) => custom
    case None => GetVehicleRate(vehicleType)
  }

  /** `mandi.price || mandi.pricePerQuintal`. */
  function PriceOf(mandi: Mandi): (price: real)
    ensures mandi.price != 0.0 ==> price == mandi.price
    ensures mandi.price == 0.0 ==> price == mandi.pricePerQuintal
  {
    if mandi.price != 0.0 then mandi.price else mandi.pricePerQuintal
  }

  function HandlingCost(quantity: real): (cost: real)
    ensures cost == 90.0 * quantity
  {
    LoadingCharge * quantity + UnloadingCharge * quantity + CommissionCharge * quantity
  }

  /** The net profit before rounding: revenue less transport and handling cost. */
  function NetProfitBeforeRounding(price: real, distance: real, quantity: real, rate: real): real {
    price * quantity - (distance * rate + 90.0 * quantity)
  }

  /**
   * The net profit as a percentage of the revenue, to one decimal; None for
   * a zero revenue, where the division yields a non-finite number.
   */
  function ProfitShare(netProfit: real, revenue: real): (p: Option<real>)
    ensures p.None? <==> revenue == 0.0
    ensures revenue > 0.0 && netProfit <= revenue ==> p.value <= 100.0
    ensures revenue > 0.0 && netProfit >= 0.0 ==> p.value >= 0.0
  {
    if revenue == 0.0 then None
    else
      ShareBounds(netProfit, revenue);
      Some(Round1(netProfit / revenue * 100.0))
  }

  lemma ShareBounds(netProfit: real, revenue: real)
    requires revenue != 0.0
    ensures revenue > 0.0 && netProfit <= revenue ==> Round1(netProfit / revenue * 100.0) <= 100.0
    ensures revenue > 0.0 && netProfit >= 0.0 ==> Round1(netProfit / revenue * 100.0) >= 0.0
  {
    var share := netProfit / revenue * 100.0;
    if revenue > 0.0 && netProfit <= revenue {
      assert netProfit / revenue <= 1.0;
      Round1Monotone(share, 100.0);
      RoundOfInteger(1000);
    }
    if revenue > 0.0 && netProfit >= 0.0 {
      Round1Monotone(0.0, share);
      RoundOfInteger(0);
    }
  }

  /** `calculateProfit`. The quantity is positive: the request validation admits 0.1 to 1000 quintals. */
  function CalculateProfit(mandi: Mandi, distance: real, quantity: real, vehicleType: string,
                           customRate: Option<real>): (r: ProfitResult)
    requires quantity > 0.0
    ensures r.mandiName == mandi.name && r.price == PriceOf(mandi)
    ensures r.distance == Round1(distance)
    ensures r.breakdown.loading + r.breakdown.unloading + r.breakdown.commission == 90.0 * quantity
    ensures r.netProfit == Round(NetProfitBeforeRounding(PriceOf(mandi), distance, quantity, EffectiveRate(vehicleType, customRate)))
    ensures r.profitPercentage.None? <==> PriceOf(mandi) == 0.0
    ensures r.profitPercentage == ProfitShare(NetProfitBeforeRounding(PriceOf(mandi), distance, quantity,
      EffectiveRate(vehicleType, customRate)), PriceOf(mandi) * quantity)
  {
    var price := PriceOf(mandi);
    var revenue := price * quantity;
    var rate := EffectiveRate(vehicleType, customRate);
    var transportCost := distance * rate;
    var loading := LoadingCharge * quantity;
    var unloading := UnloadingCharge * quantity;
    var commission := CommissionCharge * quantity;
    var handlingCost := loading + unloading + commission;
    var totalCost := transportCost + handlingCost;
    var netProfit := revenue - totalCost;
    var profitPerQuintal := netProfit / quantity;
    assert handlingCost == 90.0 * quantity;
    assert netProfit == NetProfitBeforeRounding(price, distance, quantity, rate);
    ZeroRevenue(price, quantity);
    assert revenue == PriceOf(mandi) * quantity;
    assert netProfit == NetProfitBeforeRounding(PriceOf(mandi), distance, quantity, EffectiveRate(vehicleType, customRate));
    assert ProfitShare(netProfit, revenue) == ProfitShare(NetProfitBeforeRounding(PriceOf(mandi), distance, quantity,
      EffectiveRate(vehicleType, customRate)), PriceOf(mandi) * quantity);
    ProfitResult(
      mandi.name,
      Round1(distance),
      price,
      Round(revenue),
      Round(transportCost),
      Round(handlingCost),
      Round(totalCost),
      Round(netProfit),
      Round(profitPerQuintal),
      ProfitShare(netProfit, revenue),
      Breakdown(loading, unloading, commission, transportCost))
  }

  /** With a positive quantity the revenue is zero exactly when the price is. */
  lemma ZeroRevenue(price: real, quantity: real)
    requires quantity > 0.0
    ensures price * quantity == 0.0 <==> price == 0.0
  {
    if price * quantity == 0.0 {
      assert price == price * quantity / quantity;
    }
  }

  /** Each reported amount is its exact value rounded to the nearest rupee. */
  lemma CalculateProfitAmounts(mandi: Mandi, distance: real, quantity: real, vehicleType: string,
                               customRate: Option<real>)
    requires quantity > 0.0
    ensures var r := CalculateProfit(mandi, distance, quantity, vehicleType, customRate);
      var rate := EffectiveRate(vehicleType, customRate);
      && r.revenue == Round(PriceOf(mandi) * quantity)
      && r.breakdown.transport == distance * rate
      && r.transportCost == Round(distance * rate)
      && r.handlingCost == Round(90.0 * quantity)
      && r.totalCost == Round(distance * rate + 90.0 * quantity)
  {
  }

  lemma CalculateProfitPerQuintal(mandi: Mandi, distance: real, quantity: real, vehicleType: string,
                                  customRate: Option<real>)
    requires quantity > 0.0
    ensures var r := CalculateProfit(mandi, distance, quantity, vehicleType, customRate);
      r.profitPerQuintal == Round(NetProfitBeforeRounding(PriceOf(mandi), distance, quantity, EffectiveRate(vehicleType, customRate)) / quantity)
  {
  }

  /** With a positive price and costs that are not negative, the percentage never exceeds 100. */
  lemma ProfitPercentageAtMostHundred(mandi: Mandi, distance: real, quantity: real, vehicleType: string,
                                      customRate: Option<real>)
    requires quantity > 0.0 && PriceOf(mandi) > 0.0 && distance >= 0.0
    requires EffectiveRate(vehicleType, customRate) >= 0.0
    ensures var r := CalculateProfit(mandi, distance, quantity, vehicleType, customRate);
      r.profitPercentage.Some? && r.profitPercentage.value <= 100.0
  {
    var rate := EffectiveRate(vehicleType, customRate);
    var revenue := PriceOf(mandi) * quantity;
    var net := NetProfitBeforeRounding(PriceOf(mandi), distance, quantity, rate);
    NonNegativeProduct(distance, rate);
    PositiveProduct(PriceOf(mandi), quantity);
    assert net <= revenue;
  }

  lemma PositiveProduct(a: real, b: real)
    requires a > 0.0 && b > 0.0
    ensures a * b > 0.0
  {
  }

  /**
   * The cost decomposition survives rounding up to one rupee: the rounded
   * total cost and net profit differ from the sums of their rounded parts by at most 1.
   */
  lemma RoundedDecomposition(mandi: Mandi, distance: real, quantity: real, vehicleType: string,
                             customRate: Option<real>)
    requires quantity > 0.0
    ensures var r := CalculateProfit(mandi, distance, quantity, vehicleType, customRate);
      && -1 <= r.totalCost - (r.transportCost + r.handlingCost) <= 1
      && -1 <= r.netProfit - (r.revenue - r.totalCost) <= 1
  {
    CalculateProfitAmounts(mandi, distance, quantity, vehicleType, customRate);
  }

  /** Farther is strictly worse before rounding, once price, quantity and a positive rate are fixed. */
  lemma NetProfitFallsWithDistance(price: real, near: real, far: real, quantity: real, rate: real)
    requires near < far && rate > 0.0
    ensures NetProfitBeforeRounding(price, far, quantity, rate) < NetProfitBeforeRounding(price, near, quantity, rate)
  {
    assert far * rate - near * rate == (far - near) * rate;
  }

  /** ... and the rounded net profit never rises with distance. */
  lemma RoundedNetProfitNeverRises(mandi: Mandi, near: real, far: real, quantity: real,
                                   vehicleType: string, customRate: Option<real>)
    requires quantity > 0.0 && near <= far
    requires EffectiveRate(vehicleType, customRate) > 0.0
    ensures CalculateProfit(mandi, far, quantity, vehicleType, customRate).netProfit
         <= CalculateProfit(mandi, near, quantity, vehicleType, customRate).netProfit
  {
    var rate := EffectiveRate(vehicleType, customRate);
    if near < far {
      NetProfitFallsWithDistance(PriceOf(mandi), near, far, quantity, rate);
    }
    RoundMonotone(NetProfitBeforeRounding(PriceOf(mandi), far, quantity, rate),
                  NetProfitBeforeRounding(PriceOf(mandi), near, quantity, rate));
  }

  /** Twenty quintals at 1200 per quintal, 10 km away by truck. */
  lemma TruckWorkedExample(mandi: Mandi)
    requires mandi.price == 1200.0
    ensures var r := CalculateProfit(mandi, 10.0, 20.0, "truck", None);
      && r.revenue == 24000 && r.transportCost == 250 && r.handlingCost == 1800
      && r.totalCost == 2050 && r.netProfit == 21950 && r.profitPerQuintal == 1098
  {
    assert ToLower("truck") == "truck";
    CalculateProfitAmounts(mandi, 10.0, 20.0, "truck", None);
    CalculateProfitPerQuintal(mandi, 10.0, 20.0, "truck", None);
    RoundOfInteger(24000);
    RoundOfInteger(250);
    RoundOfInteger(1800);
    RoundOfInteger(2050);
    RoundOfInteger(21950);
  }

  /** `calculateMultipleProfits`: one result per item, in the items' order. */
  function CalculateMultipleProfits(items: seq<DistanceResult>, quantity: real, vehicleType: string,
                                    customRate: Option<real>): (r: seq<ProfitResult>)
    requires quantity > 0.0
    ensures |r| == |items|
    ensures forall i :: 0 <= i < |items| ==>
      r[i] == CalculateProfit(items[i].destination, items[i].distance, quantity, vehicleType, customRate)
  {
    if items == [] then []
    else
      [CalculateProfit(items[0].destination, items[0].distance, quantity, vehicleType, customRate)]
        + CalculateMultipleProfits(items[1..], quantity, vehicleType, customRate)
  }

  /**
   * `calculateBreakEvenDistance`: the distance whose transport cost, at the
   * table rate, equals the revenue gained from the higher price; to one decimal.
   */
  function BreakEvenDistance(localPrice: real, distantPrice: real, vehicleType: string, quantity: real): (d: real)
    ensures var exact := (distantPrice - localPrice) * quantity / GetVehicleRate(vehicleType);
      exact - 0.05 < d <= exact + 0.05
    ensures (10.0 * d).Floor as real == 10.0 * d
    ensures var rate := GetVehicleRate(vehicleType);
      Abs(d * rate - (distantPrice - localPrice) * quantity) <= 0.05 * rate
  {
    var revenueGain := (distantPrice - localPrice) * quantity;
    var rate := GetVehicleRate(vehicleType);
    var d := Round1(revenueGain / rate);
    ScaledError(d, revenueGain, rate);
    d
  }

  /** A distance within 0.05 km of `gain / rate` costs within 0.05 km's worth of transport of `gain`. */
  lemma ScaledError(d: real, gain: real, rate: real)
    requires rate > 0.0 && gain / rate - 0.05 < d <= gain / rate + 0.05
    ensures Abs(d * rate - gain) <= 0.05 * rate
  {
    AtLeastQuotient(gain, rate, d + 0.05);
    assert (d + 0.05) * rate == d * rate + 0.05 * rate;
    AtMostQuotient(gain, rate, d - 0.05);
    assert (d - 0.05) * rate == d * rate - 0.05 * rate;
  }

  lemma NonNegativeProduct(a: real, b: real)
    requires a >= 0.0 && b >= 0.0
    ensures a * b >= 0.0
  {
  }

  /** At the unrounded break-even distance the distant market nets what a market at the door would. */
  lemma BreakEvenBalancesProfit(localPrice: real, distantPrice: real, vehicleType: string, quantity: real)
    ensures var rate := GetVehicleRate(vehicleType);
      var exact := (distantPrice - localPrice) * quantity / rate;
      NetProfitBeforeRounding(distantPrice, exact, quantity, rate) == NetProfitBeforeRounding(localPrice, 0.0, quantity, rate)
  {
    var rate := GetVehicleRate(vehicleType);
    var exact := (distantPrice - localPrice) * quantity / rate;
    assert exact * rate == (distantPrice - localPrice) * quantity;
    assert (distantPrice - localPrice) * quantity == distantPrice * quantity - localPrice * quantity;
  }
}
