/**
 * The shipping calculator: three pricing strategies (standard, express,
 * overnight), a calculator object holding the current strategy, and a
 * factory that picks a strategy by name.  Costs are exact `real` values.
 */
module Shipping {
  import opened Common

  datatype Package = Package(weight: real, length: real, width: real, height: real)

  function Volume(p: Package): real {
    p.length * p.width * p.height
  }

  /** The three strategy classes; none of them holds any state. */
  datatype Strategy = Standard | Express | Overnight

  // ---------------------------------------------------------------------------
  // Rate tables

  const StandardRates: map<string, real> := map["USA" := 2.5, "Canada" := 3.5, "Mexico" := 4.0]
  const StandardDefault: real := 4.5
  const ExpressRates: map<string, real> := map["USA" := 4.5, "Canada" := 5.5, "Mexico" := 6.0]
  const ExpressDefault: real := 7.5
  const OvernightRates: map<string, real> := map["USA" := 9.5, "Canada" := 12.5]

  /** `baseRates[country] || baseRates['default']`: every listed rate is non-zero, so a listed country gets its own rate. */
  function Rate(rates: map<string, real>, default: real, country: string): real {
    if country in rates && rates[country] != 0.0 then rates[country] else default
  }

  /** Express costs at least 2.0 more per kilogram than standard, to every destination. */
  lemma ExpressRateAboveStandard(country: string)
    ensures Rate(ExpressRates, ExpressDefault, country) >= Rate(StandardRates, StandardDefault, country) + 2.0
  {
  }

  /** A destination outside the tables pays the default rate. */
  lemma UnlistedCountryPaysDefault(country: string)
    requires country !in {"USA", "Canada", "Mexico"}
    ensures Rate(StandardRates, StandardDefault, country) == 4.5
    ensures Rate(ExpressRates, ExpressDefault, country) == 7.5
  {
  }

  // ---------------------------------------------------------------------------
  // The strategies

  /** Standard: `weight × rate`, plus 5.0 for a package under 2 kg with volume over 1000. */
  function StandardCost(p: Package, country: string): (cost: real)
    ensures p.weight >= 0.0 ==> cost >= 0.0
    ensures cost == p.weight * Rate(StandardRates, StandardDefault, country) + 5.0 <==> p.weight < 2.0 && Volume(p) > 1000.0
    ensures cost == p.weight * Rate(StandardRates, StandardDefault, country) <==> !(p.weight < 2.0 && Volume(p) > 1000.0)
  {
    var cost := p.weight * Rate(StandardRates, StandardDefault, country);
    if p.weight < 2.0 && Volume(p) > 1000.0 then cost + 5.0 else cost
  }

  /** Express: `weight × rate`, plus 15.0 for a volume over 5000, whatever the weight. */
  function ExpressCost(p: Package, country: string): (cost: real)
    ensures p.weight >= 0.0 ==> cost >= 0.0
    ensures cost == p.weight * Rate(ExpressRates, ExpressDefault, country) + 15.0 <==> Volume(p) > 5000.0
    ensures cost == p.weight * Rate(ExpressRates, ExpressDefault, country) <==> Volume(p) <= 5000.0
  {
    var cost := p.weight * Rate(ExpressRates, ExpressDefault, country);
    if Volume(p) > 5000.0 then cost + 15.0 else cost
  }

  /** Overnight: only to the USA and Canada, at `weight × rate`; elsewhere null. */
  function OvernightCost(p: Package, country: string): (cost: Option<real>)
    ensures cost.Some? <==> country == "USA" || country == "Canada"
    ensures cost.Some? ==> cost.value == p.weight * OvernightRates[country]
  {
    if country != "USA" && country != "Canada" then None
    else Some(p.weight * OvernightRates[country])
  }

  /** `strategy.calculate(packageDetails, destinationCountry)`. */
  function StrategyCost(s: Strategy, p: Package, country: string): (cost: Option<real>)
    ensures cost.None? <==> s == Overnight && country != "USA" && country != "Canada"
  {
    match s
    case Standard => Some(StandardCost(p, country))
    case Express => Some(ExpressCost(p, country))
    case Overnight => OvernightCost(p, country)
  }

  /** From 2 kg up, express is never cheaper than standard. */
  lemma ExpressNotCheaperFromTwoKilograms(p: Package, country: string)
    requires p.weight >= 2.0
    ensures ExpressCost(p, country) >= StandardCost(p, country)
  {
    ExpressRateAboveStandard(country);
    var rs, re := Rate(StandardRates, StandardDefault, country), Rate(ExpressRates, ExpressDefault, country);
    assert p.weight * re >= p.weight * rs + p.weight * 2.0;
  }

  /** Under 2 kg the bulky-package adjustment can make standard dearer than express. */
  lemma LightBulkyPackageExpressCheaper()
    ensures var p := Package(1.0, 10.0, 10.0, 20.0);
      StandardCost(p, "USA") == 7.5 && ExpressCost(p, "USA") == 4.5
  {
  }

  /** A heavier standard package can cost less: the adjustment stops at 2 kg. */
  lemma StandardDropsAtTwoKilograms()
    ensures StandardCost(Package(1.5, 20.0, 20.0, 20.0), "USA") > StandardCost(Package(2.0, 20.0, 20.0, 20.0), "USA")
  {
  }

  // ---------------------------------------------------------------------------
  // The calculator

  const NotAvailable := "Overnight shipping not available for this destination"

  /** What `ShippingCalculator.calculate` returns: a cost, or the not-available message. */
  datatype Quote = Priced(amount: real) | Unavailable(message: string)

  function QuoteFor(s: Strategy, p: Package, country: string): (quote: Quote)
    ensures quote.Unavailable? <==> StrategyCost(s, p, country).None?
    ensures quote.Unavailable? ==> quote.message == NotAvailable
    ensures quote.Priced? ==> Some(quote.amount) == StrategyCost(s, p, country)
  {
    match StrategyCost(s, p, country)
    case None => Unavailable(NotAvailable)
    case Some(cost) => Priced(cost)
  }

  /** The strategy context: holds one strategy and prices packages with it. */
  class ShippingCalculator {
    var strategy: Strategy

    constructor(strategy: Strategy)
      ensures this.strategy == strategy
    {
      this.strategy := strategy;
    }

    method SetStrategy(strategy: Strategy)
      modifies this
      ensures this.strategy == strategy
    {
      this.strategy := strategy;
    }

    /** Prices with the current strategy; a null cost becomes the message. */
    method Calculate(p: Package, country: string) returns (quote: Quote)
      ensures quote == QuoteFor(strategy, p, country)
    {
      var cost := StrategyCost(strategy, p, country);
      if cost.None? {
        return Unavailable(NotAvailable);
      }
      return Priced(cost.value);
    }
  }

  /** `createShippingStrategy`: the strategy named `shippingMethod`, or the error it throws. */
  function CreateShippingStrategy(shippingMethod: string): (r: Result<Strategy>)
    ensures r.Ok? <==> shippingMethod in {"standard", "express", "overnight"}
    ensures r.Err? ==> r.message == "Unknown shipping method: " + shippingMethod
    ensures r == Ok(Standard) <==> shippingMethod == "standard"
    ensures r == Ok(Express) <==> shippingMethod == "express"
    ensures r == Ok(Overnight) <==> shippingMethod == "overnight"
  {
    match shippingMethod
    case "standard" => Ok(Standard)
    case "express" => Ok(Express)
    case "overnight" => Ok(Overnight)
    case _ => Err("Unknown shipping method: " + shippingMethod)
  }

  /** `calculateShippingCost`: pick the strategy, build a calculator, price the package. */
  method CalculateShippingCost(p: Package, country: string, shippingMethod: string) returns (r: Result<Quote>)
    ensures r.Err? <==> CreateShippingStrategy(shippingMethod).Err?
    ensures r.Err? ==> r.message == "Unknown shipping method: " + shippingMethod
    ensures r.Ok? ==> r.value == QuoteFor(CreateShippingStrategy(shippingMethod).value, p, country)
  {
    var strategy := CreateShippingStrategy(shippingMethod);
    if strategy.Err? {
      return Err(strategy.message);
    }
    var calculator := new ShippingCalculator(strategy.value);
    var quote := calculator.Calculate(p, country);
    return Ok(quote);
  }

  /** After `setStrategy`, the same calculator prices with the new strategy. */
  method SwitchStrategy(calculator: ShippingCalculator, s: Strategy, p: Package, country: string) returns (before: Quote, after: Quote)
    modifies calculator
    ensures before == QuoteFor(old(calculator.strategy), p, country)
    ensures after == QuoteFor(s, p, country)
  {
    before := calculator.Calculate(p, country);
    calculator.SetStrategy(s);
    after := calculator.Calculate(p, country);
  }

  const FiveKilogramBox := Package(5.0, 10.0, 10.0, 10.0)

  /** The worked examples: a 5 kg, 10×10×10 package. */
  lemma FiveKilogramBoxQuotes()
    ensures QuoteFor(Standard, FiveKilogramBox, "USA") == Priced(12.5)
    ensures QuoteFor(Express, FiveKilogramBox, "Canada") == Priced(27.5)
    ensures QuoteFor(Overnight, FiveKilogramBox, "Canada") == Priced(62.5)
    ensures QuoteFor(Overnight, FiveKilogramBox, "UK") == Unavailable(NotAvailable)
  {
  }
}
