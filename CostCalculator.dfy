/** Application/Services/DeliveryCostCalculator.cs: base cost of a package and
    the discount of the first offer whose code matches, if the package qualifies.
    The calculator's offer table is fixed when it is built. */
module CostCalculation {
  import opened Wrappers
  import opened Text
  import opened Offers
  import opened Packages
  import opened Results

  const WeightMultiplier: real := 10.0
  const DistanceMultiplier: real := 5.0

  /** An offer code that is missing or empty: no offer applies. */
  predicate IsNullOrEmpty(code: Option<string>)
  {
    code.None? || code.value == ""
  }

  /** The first offer in the table whose code equals the given one, ignoring case. */
  function FindOffer(offers: seq<Offer>, code: string): (r: Option<Offer>)
    ensures r.Some? ==> r.value in offers && EqualsIgnoreCase(r.value.code, code)
    ensures r.None? <==> forall o :: o in offers ==> !EqualsIgnoreCase(o.code, code)
  {
    if offers == [] then None
    else if EqualsIgnoreCase(offers[0].code, code) then Some(offers[0])
    else FindOffer(offers[1..], code)
  }

  /** The offer found is the earliest matching one: whatever matches later is shadowed. */
  lemma {:induction false} FindOfferTakesFirstMatch(offers: seq<Offer>, code: string, i: nat)
    requires i < |offers| && EqualsIgnoreCase(offers[i].code, code)
    requires forall j :: 0 <= j < i ==> !EqualsIgnoreCase(offers[j].code, code)
    ensures FindOffer(offers, code) == Some(offers[i])
  {
    if i > 0 {
      FindOfferTakesFirstMatch(offers[1..], code, i - 1);
    }
  }

  /** The given percentage of an amount; a percentage in [0, 100] of a
      non-negative amount stays between zero and the amount. */
  function Percent(amount: real, percent: real): (r: real)
    ensures 0.0 <= amount && 0.0 <= percent <= 100.0 ==> 0.0 <= r <= amount
  {
    var f := percent / 100.0;
    assert 0.0 <= amount && 0.0 <= percent <= 100.0 ==> 0.0 <= amount * f <= amount * 1.0;
    amount * f
  }

  datatype CostCalculator = CostCalculator(offers: seq<Offer>)
  {
    /** Every offer in the table went through the validating constructor. */
    predicate Valid()
    {
      forall o :: o in offers ==> o.Valid()
    }

    /** The base cost grows with the package's weight and distance (10 per kg,
        5 per km) on top of the flat delivery charge. */
    function BaseCost(baseDeliveryCost: real, weight: real, distance: real): (cost: real)
      ensures cost - baseDeliveryCost == WeightMultiplier * weight + DistanceMultiplier * distance
      ensures weight >= 0.0 && distance >= 0.0 ==> cost >= baseDeliveryCost
    {
      baseDeliveryCost + (weight * WeightMultiplier) + (distance * DistanceMultiplier)
    }

    /** The discount on a package whose base cost is given: non-zero only when
        the package names an offer that exists and for which it qualifies. */
    function Discount(baseCost: real, p: Package): (d: real)
      ensures d != 0.0 ==>
        && !IsNullOrEmpty(p.offerCode)
        && FindOffer(offers, p.offerCode.value).Some?
        && FindOffer(offers, p.offerCode.value).value.IsEligible(p.weight, p.distance)
      ensures Valid() && baseCost >= 0.0 ==> 0.0 <= d <= baseCost
    {
      if IsNullOrEmpty(p.offerCode) then 0.0
      else
        var offer := FindOffer(offers, p.offerCode.value);
        if offer.None? then 0.0
        else if !offer.value.IsEligible(p.weight, p.distance) then 0.0
        else
          assert offer.value in offers;
          Percent(baseCost, offer.value.discountPercent)
    }

    /** The priced result of one package: its own id, the discount, and the
        base cost less the discount. */
    function CalculateCost(baseDeliveryCost: real, p: Package): (r: CostResult)
      ensures r.packageId == p.id
      ensures r.totalCost + r.discount == BaseCost(baseDeliveryCost, p.weight, p.distance)
      ensures Valid() && baseDeliveryCost >= 0.0 && p.Valid() ==>
        0.0 <= r.discount && 0.0 <= r.totalCost <= BaseCost(baseDeliveryCost, p.weight, p.distance)
    {
      var baseCost := BaseCost(baseDeliveryCost, p.weight, p.distance);
      var discount := Discount(baseCost, p);
      CostResult(p.id, discount, baseCost - discount)
    }

    /** Prices a list of packages one by one, keeping their order. */
    function CalculateCosts(baseDeliveryCost: real, packages: seq<Package>): (rs: seq<CostResult>)
      ensures |rs| == |packages|
      ensures forall i :: 0 <= i < |packages| ==>
        rs[i] == CalculateCost(baseDeliveryCost, packages[i]) && rs[i].packageId == packages[i].id
    {
      if packages == [] then []
      else [CalculateCost(baseDeliveryCost, packages[0])] + CalculateCosts(baseDeliveryCost, packages[1..])
    }

    /** A heavier or farther package never costs less before discount. */
    lemma BaseCostMonotone(baseDeliveryCost: real, w1: real, d1: real, w2: real, d2: real)
      requires w1 <= w2 && d1 <= d2
      ensures BaseCost(baseDeliveryCost, w1, d1) <= BaseCost(baseDeliveryCost, w2, d2)
    {
    }

    /** No offer code: no discount, the total is the base cost. */
    lemma NoCodeNoDiscount(baseDeliveryCost: real, p: Package)
      requires IsNullOrEmpty(p.offerCode)
      ensures CalculateCost(baseDeliveryCost, p).discount == 0.0
      ensures CalculateCost(baseDeliveryCost, p).totalCost == BaseCost(baseDeliveryCost, p.weight, p.distance)
    {
    }

    /** An offer code that matches nothing in the table is ignored. */
    lemma UnknownCodeNoDiscount(baseDeliveryCost: real, p: Package)
      requires p.offerCode.Some?
      requires forall o :: o in offers ==> !EqualsIgnoreCase(o.code, p.offerCode.value)
      ensures CalculateCost(baseDeliveryCost, p).discount == 0.0
      ensures CalculateCost(baseDeliveryCost, p).totalCost == BaseCost(baseDeliveryCost, p.weight, p.distance)
    {
    }

    /** The first matching offer decides: if the package does not qualify for it,
        there is no discount even when a later offer with the same code would fit. */
    lemma IneligibleNoDiscount(baseDeliveryCost: real, p: Package, i: nat)
      requires p.offerCode.Some? && i < |offers|
      requires EqualsIgnoreCase(offers[i].code, p.offerCode.value)
      requires forall j :: 0 <= j < i ==> !EqualsIgnoreCase(offers[j].code, p.offerCode.value)
      requires !offers[i].IsEligible(p.weight, p.distance)
      ensures CalculateCost(baseDeliveryCost, p).discount == 0.0
      ensures CalculateCost(baseDeliveryCost, p).totalCost == BaseCost(baseDeliveryCost, p.weight, p.distance)
    {
      FindOfferTakesFirstMatch(offers, p.offerCode.value, i);
    }

    /** A qualifying first match takes its percentage off the base cost. */
    lemma EligibleDiscount(baseDeliveryCost: real, p: Package, i: nat)
      requires p.offerCode.Some? && p.offerCode.value != "" && i < |offers|
      requires EqualsIgnoreCase(offers[i].code, p.offerCode.value)
      requires forall j :: 0 <= j < i ==> !EqualsIgnoreCase(offers[j].code, p.offerCode.value)
      requires offers[i].IsEligible(p.weight, p.distance)
      ensures var b := BaseCost(baseDeliveryCost, p.weight, p.distance);
        && CalculateCost(baseDeliveryCost, p).discount == b * offers[i].discountPercent / 100.0
        && CalculateCost(baseDeliveryCost, p).totalCost == b - b * offers[i].discountPercent / 100.0
    {
      FindOfferTakesFirstMatch(offers, p.offerCode.value, i);
    }
  }
}
