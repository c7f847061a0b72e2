/** Domain/Entities/Offer.cs: a discount rule gated by inclusive weight and
    distance ranges, validated when it is built. */
module Offers {
  import opened Wrappers
  import opened Text

  datatype OfferError = BlankCode | DiscountOutOfRange | InvalidDistanceRange | InvalidWeightRange

  datatype Offer = Offer(
    code: string,
    discountPercent: real,
    minDistance: real,
    maxDistance: real,
    minWeight: real,
    maxWeight: real)
  {
    /** What the constructor guarantees of every Offer it lets through. */
    predicate Valid()
    {
      && !IsBlank(code)
      && 0.0 <= discountPercent <= 100.0
      && 0.0 <= minDistance <= maxDistance
      && 0.0 <= minWeight <= maxWeight
    }

    /** A package qualifies when both its weight and its distance lie in the
        offer's closed ranges. */
    predicate IsEligible(weight: real, distance: real)
    {
      minWeight <= weight <= maxWeight && minDistance <= distance <= maxDistance
    }
  }

  /** The validating constructor. Note the argument order: the distance range
      comes before the weight range. The checks run in source order, so the
      first violated one names the error. */
  function NewOffer(
    code: string, discountPercent: real,
    minDistance: real, maxDistance: real,
    minWeight: real, maxWeight: real): (r: Result<Offer, OfferError>)
    ensures r.Success? <==> Offer(code, discountPercent, minDistance, maxDistance, minWeight, maxWeight).Valid()
    ensures r.Success? ==>
      && r.value.Valid()
      && r.value.code == code && r.value.discountPercent == discountPercent
      && r.value.minDistance == minDistance && r.value.maxDistance == maxDistance
      && r.value.minWeight == minWeight && r.value.maxWeight == maxWeight
    ensures IsBlank(code) ==> r == Failure(BlankCode)
    ensures r == Failure(DiscountOutOfRange) <==>
      !IsBlank(code) && (discountPercent < 0.0 || discountPercent > 100.0)
    ensures r == Failure(InvalidDistanceRange) <==>
      !IsBlank(code) && 0.0 <= discountPercent <= 100.0
      && (minDistance < 0.0 || maxDistance < minDistance)
    ensures r == Failure(InvalidWeightRange) <==>
      !IsBlank(code) && 0.0 <= discountPercent <= 100.0 && 0.0 <= minDistance <= maxDistance
      && (minWeight < 0.0 || maxWeight < minWeight)
  {
    if IsBlank(code) then Failure(BlankCode)
    else if discountPercent < 0.0 || discountPercent > 100.0 then Failure(DiscountOutOfRange)
    else if minDistance < 0.0 || maxDistance < minDistance then Failure(InvalidDistanceRange)
    else if minWeight < 0.0 || maxWeight < minWeight then Failure(InvalidWeightRange)
    else Success(Offer(code, discountPercent, minDistance, maxDistance, minWeight, maxWeight))
  }

  /** Eligibility of a freshly built offer, phrased in the constructor's own
      argument order: the third and fourth arguments bound the distance, the
      fifth and sixth the weight. */
  lemma EligibilityFollowsArgumentOrder(
    code: string, pct: real, a: real, b: real, c: real, d: real, weight: real, distance: real)
    requires NewOffer(code, pct, a, b, c, d).Success?
    ensures NewOffer(code, pct, a, b, c, d).value.IsEligible(weight, distance)
      <==> c <= weight <= d && a <= distance <= b
  {
  }

  /** The eligible region of a valid offer is a non-empty rectangle: its corners
      qualify, and so does every point between two qualifying points. */
  lemma EligibleRegionIsRectangle(o: Offer, w1: real, d1: real, w2: real, d2: real, w: real, dist: real)
    requires o.Valid()
    ensures o.IsEligible(o.minWeight, o.minDistance) && o.IsEligible(o.maxWeight, o.maxDistance)
    ensures o.IsEligible(w1, d1) && o.IsEligible(w2, d2) && w1 <= w <= w2 && d1 <= dist <= d2
      ==> o.IsEligible(w, dist)
  {
  }
}
