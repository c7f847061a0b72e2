/** Domain/Entities/Package.cs: an immutable package record, validated when it
    is built. A missing offer code (C# null) is None. */
module Packages {
  import opened Wrappers
  import opened Text

  datatype PackageError = BlankId | NonPositiveWeight | NonPositiveDistance

  datatype Package = Package(id: string, weight: real, distance: real, offerCode: Option<string>)
  {
    /** What the constructor guarantees of every Package it lets through. */
    predicate Valid()
    {
      !IsBlank(id) && weight > 0.0 && distance > 0.0
    }
  }

  /** The validating constructor; the offer code defaults to absent. */
  function NewPackage(id: string, weight: real, distance: real, offerCode: Option<string> := None)
    : (r: Result<Package, PackageError>)
    ensures r.Success? <==> !IsBlank(id) && weight > 0.0 && distance > 0.0
    ensures r.Success? ==>
      && r.value.Valid()
      && r.value.id == id && r.value.weight == weight
      && r.value.distance == distance && r.value.offerCode == offerCode
    ensures IsBlank(id) ==> r == Failure(BlankId)
    ensures r == Failure(NonPositiveWeight) <==> !IsBlank(id) && weight <= 0.0
    ensures r == Failure(NonPositiveDistance) <==> !IsBlank(id) && weight > 0.0 && distance <= 0.0
  {
    if IsBlank(id) then Failure(BlankId)
    else if weight <= 0.0 then Failure(NonPositiveWeight)
    else if distance <= 0.0 then Failure(NonPositiveDistance)
    else Success(Package(id, weight, distance, offerCode))
  }
}
