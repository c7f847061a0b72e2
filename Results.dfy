/** Domain/Models/DeliveryCostResult.cs and DeliveryTimeResult.cs: plain
    result records (their text rendering is not modelled). */
module Results {

  datatype CostResult = CostResult(packageId: string, discount: real, totalCost: real)

  datatype TimeResult = TimeResult(packageId: string, discount: real, totalCost: real, hours: real)
}
