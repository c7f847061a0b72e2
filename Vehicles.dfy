/** Domain/Entities/Vehicle.cs: a delivery vehicle. Its id, capacity and speed
    never change; the time at which it is next free to depart is the one
    piece of state the scheduler updates in place. */
module Vehicles {
  import opened Wrappers

  /** A strictly positive amount: what the constructor admits for capacity and speed. */
  type Positive = r: real | r > 0.0 witness 1.0

  datatype VehicleError = NonPositiveCapacity | NonPositiveSpeed

  class Vehicle {
    const id: int
    const capacity: Positive
    const speed: Positive
    var availableAt: real

    /** Builds a vehicle from values already known to be positive; it starts free. */
    constructor (id: int, capacity: Positive, speed: Positive)
      ensures this.id == id && this.capacity == capacity && this.speed == speed
      ensures availableAt == 0.0
    {
      this.id := id;
      this.capacity := capacity;
      this.speed := speed;
      availableAt := 0.0;
    }

    /** The source constructor with its checks: capacity first, then speed. */
    static method Create(id: int, capacity: real, speed: real) returns (r: Result<Vehicle, VehicleError>)
      ensures r.Success? <==> capacity > 0.0 && speed > 0.0
      ensures r == Failure(NonPositiveCapacity) <==> capacity <= 0.0
      ensures r == Failure(NonPositiveSpeed) <==> capacity > 0.0 && speed <= 0.0
      ensures r.Success? ==>
        && fresh(r.value)
        && r.value.id == id && r.value.capacity == capacity && r.value.speed == speed
        && r.value.availableAt == 0.0
    {
      if capacity <= 0.0 {
        return Failure(NonPositiveCapacity);
      }
      if speed <= 0.0 {
        return Failure(NonPositiveSpeed);
      }
      var v := new Vehicle(id, capacity, speed);
      return Success(v);
    }

    /** Hours needed to cover the distance at this vehicle's speed. */
    function DeliveryTime(distance: real): (hours: real)
      ensures hours * speed == distance
      ensures distance >= 0.0 ==> hours >= 0.0
      ensures distance > 0.0 ==> hours > 0.0
    {
      distance / speed
    }

    /** Commits the vehicle to a round trip to the given distance and back. */
    method AssignTrip(maxDistanceInTrip: real)
      modifies this
      ensures availableAt == old(availableAt) + DeliveryTime(maxDistanceInTrip) * 2.0
      ensures maxDistanceInTrip >= 0.0 ==> availableAt >= old(availableAt)
    {
      var tripTime := DeliveryTime(maxDistanceInTrip);
      availableAt := availableAt + tripTime * 2.0;
    }

    /** Makes the vehicle free at time zero, whatever it was before. */
    method ResetAvailability()
      modifies this
      ensures availableAt == 0.0
    {
      availableAt := 0.0;
    }
  }

  /** Two trips in a row keep the vehicle busy for the sum of both round trips. */
  method AssignTwoTrips(v: Vehicle, d1: real, d2: real)
    modifies v
    ensures v.availableAt == old(v.availableAt) + 2.0 * (d1 + d2) / v.speed
  {
    v.AssignTrip(d1);
    v.AssignTrip(d2);
  }
}
