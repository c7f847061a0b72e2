# Kiki courier service: delivery cost and delivery time, modelled in Dafny

This project models the core of the Kiki courier service command-line tool. That core has two parts.

- **Cost.** Each package is priced at a flat base charge, plus 10 per kg, plus 5 per km. The first offer whose code matches the package's code (ignoring case) may then take a percentage off. It does so only when the package's weight and distance lie inside the offer's closed ranges.
- **Time.** The service estimates when each package is delivered. It repeatedly takes the vehicle that is free first and gives it the best load it can carry. A brute-force selector picks that load from the packages still waiting. The load is timestamped, and the vehicle is sent on a round trip to its farthest package and back.

Amounts are exact rationals (`real`). Package ids and offer codes are `seq<char>`.

Modules:

- `Offers`, `Packages`, `Vehicles`: the domain entities.
  - Offers and packages are validated values. A rejected argument gives a `Result` failure, one error kind per check.
  - `Vehicle` is a class. Its availability time is the field the scheduler updates in place.
- `CostCalculation`: the cost calculator. It is a value holding a fixed offer table.
- `Masks`, `Heaviness`, `Selection`: the package selector.
  - `Masks` covers subsets chosen by bitmasks.
  - `Heaviness` is the "heavier combination" tie-break.
  - `Selection` has the selector itself. Its loop is specified by the fold `Scan`.
- `Scheduling`: the dispatch loop.
  - It is specified by the functions `Advance` (one pass) and `Dispatch` (the whole loop) over a state `Progress`. `Progress` holds the results so far, each vehicle's availability and the pool of waiting packages.
  - The imperative loop, written as methods over the `Vehicle` objects, is proved to compute exactly `Dispatch`. The properties of the run are then proved about `Dispatch`.
- `Text`, `Rounding`, `Results`, `Wrappers`: string services, banker's rounding to two places, result records, and Option/Result.
- `Examples`: cases from the project's unit tests, stated against the model.

The loop stops as soon as the vehicle that is free first can carry none of the waiting packages (DeliveryTimeEstimator.cs, lines 33–41), even when a larger vehicle could still take one. `Examples.EarliestVehicleDecidesStopExample` shows such a run, and `Scheduling.DispatchCoverage` states the condition exactly.

## Model

| member | source | states |
|---|---|---|
| Offers.NewOffer | Domain/Entities/Offer.cs:15-41 | Succeeds exactly when the code is not blank, the percentage is in [0,100], and both ranges are non-negative and ordered. The offer it builds holds the arguments. The checks run in source order, so each error is reported exactly when its own check is the first one to fail. |
| Offers.EligibilityFollowsArgumentOrder | Domain/Entities/Offer.cs:15-21 | For a built offer, eligibility bounds the distance by the 3rd and 4th arguments and the weight by the 5th and 6th. |
| Offers.EligibleRegionIsRectangle | Domain/Entities/Offer.cs:46-50 | The eligible region of a valid offer contains its corners and every point between two eligible points (inclusive bounds on both axes). |
| Packages.NewPackage | Domain/Entities/Package.cs:13-28 | Succeeds exactly when the id is not blank and the weight and distance are positive. The failure is the first check violated. The package holds the arguments; the offer code defaults to absent. |
| Vehicles.Vehicle.constructor | Domain/Entities/Vehicle.cs:13-25 | A new vehicle holds its id, capacity and speed and is free at time 0. |
| Vehicles.Vehicle.Create | Domain/Entities/Vehicle.cs:13-25 | Succeeds exactly when capacity and speed are both positive. Capacity is checked first. On success the vehicle is fresh and free at time 0. |
| Vehicles.Vehicle.DeliveryTime | Domain/Entities/Vehicle.cs:30-33 | Hours times speed equals the distance. The hours are non-negative (positive) for a non-negative (positive) distance. |
| Vehicles.Vehicle.AssignTrip | Domain/Entities/Vehicle.cs:38-43 | Availability grows by twice the one-way time to the given distance. It never moves back for a non-negative distance. |
| Vehicles.Vehicle.ResetAvailability | Domain/Entities/Vehicle.cs:46-49 | Availability becomes 0. |
| Vehicles.AssignTwoTrips | Domain/Entities/Vehicle.cs:38-43 | Two trips in a row add up: availability grows by 2·(d1+d2)/speed. |
| CostCalculation.FindOffer | Application/Services/DeliveryCostCalculator.cs:43-44 | The offer found is in the table and matches the code ignoring case. Nothing is found exactly when no offer matches. |
| CostCalculation.FindOfferTakesFirstMatch | Application/Services/DeliveryCostCalculator.cs:43-44 | When offer i is the first one matching, it is the one found. |
| CostCalculation.Percent | Application/Services/DeliveryCostCalculator.cs:52 | A percentage in [0,100] of a non-negative amount lies between 0 and the amount. |
| CostCalculation.CostCalculator.BaseCost | Application/Services/DeliveryCostCalculator.cs:19-22 | The cost above the flat charge is 10 per kg plus 5 per km. It is at least the flat charge for a non-negative weight and distance. |
| CostCalculation.CostCalculator.Discount | Application/Services/DeliveryCostCalculator.cs:38-53 | The discount is non-zero only when the code is present and non-empty, matches an offer, and the package qualifies for that offer. With a valid table it lies between 0 and the base cost. |
| CostCalculation.CostCalculator.CalculateCost | Application/Services/DeliveryCostCalculator.cs:24-31 | The result carries the package's id. Total plus discount equals the base cost. For valid inputs both are non-negative and the total is at most the base cost. |
| CostCalculation.CostCalculator.CalculateCosts | Application/Services/DeliveryCostCalculator.cs:33-36 | One result per package, in input order, each the package's own cost. |
| CostCalculation.CostCalculator.BaseCostMonotone | Application/Services/DeliveryCostCalculator.cs:19-22 | A heavier and farther package never has a lower base cost. |
| CostCalculation.CostCalculator.NoCodeNoDiscount | Application/Services/DeliveryCostCalculator.cs:40-41 | A missing or empty code gives no discount; the total is the base cost. |
| CostCalculation.CostCalculator.UnknownCodeNoDiscount | Application/Services/DeliveryCostCalculator.cs:46-47 | A code matching no offer gives no discount. |
| CostCalculation.CostCalculator.IneligibleNoDiscount | Application/Services/DeliveryCostCalculator.cs:49-50 | If the package does not qualify for the first matching offer, there is no discount, even if a later offer with the same code would fit. |
| CostCalculation.CostCalculator.EligibleDiscount | Application/Services/DeliveryCostCalculator.cs:52 | A qualifying first match takes exactly its percentage of the base cost off the total. |
| Text.EqualsIgnoreCaseIsEquivalence | Application/Services/DeliveryCostCalculator.cs:43-44 | Case-insensitive code equality is reflexive, symmetric and transitive. |
| Text.LessTotal | Application/Services/DeliveryTimeEstimator.cs:65-67 | Any two different ids are ordered one way round and never both ways; equal ids are not ordered. |
| Text.LessTransitive | Application/Services/DeliveryTimeEstimator.cs:65-67 | The id order is transitive. |
| Rounding.RoundHalfEven | Application/Services/DeliveryTimeEstimator.cs:54 | The result is an integer within 1/2 of the input. On an exact tie it is even. |
| Rounding.RoundHalfEvenIsUnique | Application/Services/DeliveryTimeEstimator.cs:54 | Those two properties determine the rounded value. |
| Rounding.Round2 | Application/Services/DeliveryTimeEstimator.cs:54 | The result is within 0.005 of the input, a whole number of hundredths, and non-negative for a non-negative input. When the input lies exactly halfway between two hundredths, the result is the even one. |
| Masks.PickNonEmpty | Application/Services/PackageSelector.cs:48-62 | Every mask from 1 to 2^n−1 picks at least one package. |
| Masks.PickSingle | Application/Services/PackageSelector.cs:57-62 | The mask 2^j picks exactly the package at position j. |
| Heaviness.SortDescending | Application/Services/PackageSelector.cs:76-77 | Weights sorted heaviest first: a permutation of the input, in descending order. |
| Heaviness.IsHeavierIsStrict | Application/Services/PackageSelector.cs:71-88 | The "heavier" test is false on combinations with the same sorted weights and never holds both ways round. |
| Heaviness.IsHeavierTotalOnEqualCounts | Application/Services/PackageSelector.cs:71-88 | Among non-empty combinations of one size, "heavier" is transitive, and any two are ordered unless their sorted weights agree. |
| Heaviness.LexTotal | Application/Services/PackageSelector.cs:79-87 | The positional comparison orders any two different weight lists of equal length. |
| Selection.MemberWeighsAtMostTotal | Application/Services/PackageSelector.cs:20 | With positive weights, a package weighs no more than any combination holding it. |
| Selection.OutranksNegativelyTransitive | Application/Services/PackageSelector.cs:25-27 | The replacement test (weight, then count, then heaviness) is a strict weak order: if a outranks b, every c outranks b or is outranked by a. |
| Selection.OutranksAsymmetric | Application/Services/PackageSelector.cs:25-27 | No two combinations outrank each other. |
| Selection.NeitherOutranksIffTied | Application/Services/PackageSelector.cs:25-27 | Two non-empty combinations are incomparable exactly when they have the same weight, the same count and the same sorted weights. |
| Selection.ScanStep | Application/Services/PackageSelector.cs:18-33 | One pass of the loop keeps the invariant. The kept combination is the earliest-mask optimum over the masks seen so far. |
| Selection.ScanInvariant | Application/Services/PackageSelector.cs:12-33 | After masks 1..i−1 the running best is the optimum of those masks, or nothing if none fit. |
| Selection.Selected | Application/Services/PackageSelector.cs:7-36 | The load consists of packages of the input and fits the capacity when non-empty. |
| Selection.SelectedIsPickedByMask | Application/Services/PackageSelector.cs:16-33 | The load is empty exactly when no mask's combination fits. Otherwise it is the combination of one enumerated mask and weighs at most the capacity. |
| Selection.SelectedIsOptimal | Application/Services/PackageSelector.cs:25-32 | No fitting combination outranks the load. |
| Selection.SelectedHasMaximumWeight | Application/Services/PackageSelector.cs:25 | No fitting combination weighs more. |
| Selection.SelectedHasFewestPackages | Application/Services/PackageSelector.cs:26 | At the same weight, no fitting combination has fewer packages. |
| Selection.SelectedIsHeaviest | Application/Services/PackageSelector.cs:27 | At the same weight and count, no fitting combination is heavier. |
| Selection.SelectedIsEarliestOnTie | Application/Services/PackageSelector.cs:25-32 | On a full tie, the earliest mask is kept. |
| Selection.SelectedEmptyIffAllTooHeavy | Application/Services/PackageSelector.cs:9-23 | Nothing is selected exactly when every single package exceeds the capacity. This includes the empty input. |
| Selection.GetAllCombinations | Application/Services/PackageSelector.cs:42-69 | Returns 2^n−1 combinations. Entry k is the subsequence picked by mask k+1, in input order. |
| Selection.IsHeavierCombination | Application/Services/PackageSelector.cs:71-88 | The loop returns exactly the positional comparison of the weights sorted heaviest first. A non-empty combination beats an empty one. |
| Selection.SelectOptimalPackages | Application/Services/PackageSelector.cs:7-36 | The loop over the enumerated combinations returns exactly the specified load `Selected`, with all the optimality lemmas above. |
| Scheduling.Earliest | Application/Services/DeliveryTimeEstimator.cs:33 | The chosen vehicle has the least availability time, and no earlier vehicle in the list ties with it (stable order). |
| Scheduling.MaxDistance | Application/Services/DeliveryTimeEstimator.cs:43 | The result is the distance of some package of the load, and no package of the load is farther. |
| Scheduling.Without | Application/Services/DeliveryTimeEstimator.cs:61 | Keeps exactly the packages whose id differs. It shrinks whenever one matched. |
| Scheduling.RemoveSelected | Application/Services/DeliveryTimeEstimator.cs:59-62 | Keeps exactly the packages whose id is not in the load. It shrinks whenever one matched. |
| Scheduling.Record | Application/Services/DeliveryTimeEstimator.cs:45-55 | Adds exactly the load's ids as keys and leaves every other entry unchanged. |
| Scheduling.RecordExtend | Application/Services/DeliveryTimeEstimator.cs:45-55 | Recording one more package overwrites the entry for its id. |
| Scheduling.RecordLastWriteWins | Application/Services/DeliveryTimeEstimator.cs:50-54 | The entry for an id is the delivery of the last package of the load carrying it. |
| Scheduling.RecordFromLoad | Application/Services/DeliveryTimeEstimator.cs:45-55 | Every id of the load gets an entry that is the delivery of some package of the load with that id. |
| Scheduling.Advance | Application/Services/DeliveryTimeEstimator.cs:33-62 | One pass with a non-empty load keeps the state well formed and strictly shrinks the pool. |
| Scheduling.LoadIdsInPool | Application/Services/DeliveryTimeEstimator.cs:59-62 | After a pass, the pool's ids are exactly the previous pool's ids minus the load's ids. |
| Scheduling.AdvanceCoverage | Application/Services/DeliveryTimeEstimator.cs:45-62 | A pass moves ids from the pool to the results: results plus pool cover the same ids, and the pool only loses packages. |
| Scheduling.DispatchCoverage | Application/Services/DeliveryTimeEstimator.cs:31-63 | When the loop ends, every id either has a result or is still waiting. Every package still waiting is heavier than the capacity of the vehicle that is free first. |
| Scheduling.DispatchDeliversAll | Application/Services/DeliveryTimeEstimator.cs:31-63 | If every package fits every vehicle, the pool ends empty and every id has a result. |
| Scheduling.AdvanceMovesChosenVehicle | Application/Services/DeliveryTimeEstimator.cs:57 | A pass moves only the chosen vehicle, forward by its round trip to the farthest package of the load. |
| Scheduling.AdvanceNeverRewinds | Application/Services/DeliveryTimeEstimator.cs:57 | No vehicle's availability ever decreases, so none becomes negative. |
| Scheduling.RecordKeepsPriced | Application/Services/DeliveryTimeEstimator.cs:45-55 | Each recorded result has its package's cost and discount, and a non-negative time. |
| Scheduling.AdvancePriced | Application/Services/DeliveryTimeEstimator.cs:45-57 | A pass keeps every result priced by the cost calculator with a non-negative time. |
| Scheduling.DispatchPriced | Application/Services/DeliveryTimeEstimator.cs:31-63 | The whole loop keeps results priced and availability times non-negative and never decreasing. |
| Scheduling.InsertById | Application/Services/DeliveryTimeEstimator.cs:65-67 | Inserting adds exactly one result: the multiset grows by it. |
| Scheduling.InsertByIdKeepsSorted | Application/Services/DeliveryTimeEstimator.cs:65-67 | Inserting a result with a new id keeps the list sorted by id. |
| Scheduling.SortedByIdUnique | Application/Services/DeliveryTimeEstimator.cs:65-67 | Two id-sorted lists with the same results are equal, so the output order is determined. |
| Scheduling.SortedResults | Application/Services/DeliveryTimeEstimator.cs:65-67 | Lists each stored result once, strictly sorted by package id. |
| Scheduling.ListedResultsPriced | Application/Services/DeliveryTimeEstimator.cs:65-67 | The listed results are priced and list exactly the stored ids. |
| Scheduling.ResetAll | Application/Services/DeliveryTimeEstimator.cs:26-29 | Every vehicle is free at time 0. |
| Scheduling.Timestamp | Application/Services/DeliveryTimeEstimator.cs:45-55 | The timestamping loop computes `Record` for the load. |
| Scheduling.RemoveLoad | Application/Services/DeliveryTimeEstimator.cs:59-62 | The removal loop computes `RemoveSelected`. |
| Scheduling.DispatchStops | Application/Services/DeliveryTimeEstimator.cs:40-41 | An empty load for the vehicle that is free first ends the loop with the state unchanged. |
| Scheduling.PassIsAdvance | Application/Services/DeliveryTimeEstimator.cs:33-62 | The state after the imperative pass is the one `Advance` specifies. The rest of the run is unchanged. |
| Scheduling.SendOnTrip | Application/Services/DeliveryTimeEstimator.cs:57 | Only the chosen vehicle's availability moves, by its round trip. |
| Scheduling.ChooseLoad | Application/Services/DeliveryTimeEstimator.cs:33-38 | Picks the vehicle that is free first and the selector's load for its capacity. |
| Scheduling.Deliver | Application/Services/DeliveryTimeEstimator.cs:43-62 | Timestamps the load from the vehicle's departure, sends the vehicle on its trip, and removes the load's ids from the pool. |
| Scheduling.Trip | Application/Services/DeliveryTimeEstimator.cs:43-62 | A pass with a load strictly shrinks the pool and leaves the rest of the run as `Dispatch` says. |
| Scheduling.Pass | Application/Services/DeliveryTimeEstimator.cs:33-62 | One loop iteration. If it stops, the state is the final state of `Dispatch`; otherwise the pool strictly shrinks. |
| Scheduling.DispatchLoop | Application/Services/DeliveryTimeEstimator.cs:31-63 | The while loop ends in exactly the state `Dispatch` gives from the vehicles' current availability. |
| Scheduling.RunResultsPriced | Application/Services/DeliveryTimeEstimator.cs:18-68 | Every estimate is for a package of the batch, with that package's discount and total cost and a non-negative time. |
| Scheduling.RunDeliversAll | Application/Services/DeliveryTimeEstimator.cs:18-68 | If every package fits every vehicle, the estimates cover exactly the ids of the batch. |
| Scheduling.EstimateDeliveryTimes | Application/Services/DeliveryTimeEstimator.cs:18-68 | The whole run ends in the state `Dispatch` gives from time 0. It lists exactly the stored results, sorted by id, each priced and non-negative. If every package fits every vehicle, it lists every package id. |
| Examples.TestOffersAreValid | Tests/DeliveryCostCalculatorTests.cs:13-18 | The tests' offer table passes the offer constructor unchanged. |
| Examples.BaseCostExample | Tests/DeliveryCostCalculatorTests.cs:23-27 | 100 + 5 kg + 5 km costs 175. |
| Examples.IneligiblePackageExample | Tests/DeliveryCostCalculatorTests.cs:30-38 | PKG1 (5 kg, 5 km, OFR001) gets no discount and costs 175. |
| Examples.EligiblePackageExample | Tests/DeliveryCostCalculatorTests.cs:41-49 | PKG3 (10 kg, 100 km, OFR003) gets 35 off and costs 665. |
| Examples.NoCodeExample | Tests/DeliveryCostCalculatorTests.cs:52-60 | PKG6 with no code costs 850 with no discount. |
| Examples.EligibilityExamples | Tests/OfferTests.cs:45-72 | OFR001 admits (100 kg, 100 km) and rejects a weight below its band and a distance above it. |
| Examples.ConstructorRejections | Tests/OfferTests.cs:21-42 | Each bad offer argument gives its own error. The same holds for packages (Tests/PackageTests.cs, lines 28–43). |
| Examples.VehicleExample | Tests/VehicleTests.cs:43-81 | At 70 km/h, 140 km take 2 h and 35 km take 0.5 h. Trips to 70 km and 35 km leave the vehicle busy until 3 h. |
| Examples.SelectTooHeavyExample | Tests/PackageSelectorTests.cs:46-56 | A lone 150 kg package on a 100 kg vehicle: nothing is selected. |
| Examples.SelectPairExample | Tests/PackageSelectorTests.cs:157-169 | 60 kg and 40 kg on a 100 kg vehicle: both are selected. |
| Examples.SelectFewerPackagesExample | Tests/PackageSelectorTests.cs:75-88 | 50+50 and 100 weigh the same on a 100 kg vehicle; the single 100 kg package is selected. |
| Examples.SinglePackageExample | Tests/DeliveryTimeEstimatorTests.cs:35-48 | One 50 kg package 70 km away on a 70 km/h vehicle is delivered at 1 h for 950, and the vehicle is back at 2 h. |
| Examples.SelectHeavierPairExample | Tests/PackageSelectorTests.cs:91-106 | 60+40 and 55+45 both reach 100 kg with two packages; the pair holding the 60 kg package is selected. |
| Examples.SelectHeaviestOfFiveExample | Tests/PackageSelectorTests.cs:109-125 | Out of 50, 75, 175, 110 and 155 kg on a 200 kg vehicle, the selected load weighs 185 kg. |
| Examples.OrderedByIdExample | Tests/DeliveryTimeEstimatorTests.cs:51-66 | Packages given as PKG3, PKG1, PKG2 to one 200 kg vehicle come out as PKG1, PKG2, PKG3. |
| Examples.TwoVehicleExample | Tests/DeliveryTimeEstimatorTests.cs:69-100 | Five packages on two 200 kg vehicles get exactly five estimates, one per id, each with its package's cost. |
| Examples.SortedListsEachIdOnce | Application/Services/DeliveryTimeEstimator.cs:65-67 | A list strictly sorted by id has as many entries as distinct ids. |
| Examples.EarliestVehicleDecidesStopExample | Application/Services/DeliveryTimeEstimator.cs:33-41 | With both vehicles free at 0, a 100 kg package is left undelivered when the first vehicle holds 50 kg, even though the second holds 200 kg. |
| Examples.Round2Examples | Tests/DeliveryTimeEstimatorTests.cs:97 | 100/70 hours round to 1.43, and ties go to the even hundredth. |

## Left out

- Console input and output, argument parsing, the service interfaces, and the result records' `ToString` are not part of this model. Neither are the constructors of the calculator and the estimator, beyond the calculator's offer table.
- Null references are not modelled, except the optional offer code (`Option`). The calculator built from a null offer list is the calculator with an empty table. The selector's null-list case behaves like the empty list.
- The constructors that throw are modelled as functions returning a `Result`, one error per check.
- Decimal arithmetic is modelled as exact rationals. The 28-digit precision of the runtime's decimal type and its overflow are not modelled.
- Selection.GetAllCombinations: the cast of 2^n to a 32-bit integer, which overflows for 31 or more packages, is not modelled. The model enumerates all 2^n−1 masks for any n.
- Selection.SelectOptimalPackages: requires positive package weights. Every package that passes its constructor has one. The selector's result for non-positive weights is not covered.
- Scheduling.EstimateDeliveryTimes: requires at least one vehicle. The source throws when there are none and packages are waiting, and returns an empty list when there are none and no packages. The empty-vehicle case is not modelled.
- Scheduling.EstimateDeliveryTimes: requires the vehicles to be distinct objects and the packages to be valid. A vehicle listed twice (aliasing) is not modelled.
- Scheduling.EstimateDeliveryTimes: the final ordering compares ids ordinally, character by character (`Text.Less`). The runtime's culture-sensitive string comparison is not modelled.
- The case-insensitive comparison of offer codes folds ASCII letters only. Other Unicode case mappings are not modelled.
- The enumeration order of the results dictionary is not modelled. The output is sorted by id, and that order is unique.
- Heaviness.SortDescending: stability of the runtime's sort among equal weights is irrelevant, because only the weights are compared. The model sorts weights, not packages.
- Examples.TwoVehicleExample: states the count, the ids and the pricing of the estimates, not the individual delivery times (4.00, 1.79, 1.43, 0.86 and 4.21 hours). Those would need the dispatch loop unrolled pass by pass, each pass with a selection over up to 31 masks; that is not part of this model.
