/** Worked cases from the project's unit tests, stated against the model. */
module Examples {
  import opened Wrappers
  import opened Text
  import opened Offers
  import opened Packages
  import opened Vehicles
  import opened Results
  import opened CostCalculation
  import opened Masks
  import opened Heaviness
  import opened Selection
  import opened Rounding
  import opened Scheduling

  /** The offer table the cost tests run against. */
  function TestOffers(): (os: seq<Offer>)
    ensures |os| == 3
  {
    [ Offer("OFR001", 10.0, 0.0, 200.0, 70.0, 200.0),
      Offer("OFR002", 7.0, 50.0, 150.0, 100.0, 250.0),
      Offer("OFR003", 5.0, 50.0, 250.0, 10.0, 150.0) ]
  }

  /** The table passes the offer constructor's checks. */
  lemma TestOffersAreValid()
    ensures CostCalculator(TestOffers()).Valid()
    ensures forall o :: o in TestOffers() ==>
      NewOffer(o.code, o.discountPercent, o.minDistance, o.maxDistance, o.minWeight, o.maxWeight) == Success(o)
  {
    forall o | o in TestOffers()
      ensures !IsBlank(o.code)
    {
      assert !IsWhiteSpace(o.code[0]);
    }
  }

  /** 100 flat, 5 kg and 5 km: 100 + 50 + 25. */
  lemma BaseCostExample()
    ensures CostCalculator(TestOffers()).BaseCost(100.0, 5.0, 5.0) == 175.0
  {
  }

  /** A 5 kg package is below OFR001's weight band: full price. */
  lemma IneligiblePackageExample()
    ensures CostCalculator(TestOffers()).CalculateCost(100.0, Package("PKG1", 5.0, 5.0, Some("OFR001")))
      == CostResult("PKG1", 0.0, 175.0)
  {
    var c := CostCalculator(TestOffers());
    c.IneligibleNoDiscount(100.0, Package("PKG1", 5.0, 5.0, Some("OFR001")), 0);
  }

  /** 10 kg over 100 km qualifies for OFR003: 5% off 700. */
  lemma EligiblePackageExample()
    ensures CostCalculator(TestOffers()).CalculateCost(100.0, Package("PKG3", 10.0, 100.0, Some("OFR003")))
      == CostResult("PKG3", 35.0, 665.0)
  {
    var c := CostCalculator(TestOffers());
    var p := Package("PKG3", 10.0, 100.0, Some("OFR003"));
    assert !EqualsIgnoreCase(c.offers[0].code, "OFR003") by {
      assert FoldCase(c.offers[0].code[5]) != FoldCase("OFR003"[5]);
    }
    assert !EqualsIgnoreCase(c.offers[1].code, "OFR003") by {
      assert FoldCase(c.offers[1].code[5]) != FoldCase("OFR003"[5]);
    }
    c.EligibleDiscount(100.0, p, 2);
  }

  /** No offer code at all: no discount. */
  lemma NoCodeExample()
    ensures CostCalculator(TestOffers()).CalculateCost(100.0, Package("PKG6", 50.0, 50.0, None))
      == CostResult("PKG6", 0.0, 850.0)
  {
    var c := CostCalculator(TestOffers());
    c.NoCodeNoDiscount(100.0, Package("PKG6", 50.0, 50.0, None));
  }

  /** The eligibility band is inclusive, and both bounds are checked. */
  lemma EligibilityExamples()
    ensures var o := Offer("OFR001", 10.0, 0.0, 200.0, 70.0, 200.0);
      && o.IsEligible(100.0, 100.0)
      && !o.IsEligible(50.0, 100.0)
      && !o.IsEligible(100.0, 250.0)
  {
  }

  /** Each constructor check rejects its own kind of bad argument. */
  lemma ConstructorRejections()
    ensures NewOffer("", 10.0, 0.0, 200.0, 70.0, 200.0) == Failure(BlankCode)
    ensures NewOffer("OFR001", -10.0, 0.0, 200.0, 70.0, 200.0) == Failure(DiscountOutOfRange)
    ensures NewOffer("OFR001", 10.0, 200.0, 100.0, 70.0, 200.0) == Failure(InvalidDistanceRange)
    ensures NewOffer("OFR001", 10.0, 0.0, 200.0, 200.0, 70.0) == Failure(InvalidWeightRange)
    ensures NewPackage("", 50.0, 100.0) == Failure(BlankId)
    ensures NewPackage("PKG1", 0.0, 100.0) == Failure(NonPositiveWeight)
    ensures NewPackage("PKG1", 50.0, 0.0) == Failure(NonPositiveDistance)
  {
    assert IsBlank("");
    assert !IsBlank("OFR001") by { assert !IsWhiteSpace("OFR001"[0]); }
    assert !IsBlank("PKG1") by { assert !IsWhiteSpace("PKG1"[0]); }
  }

  /** A 200 kg, 70 km/h vehicle: two round trips of 70 km and 35 km keep it
      busy for 2 and then 1 more hour. */
  method VehicleExample() returns (v: Vehicle)
    ensures fresh(v) && v.capacity == 200.0 && v.speed == 70.0
    ensures v.DeliveryTime(140.0) == 2.0 && v.DeliveryTime(35.0) == 0.5
    ensures v.availableAt == 3.0
  {
    v := new Vehicle(1, 200.0, 70.0);
    v.AssignTrip(70.0);
    assert v.availableAt == 2.0;
    v.AssignTrip(35.0);
  }

  /** A single package heavier than the vehicle: nothing can be loaded. */
  lemma SelectTooHeavyExample()
    ensures Selected([Package("PKG1", 150.0, 100.0, None)], 100.0) == []
  {
    SelectedEmptyIffAllTooHeavy([Package("PKG1", 150.0, 100.0, None)], 100.0);
  }

  /** Two packages that together fill the vehicle exactly are both taken. */
  lemma SelectPairExample()
    ensures var s := [Package("PKG1", 60.0, 100.0, None), Package("PKG2", 40.0, 100.0, None)];
      Selected(s, 100.0) == s
  {
    var s := [Package("PKG1", 60.0, 100.0, None), Package("PKG2", 40.0, 100.0, None)];
    OnlyBothReachHundred(s);
    SelectedIsPickedByMask(s, 100.0);
    SelectedHasMaximumWeight(s, 100.0, 3);
  }

  /** Pick on two elements, spelled out bit by bit. */
  lemma PickOfTwo<T>(s: seq<T>, m: nat)
    requires |s| == 2
    ensures Pick(s, m) == (if Bit(m, 0) then [s[0]] else []) + (if Bit(m, 1) then [s[1]] else [])
  {
    assert s[..1] == [s[0]] && s[..1][..0] == [];
  }

  /** Of the subsets of 60 and 40, only both together reach 100 kg. */
  lemma OnlyBothReachHundred(s: seq<Package>)
    requires s == [Package("PKG1", 60.0, 100.0, None), Package("PKG2", 40.0, 100.0, None)]
    ensures Pow2(|s|) == 4 && Pick(s, 3) == s && TotalWeight(s) == 100.0
    ensures forall m: nat | 1 <= m < 4 :: TotalWeight(Pick(s, m)) >= 100.0 ==> Pick(s, m) == s
  {
    assert Pow2(|s|) == 4;
    forall m: nat | 1 <= m < 4
      ensures TotalWeight(Pick(s, m)) >= 100.0 ==> Pick(s, m) == s
    {
      PairPick(s, m);
    }
    PairPick(s, 3);
  }

  /** The pick of one mask over 60 and 40, and its weight. */
  lemma PairPick(s: seq<Package>, m: nat)
    requires s == [Package("PKG1", 60.0, 100.0, None), Package("PKG2", 40.0, 100.0, None)]
    requires 1 <= m < 4
    ensures m == 3 ==> Pick(s, m) == s && TotalWeight(s) == 100.0
    ensures m != 3 ==> TotalWeight(Pick(s, m)) < 100.0
  {
    PickOfTwo(s, m);
    var b0, b1 := Bit(m, 0), Bit(m / 2, 0);
    assert Bit(m, 1) == b1;
    if m == 1 {
      assert b0 && !b1;
      assert Pick(s, m) == [s[0]] && [s[0]][1..] == [];
      assert TotalWeight(Pick(s, m)) == 60.0;
    } else if m == 2 {
      assert !b0 && b1;
      assert Pick(s, m) == [s[1]] && [s[1]][1..] == [];
      assert TotalWeight(Pick(s, m)) == 40.0;
    } else {
      assert b0 && b1;
      assert s[1..] == [s[1]] && [s[1]][1..] == [];
      assert TotalWeight([s[1]]) == 40.0;
    }
  }

  /** Pick on three elements, spelled out bit by bit. */
  lemma PickOfThree<T>(s: seq<T>, m: nat)
    requires |s| == 3
    ensures Pick(s, m) == (if Bit(m, 0) then [s[0]] else []) + (if Bit(m, 1) then [s[1]] else [])
                          + (if Bit(m, 2) then [s[2]] else [])
  {
    assert s[..2][..1] == [s[0]] && s[..2] == [s[0], s[1]];
    assert Pick(s[..2][..1], m) == (if Bit(m, 0) then [s[0]] else []);
  }



  /** 50 + 50 and 100 weigh the same; the single package wins on count. */
  lemma SelectFewerPackagesExample()
    ensures var s := [Package("PKG1", 50.0, 100.0, None), Package("PKG2", 50.0, 100.0, None),
                      Package("PKG3", 100.0, 100.0, None)];
      Selected(s, 100.0) == [s[2]]
  {
    var s := [Package("PKG1", 50.0, 100.0, None), Package("PKG2", 50.0, 100.0, None),
              Package("PKG3", 100.0, 100.0, None)];
    OnlySingleHundred(s);
    assert Fits(Pick(s, 4), 100.0);
    SelectedIsPickedByMask(s, 100.0);
    var r := Selected(s, 100.0);
    assert r != [] && r == Pick(s, SelectedMask(s, 100.0)) && TotalWeight(r) <= 100.0;
    SelectedHasMaximumWeight(s, 100.0, 4);
    SelectedHasFewestPackages(s, 100.0, 4);
    SingleHundredChosen(s, r, SelectedMask(s, 100.0));
  }

  /** The only one-package combination reaching 100 kg is PKG3 alone. */
  lemma SingleHundredChosen(s: seq<Package>, r: seq<Package>, mask: nat)
    requires s == [Package("PKG1", 50.0, 100.0, None), Package("PKG2", 50.0, 100.0, None),
                   Package("PKG3", 100.0, 100.0, None)]
    requires 1 <= mask < 8 && r == Pick(s, mask)
    requires TotalWeight(r) >= 100.0 && |r| <= 1
    ensures r == [s[2]]
  {
    OnlySingleHundred(s);
  }

  /** Among the non-empty subsets of 50, 50 and 100, only the last package
      alone reaches 100 kg with at most one package. */
  lemma OnlySingleHundred(s: seq<Package>)
    requires s == [Package("PKG1", 50.0, 100.0, None), Package("PKG2", 50.0, 100.0, None),
                   Package("PKG3", 100.0, 100.0, None)]
    ensures Pow2(|s|) == 8 && Pick(s, 4) == [s[2]] && TotalWeight([s[2]]) == 100.0
    ensures forall m: nat | 1 <= m < 8 ::
      |Pick(s, m)| <= 1 && TotalWeight(Pick(s, m)) >= 100.0 ==> Pick(s, m) == [s[2]]
  {
    assert Pow2(|s|) == 8;
    forall m: nat | 1 <= m < 8
      ensures |Pick(s, m)| <= 1 && TotalWeight(Pick(s, m)) >= 100.0 ==> Pick(s, m) == [s[2]]
    {
      TriplePick(s, m);
    }
    TriplePick(s, 4);
  }

  /** The pick of one mask over 50, 50 and 100: the last package alone, one of
      the lighter ones alone, or at least two packages. */
  lemma TriplePick(s: seq<Package>, m: nat)
    requires s == [Package("PKG1", 50.0, 100.0, None), Package("PKG2", 50.0, 100.0, None),
                   Package("PKG3", 100.0, 100.0, None)]
    requires 1 <= m < 8
    ensures m == 4 ==> Pick(s, m) == [s[2]] && TotalWeight([s[2]]) == 100.0
    ensures m == 1 || m == 2 ==> TotalWeight(Pick(s, m)) < 100.0
    ensures m != 1 && m != 2 && m != 4 ==> |Pick(s, m)| >= 2
  {
    PickOfThree(s, m);
    var b0, b1, b2 := Bit(m, 0), Bit(m / 2, 0), Bit(m / 4, 0);
    assert Bit(m, 1) == b1 && Bit(m, 2) == b2;
    if m == 1 {
      assert b0 && !b1 && !b2;
      assert Pick(s, m) == [s[0]] && [s[0]][1..] == [];
      assert TotalWeight(Pick(s, m)) == 50.0;
    } else if m == 2 {
      assert !b0 && b1 && !b2;
      assert Pick(s, m) == [s[1]] && [s[1]][1..] == [];
      assert TotalWeight(Pick(s, m)) == 50.0;
    } else if m == 4 {
      assert !b0 && !b1 && b2;
      assert [s[2]][1..] == [];
    } else {
      assert (b0 && b1) || (b0 && b2) || (b1 && b2);
    }
  }

  /** The vehicle free first decides when the loop stops: with both vehicles
      free at time 0 the first one is chosen, and a package too heavy for it
      is left undelivered even though the second vehicle could carry it. */
  lemma EarliestVehicleDecidesStopExample(calculator: CostCalculator, small: Vehicle, large: Vehicle)
    requires small.capacity == 50.0 && large.capacity == 200.0
    ensures var st := Progress(map[], [0.0, 0.0], [Package("PKG1", 100.0, 100.0, None)]);
      && Ready([small, large], st)
      && Dispatch(calculator, 100.0, [small, large], st) == st
  {
    var st := Progress(map[], [0.0, 0.0], [Package("PKG1", 100.0, 100.0, None)]);
    assert !IsBlank("PKG1") by { assert !IsWhiteSpace("PKG1"[0]); }
    assert Earliest(st.avail) == 0;
    SelectedEmptyIffAllTooHeavy(st.remaining, 50.0);
  }

  /** The selector puts a lone 50 kg package on a 200 kg vehicle. */
  lemma SingleLoad(v: Vehicle, p: Package)
    requires v.capacity == 200.0 && p == Package("PKG1", 50.0, 70.0, None)
    ensures Ready([v], Progress(map[], [0.0], [p]))
    ensures Load([v], Progress(map[], [0.0], [p])) == [p]
  {
    var st := Progress(map[], [0.0], [p]);
    assert !IsBlank("PKG1") by { assert !IsWhiteSpace("PKG1"[0]); }
    assert Earliest(st.avail) == 0;
    SelectedSingle(p, 200.0);
  }

  /** A lone package within the capacity is loaded on its own. */
  lemma SelectedSingle(p: Package, maxWeight: real)
    requires 0.0 < p.weight <= maxWeight
    ensures Selected([p], maxWeight) == [p]
  {
    assert Pow2(1) == 2;
    assert [p][..0] == [] && Pick([p], 1) == [p];
    assert [p][1..] == [] && TotalWeight([p]) == p.weight;
    assert Beats([p], Initial);
    assert Scan([p], maxWeight, 2) == Best([p], p.weight, 1, 1);
  }

  /** One 50 kg package 70 km away on a 70 km/h vehicle: delivered in an hour,
      at 100 + 500 + 350 with no offer, and the vehicle is back after two. */
  lemma SinglePackageExample(v: Vehicle)
    requires v.capacity == 200.0 && v.speed == 70.0
    ensures var st := Progress(map[], [0.0], [Package("PKG1", 50.0, 70.0, None)]);
      && Ready([v], st)
      && Dispatch(CostCalculator([]), 100.0, [v], st)
         == Progress(map["PKG1" := TimeResult("PKG1", 0.0, 950.0, 1.0)], [2.0], [])
  {
    var p := Package("PKG1", 50.0, 70.0, None);
    var st := Progress(map[], [0.0], [p]);
    SingleLoad(v, p);
    var next := Advance(CostCalculator([]), 100.0, [v], st);
    assert [p][..0] == [];
    assert next.remaining == [];
    assert v.DeliveryTime(70.0) == 1.0;
    Round2Examples();
    assert next.results == map["PKG1" := TimeResult("PKG1", 0.0, 950.0, 1.0)];
    assert next.avail == [2.0];
  }

  /** The weight of two combinations side by side is the sum of their weights. */
  lemma {:induction false} TotalWeightAppend(a: seq<Package>, b: seq<Package>)
    ensures TotalWeight(a + b) == TotalWeight(a) + TotalWeight(b)
  {
    if a != [] {
      assert (a + b)[1..] == a[1..] + b;
      TotalWeightAppend(a[1..], b);
    } else {
      assert a + b == b;
    }
  }

  /** Pick on four elements, spelled out bit by bit. */
  lemma PickOfFour<T>(s: seq<T>, m: nat)
    requires |s| == 4
    ensures Pick(s, m) == (if Bit(m, 0) then [s[0]] else []) + (if Bit(m, 1) then [s[1]] else [])
                          + (if Bit(m, 2) then [s[2]] else []) + (if Bit(m, 3) then [s[3]] else [])
  {
    PickOfThree(s[..3], m);
  }

  /** A single package or nothing. */
  function Opt(b: bool, p: Package): (r: seq<Package>)
  { if b then [p] else [] }

  lemma WeightOfFour(s: seq<Package>, m: nat)
    requires |s| == 4
    ensures TotalWeight(Pick(s, m)) ==
      (if Bit(m, 0) then s[0].weight else 0.0) + (if Bit(m, 1) then s[1].weight else 0.0)
      + (if Bit(m, 2) then s[2].weight else 0.0) + (if Bit(m, 3) then s[3].weight else 0.0)
  {
    PickOfFour(s, m);
    var a, b, c, d := Opt(Bit(m, 0), s[0]), Opt(Bit(m, 1), s[1]), Opt(Bit(m, 2), s[2]), Opt(Bit(m, 3), s[3]);
    TotalWeightAppend(a + b + c, d);
    TotalWeightAppend(a + b, c);
    TotalWeightAppend(a, b);
    assert forall x: Package :: TotalWeight([x]) == x.weight by {
      forall x: Package ensures TotalWeight([x]) == x.weight { assert [x][1..] == []; }
    }
  }

  /** Of the subsets of 60, 40, 55 and 45, only the first two together and the
      last two together weigh exactly 100 kg. */
  lemma FourPick(s: seq<Package>, m: nat)
    requires s == [Package("PKG1", 60.0, 30.0, None), Package("PKG2", 40.0, 125.0, None),
                   Package("PKG3", 55.0, 100.0, None), Package("PKG4", 45.0, 50.0, None)]
    requires TotalWeight(Pick(s, m)) == 100.0
    ensures Pick(s, m) == [s[0], s[1]] || Pick(s, m) == [s[2], s[3]]
  {
    WeightOfFour(s, m);
    PickOfFour(s, m);
  }

  /** [60, 40] is heavier than [55, 45]. */
  lemma HeavierPair(s: seq<Package>)
    requires s == [Package("PKG1", 60.0, 30.0, None), Package("PKG2", 40.0, 125.0, None),
                   Package("PKG3", 55.0, 100.0, None), Package("PKG4", 45.0, 50.0, None)]
    ensures IsHeavier([s[0], s[1]], [s[2], s[3]])
  {
    assert Weights([s[0], s[1]]) == [60.0, 40.0];
    assert Weights([s[2], s[3]]) == [55.0, 45.0];
    assert SortDescending([40.0]) == [40.0];
    assert SortDescending([60.0, 40.0]) == [60.0, 40.0];
    assert SortDescending([45.0]) == [45.0];
    assert SortDescending([55.0, 45.0]) == [55.0, 45.0];
  }

  /** A fitting 100 kg pick over 60, 40, 55 and 45 that [60, 40] is not heavier
      than is [60, 40] itself. */
  lemma PairChosen(s: seq<Package>, r: seq<Package>, mask: nat)
    requires s == [Package("PKG1", 60.0, 30.0, None), Package("PKG2", 40.0, 125.0, None),
                   Package("PKG3", 55.0, 100.0, None), Package("PKG4", 45.0, 50.0, None)]
    requires r == Pick(s, mask) && TotalWeight(r) == 100.0
    requires |r| == 2 ==> !IsHeavier([s[0], s[1]], r)
    ensures r == [s[0], s[1]]
  {
    FourPick(s, mask);
    HeavierPair(s);
  }

  /** Same weight and count: the pair holding the heavier package wins. */
  lemma SelectHeavierPairExample()
    ensures var s := [Package("PKG1", 60.0, 30.0, None), Package("PKG2", 40.0, 125.0, None),
                      Package("PKG3", 55.0, 100.0, None), Package("PKG4", 45.0, 50.0, None)];
      Selected(s, 100.0) == [s[0], s[1]]
  {
    var s := [Package("PKG1", 60.0, 30.0, None), Package("PKG2", 40.0, 125.0, None),
              Package("PKG3", 55.0, 100.0, None), Package("PKG4", 45.0, 50.0, None)];
    assert Pow2(2) == 4 && Pow2(3) == 8 && Pow2(|s|) == 16;
    WeightOfFour(s, 3);
    PickOfFour(s, 3);
    assert Bit(3, 0) && Bit(3, 1) && !Bit(3, 2) && !Bit(3, 3);
    assert Pick(s, 3) == [s[0], s[1]] && Fits(Pick(s, 3), 100.0);
    SelectedIsPickedByMask(s, 100.0);
    var r := Selected(s, 100.0);
    assert r != [] && r == Pick(s, SelectedMask(s, 100.0)) && TotalWeight(r) <= 100.0;
    SelectedHasMaximumWeight(s, 100.0, 3);
    if |r| == 2 {
      SelectedIsHeaviest(s, 100.0, 3);
    }
    PairChosen(s, r, SelectedMask(s, 100.0));
  }

  /** Pick on five elements, spelled out bit by bit. */
  lemma PickOfFive<T>(s: seq<T>, m: nat)
    requires |s| == 5
    ensures Pick(s, m) == (if Bit(m, 0) then [s[0]] else []) + (if Bit(m, 1) then [s[1]] else [])
                          + (if Bit(m, 2) then [s[2]] else []) + (if Bit(m, 3) then [s[3]] else [])
                          + (if Bit(m, 4) then [s[4]] else [])
  {
    PickOfFour(s[..4], m);
  }

  lemma WeightOfFive(s: seq<Package>, m: nat)
    requires |s| == 5
    ensures TotalWeight(Pick(s, m)) ==
      (if Bit(m, 0) then s[0].weight else 0.0) + (if Bit(m, 1) then s[1].weight else 0.0)
      + (if Bit(m, 2) then s[2].weight else 0.0) + (if Bit(m, 3) then s[3].weight else 0.0)
      + (if Bit(m, 4) then s[4].weight else 0.0)
  {
    var n := 4;
    assert Pick(s, m) == Pick(s[..n], m) + Opt(Bit(m, n), s[n]);
    WeightOfFour(s[..n], m);
    TotalWeightAppend(Pick(s[..n], m), Opt(Bit(m, n), s[n]));
    assert [s[n]][1..] == [];
  }

  /** Of the subsets of 50, 75, 175, 110 and 155, none within 200 kg weighs more than 185 kg. */
  lemma FivePick(s: seq<Package>, m: nat)
    requires s == [Package("PKG1", 50.0, 30.0, None), Package("PKG2", 75.0, 125.0, None),
                   Package("PKG3", 175.0, 100.0, None), Package("PKG4", 110.0, 60.0, None),
                   Package("PKG5", 155.0, 95.0, None)]
    requires TotalWeight(Pick(s, m)) <= 200.0
    ensures TotalWeight(Pick(s, m)) <= 185.0
  {
    WeightOfFive(s, m);
  }

  /** The heaviest load within 200 kg out of five packages weighs 185 kg. */
  lemma SelectHeaviestOfFiveExample()
    ensures var s := [Package("PKG1", 50.0, 30.0, None), Package("PKG2", 75.0, 125.0, None),
                      Package("PKG3", 175.0, 100.0, None), Package("PKG4", 110.0, 60.0, None),
                      Package("PKG5", 155.0, 95.0, None)];
      TotalWeight(Selected(s, 200.0)) == 185.0
  {
    var s := [Package("PKG1", 50.0, 30.0, None), Package("PKG2", 75.0, 125.0, None),
              Package("PKG3", 175.0, 100.0, None), Package("PKG4", 110.0, 60.0, None),
              Package("PKG5", 155.0, 95.0, None)];
    assert Pow2(2) == 4 && Pow2(3) == 8 && Pow2(4) == 16 && Pow2(|s|) == 32;
    WeightOfFive(s, 10);
    assert !Bit(10, 0) && Bit(10, 1) && !Bit(10, 2) && Bit(10, 3) && !Bit(10, 4);
    assert Fits(Pick(s, 10), 200.0);
    SelectedIsPickedByMask(s, 200.0);
    SelectedHasMaximumWeight(s, 200.0, 10);
    FivePick(s, SelectedMask(s, 200.0));
  }

  /** The ids of a non-empty list: its head's id and the ids of its tail. */
  lemma ResultIdsCons(es: seq<TimeResult>)
    requires es != []
    ensures ResultIds(es) == {es[0].packageId} + ResultIds(es[1..])
  {
    assert es == [es[0]] + es[1..];
  }

  /** The tail of a sorted list is sorted, and its ids all come after the head's. */
  lemma SortedTail(es: seq<TimeResult>)
    requires SortedById(es) && es != []
    ensures SortedById(es[1..])
    ensures es[0].packageId !in ResultIds(es[1..])
  {
    forall r | r in es[1..] ensures r.packageId != es[0].packageId {
      var j :| 0 <= j < |es[1..]| && es[1..][j] == r;
      assert Less(es[0].packageId, es[j + 1].packageId);
      LessIrreflexive(es[0].packageId);
    }
  }

  /** A list strictly sorted by id holds each of its ids once. */
  lemma {:induction false} SortedListsEachIdOnce(es: seq<TimeResult>)
    requires SortedById(es)
    ensures |ResultIds(es)| == |es|
  {
    if es != [] {
      SortedTail(es);
      SortedListsEachIdOnce(es[1..]);
      ResultIdsCons(es);
    }
  }

  /** Three ids in a sorted list appear in their order. */
  lemma SortedThreeIds(es: seq<TimeResult>, a: string, b: string, c: string)
    requires SortedById(es) && ResultIds(es) == {a, b, c}
    requires Less(a, b) && Less(b, c)
    ensures |es| == 3 && es[0].packageId == a && es[1].packageId == b && es[2].packageId == c
  {
    LessTransitive(a, b, c);
    LessIrreflexive(a); LessIrreflexive(b); LessIrreflexive(c);
    LessTotal(a, b); LessTotal(b, c); LessTotal(a, c);
    assert |{a, b, c}| == 3;
    SortedListsEachIdOnce(es);
    assert es[0] in es && es[1] in es && es[2] in es;
    assert Less(es[0].packageId, es[1].packageId) && Less(es[1].packageId, es[2].packageId);
  }

  /** Three packages, each light enough for the one vehicle, come out in id order. */
  lemma ListedInOrder(packages: seq<Package>, estimates: seq<TimeResult>)
    requires packages == [Package("PKG3", 50.0, 30.0, None), Package("PKG1", 75.0, 125.0, None),
                          Package("PKG2", 100.0, 100.0, None)]
    requires SortedById(estimates) && ResultIds(estimates) == IdSet(packages)
    ensures |estimates| == 3
    ensures estimates[0].packageId == "PKG1" && estimates[1].packageId == "PKG2"
    ensures estimates[2].packageId == "PKG3"
  {
    assert IdSet(packages) == {"PKG1", "PKG2", "PKG3"};
    LessExamples();
    SortedThreeIds(estimates, "PKG1", "PKG2", "PKG3");
  }

  /** The estimates of a run are listed by id whatever order the packages came in. */
  method OrderedByIdExample() returns (estimates: seq<TimeResult>)
    ensures |estimates| == 3
    ensures estimates[0].packageId == "PKG1" && estimates[1].packageId == "PKG2"
    ensures estimates[2].packageId == "PKG3"
  {
    var packages := [Package("PKG3", 50.0, 30.0, None), Package("PKG1", 75.0, 125.0, None),
                     Package("PKG2", 100.0, 100.0, None)];
    assert AllValid(packages) by {
      assert !IsWhiteSpace("PKG1"[0]) && !IsWhiteSpace("PKG2"[0]) && !IsWhiteSpace("PKG3"[0]);
    }
    var v := new Vehicle(1, 200.0, 70.0);
    assert forall p, i :: p in packages && 0 <= i < |[v]| ==> p.weight <= [v][i].capacity;
    estimates := EstimateDeliveryTimes(CostCalculator(TestOffers()), 100.0, packages, [v]);
    ListedInOrder(packages, estimates);
  }

  /** The five packages of the two-vehicle run, with their offer codes. */
  function TwoVehiclePackages(): (ps: seq<Package>)
    ensures |ps| == 5
  {
    [ Package("PKG1", 50.0, 30.0, Some("OFR001")), Package("PKG2", 75.0, 125.0, Some("OFR008")),
      Package("PKG3", 175.0, 100.0, Some("OFR003")), Package("PKG4", 110.0, 60.0, Some("OFR002")),
      Package("PKG5", 155.0, 95.0, Some("NA")) ]
  }

  /** The ids of the two-vehicle run. */
  lemma TwoVehicleIds()
    ensures IdSet(TwoVehiclePackages()) == {"PKG1", "PKG2", "PKG3", "PKG4", "PKG5"}
  {
    var ps := TwoVehiclePackages();
    assert ps[0] in ps && ps[1] in ps && ps[2] in ps && ps[3] in ps && ps[4] in ps;
  }

  /** The five ids differ in their last character, so there are five of them. */
  lemma FiveIdsDiffer()
    ensures |{"PKG1", "PKG2", "PKG3", "PKG4", "PKG5"}| == 5
  {
    var ids := ["PKG1", "PKG2", "PKG3", "PKG4", "PKG5"];
    forall i, j | 0 <= i < j < 5 ensures ids[i] != ids[j] {
      assert ids[i][3] != ids[j][3];
    }
    assert {"PKG1", "PKG2", "PKG3", "PKG4"} == {ids[0], ids[1], ids[2], ids[3]};
    assert |{"PKG1", "PKG2", "PKG3", "PKG4"}| == 4;
  }

  /** Five different ids listed once each make a list of five. */
  lemma FiveListed(estimates: seq<TimeResult>)
    requires SortedById(estimates) && ResultIds(estimates) == IdSet(TwoVehiclePackages())
    ensures |estimates| == 5
    ensures ResultIds(estimates) == {"PKG1", "PKG2", "PKG3", "PKG4", "PKG5"}
  {
    TwoVehicleIds();
    FiveIdsDiffer();
    SortedListsEachIdOnce(estimates);
  }

  /** Five packages on two vehicles of 200 kg: every package gets exactly one
      estimate, priced by the calculator. */
  method TwoVehicleExample() returns (estimates: seq<TimeResult>)
    ensures |estimates| == 5
    ensures ResultIds(estimates) == {"PKG1", "PKG2", "PKG3", "PKG4", "PKG5"}
    ensures forall r :: r in estimates ==>
      exists p :: p in TwoVehiclePackages() && p.id == r.packageId
                  && r.totalCost == CostCalculator(TestOffers()).CalculateCost(100.0, p).totalCost
  {
    var packages := TwoVehiclePackages();
    assert AllValid(packages) by {
      forall p | p in packages ensures p.Valid() { assert !IsWhiteSpace(p.id[0]); }
    }
    var v1 := new Vehicle(1, 200.0, 70.0);
    var v2 := new Vehicle(2, 200.0, 70.0);
    var vehicles := [v1, v2];
    assert forall p, i :: p in packages && 0 <= i < |vehicles| ==> p.weight <= vehicles[i].capacity;
    estimates := EstimateDeliveryTimes(CostCalculator(TestOffers()), 100.0, packages, vehicles);
    FiveListed(estimates);
  }
}
