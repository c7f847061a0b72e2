/** Application/Services/PackageSelector.cs: brute-force choice of the load
    for one vehicle. Every non-empty subset of the packages, as mask 1 .. 2^n-1,
    is weighed; among those within the capacity the selector keeps the heaviest,
    then the one with fewer packages, then the "heavier" one (IsHeavier); a
    later mask replaces the kept one only when strictly better, so on a full
    tie the earliest mask stays. */
module Selection {
  import opened Packages
  import opened Masks
  import opened Heaviness

  /** The largest 32-bit signed integer, the initial "best count". */
  const IntMaxValue: int := 0x7FFF_FFFF

  /** The summed weight of a combination of packages. */
  function TotalWeight(c: seq<Package>): (w: real)
  {
    if c == [] then 0.0 else c[0].weight + TotalWeight(c[1..])
  }

  predicate PositiveWeights(s: seq<Package>)
  {
    forall p :: p in s ==> p.weight > 0.0
  }

  predicate Fits(c: seq<Package>, maxWeight: real)
  {
    TotalWeight(c) <= maxWeight
  }

  /** With positive weights, a package weighs no more than any combination holding it. */
  lemma {:induction false} MemberWeighsAtMostTotal(c: seq<Package>, p: Package)
    requires PositiveWeights(c) && p in c
    ensures 0.0 < p.weight <= TotalWeight(c)
    ensures 0.0 < TotalWeight(c)
  {
    if c[0] != p {
      MemberWeighsAtMostTotal(c[1..], p);
    } else if c[1..] != [] {
      MemberWeighsAtMostTotal(c[1..], c[1]);
    }
  }

  /** The selector's preference: c is strictly better than d (greater total
      weight; else fewer packages; else heavier sorted weights). */
  predicate Outranks(c: seq<Package>, d: seq<Package>)
  {
    var wc, wd := TotalWeight(c), TotalWeight(d);
    || wc > wd
    || (wc == wd && |c| < |d|)
    || (wc == wd && |c| == |d| && IsHeavier(c, d))
  }

  /** Two combinations the preference cannot separate. */
  predicate Tied(c: seq<Package>, d: seq<Package>)
  {
    && TotalWeight(c) == TotalWeight(d)
    && |c| == |d|
    && SortDescending(Weights(c)) == SortDescending(Weights(d))
  }

  lemma OutranksIrreflexive(c: seq<Package>)
    ensures !Outranks(c, c)
  {
    IsHeavierIsStrict(c, c);
  }

  lemma OutranksAsymmetric(c: seq<Package>, d: seq<Package>)
    ensures !(Outranks(c, d) && Outranks(d, c))
  {
    IsHeavierIsStrict(c, d);
  }

  /** The preference is a strict weak order: if a is better than b, every c is
      either worse than a or better than b. */
  lemma OutranksNegativelyTransitive(a: seq<Package>, b: seq<Package>, c: seq<Package>)
    requires a != [] && b != [] && c != []
    requires Outranks(a, b)
    ensures Outranks(a, c) || Outranks(c, b)
  {
    if !Outranks(c, b) && TotalWeight(a) == TotalWeight(b) == TotalWeight(c) && |a| == |b| == |c| {
      IsHeavierTotalOnEqualCounts(c, b, a);
      IsHeavierTotalOnEqualCounts(a, b, c);
    }
  }

  /** Neither of two non-empty combinations is better than the other exactly
      when they are tied. */
  lemma NeitherOutranksIffTied(c: seq<Package>, d: seq<Package>)
    requires c != [] && d != []
    ensures !Outranks(c, d) && !Outranks(d, c) <==> Tied(c, d)
  {
    IsHeavierIsStrict(c, d);
    if |c| == |d| {
      IsHeavierTotalOnEqualCounts(c, d, d);
    }
  }

  /** The selector's running state: bestCombination, bestWeight, bestCount,
      and (for the proofs) the mask that produced the combination, 0 if none. */
  datatype Best = Best(combo: seq<Package>, weight: real, count: int, mask: nat)

  const Initial: Best := Best([], 0.0, IntMaxValue, 0)

  /** The replacement test of the source, against the running best. */
  predicate Beats(c: seq<Package>, b: Best)
  {
    var w := TotalWeight(c);
    || w > b.weight
    || (w == b.weight && |c| < b.count)
    || (w == b.weight && |c| == b.count && IsHeavier(c, b.combo))
  }

  /** One pass of the selector's loop over the combination of the given mask. */
  function Consider(b: Best, c: seq<Package>, mask: nat, maxWeight: real): (next: Best)
  {
    if TotalWeight(c) > maxWeight then b
    else if Beats(c, b) then Best(c, TotalWeight(c), |c|, mask)
    else b
  }

  /** The running state after masks 1 .. i-1 have been considered. */
  function Scan(s: seq<Package>, maxWeight: real, i: nat): (b: Best)
  {
    if i <= 1 then Initial
    else Consider(Scan(s, maxWeight, i - 1), Pick(s, i - 1), i - 1, maxWeight)
  }

  /** What the running state knows after masks 1 .. i-1. */
  ghost predicate ScanFacts(s: seq<Package>, maxWeight: real, i: nat, b: Best)
  {
    && (b.mask == 0 ==> b == Initial && forall m :: 1 <= m < i ==> !Fits(Pick(s, m), maxWeight))
    && (b.mask != 0 ==>
      && 1 <= b.mask < i
      && b.combo == Pick(s, b.mask) && b.combo != []
      && Fits(b.combo, maxWeight)
      && b.weight == TotalWeight(b.combo) && b.count == |b.combo|
      && (forall m :: 1 <= m < i && Fits(Pick(s, m), maxWeight) ==> !Outranks(Pick(s, m), b.combo))
      && (forall m :: 1 <= m < b.mask && Fits(Pick(s, m), maxWeight) ==> Outranks(b.combo, Pick(s, m))))
  }

  /** A combination over the capacity leaves the running best as it is. */
  lemma ScanSkip(s: seq<Package>, maxWeight: real, i: nat, b: Best)
    requires ScanFacts(s, maxWeight, i, b)
    requires !Fits(Pick(s, i), maxWeight)
    ensures ScanFacts(s, maxWeight, i + 1, Consider(b, Pick(s, i), i, maxWeight))
  {
    assert Consider(b, Pick(s, i), i, maxWeight) == b;
    forall m | 1 <= m < i + 1 && Fits(Pick(s, m), maxWeight)
      ensures m < i
    {
    }
  }

  /** The first combination within the capacity becomes the running best. */
  lemma ScanFirst(s: seq<Package>, maxWeight: real, i: nat, b: Best)
    requires PositiveWeights(s) && 1 <= i < Pow2(|s|)
    requires ScanFacts(s, maxWeight, i, b) && b.mask == 0
    requires Fits(Pick(s, i), maxWeight)
    ensures ScanFacts(s, maxWeight, i + 1, Consider(b, Pick(s, i), i, maxWeight))
  {
    var c := Pick(s, i);
    PickNonEmpty(s, i);
    MemberWeighsAtMostTotal(c, c[0]);
    assert Beats(c, b);
    OutranksIrreflexive(c);
  }

  /** A fitting combination that outranks the running best takes its place,
      and the facts carry over to the new best. */
  lemma ScanReplace(s: seq<Package>, maxWeight: real, i: nat, b: Best)
    requires PositiveWeights(s) && 1 <= i < Pow2(|s|)
    requires ScanFacts(s, maxWeight, i, b) && b.mask != 0
    requires Fits(Pick(s, i), maxWeight) && Outranks(Pick(s, i), b.combo)
    ensures ScanFacts(s, maxWeight, i + 1, Consider(b, Pick(s, i), i, maxWeight))
  {
    var c := Pick(s, i);
    PickNonEmpty(s, i);
    assert Beats(c, b);
    forall m | 1 <= m < i + 1 && Fits(Pick(s, m), maxWeight)
      ensures !Outranks(Pick(s, m), c)
    {
      if m == i {
        OutranksIrreflexive(c);
      } else {
        PickNonEmpty(s, m);
        if Outranks(Pick(s, m), c) {
          OutranksNegativelyTransitive(Pick(s, m), c, b.combo);
          OutranksAsymmetric(c, b.combo);
        }
      }
    }
    forall m | 1 <= m < i && Fits(Pick(s, m), maxWeight)
      ensures Outranks(c, Pick(s, m))
    {
      PickNonEmpty(s, m);
      OutranksNegativelyTransitive(c, b.combo, Pick(s, m));
    }
  }

  /** A fitting combination that does not outrank the running best is passed over. */
  lemma ScanKeep(s: seq<Package>, maxWeight: real, i: nat, b: Best)
    requires ScanFacts(s, maxWeight, i, b) && b.mask != 0
    requires Fits(Pick(s, i), maxWeight) && !Outranks(Pick(s, i), b.combo)
    ensures ScanFacts(s, maxWeight, i + 1, Consider(b, Pick(s, i), i, maxWeight))
  {
    assert !Beats(Pick(s, i), b);
  }

  lemma ScanStep(s: seq<Package>, maxWeight: real, i: nat, b: Best)
    requires PositiveWeights(s) && 1 <= i < Pow2(|s|)
    requires ScanFacts(s, maxWeight, i, b)
    ensures ScanFacts(s, maxWeight, i + 1, Consider(b, Pick(s, i), i, maxWeight))
  {
    if !Fits(Pick(s, i), maxWeight) {
      ScanSkip(s, maxWeight, i, b);
    } else if b.mask == 0 {
      ScanFirst(s, maxWeight, i, b);
    } else if Outranks(Pick(s, i), b.combo) {
      ScanReplace(s, maxWeight, i, b);
    } else {
      ScanKeep(s, maxWeight, i, b);
    }
  }

  lemma {:induction false} ScanInvariant(s: seq<Package>, maxWeight: real, i: nat)
    requires PositiveWeights(s) && 1 <= i <= Pow2(|s|)
    ensures ScanFacts(s, maxWeight, i, Scan(s, maxWeight, i))
  {
    if i > 1 {
      ScanInvariant(s, maxWeight, i - 1);
      ScanStep(s, maxWeight, i - 1, Scan(s, maxWeight, i - 1));
    }
  }

  /** The load SelectOptimalPackages returns: empty for an empty input, else
      the combination kept after every mask has been considered. */
  function Selected(s: seq<Package>, maxWeight: real): (r: seq<Package>)
    requires PositiveWeights(s)
    ensures forall p :: p in r ==> p in s
    ensures r != [] ==> Fits(r, maxWeight)
  {
    if s == [] then []
    else
      ScanInvariant(s, maxWeight, Pow2(|s|));
      Scan(s, maxWeight, Pow2(|s|)).combo
  }

  /** The mask that produced the selected load (0 when nothing was kept). */
  function SelectedMask(s: seq<Package>, maxWeight: real): (mask: nat)
  {
    if s == [] then 0 else Scan(s, maxWeight, Pow2(|s|)).mask
  }

  /** The selected load is the subsequence picked by one enumerated mask, or
      empty exactly when no enumerated combination fits. */
  lemma SelectedIsPickedByMask(s: seq<Package>, maxWeight: real)
    requires PositiveWeights(s)
    ensures Selected(s, maxWeight) == [] <==>
      forall m :: 1 <= m < Pow2(|s|) ==> !Fits(Pick(s, m), maxWeight)
    ensures Selected(s, maxWeight) != [] ==>
      && 1 <= SelectedMask(s, maxWeight) < Pow2(|s|)
      && Selected(s, maxWeight) == Pick(s, SelectedMask(s, maxWeight))
      && TotalWeight(Selected(s, maxWeight)) <= maxWeight
  {
    if s != [] {
      ScanInvariant(s, maxWeight, Pow2(|s|));
      var b := Scan(s, maxWeight, Pow2(|s|));
      assert Selected(s, maxWeight) == b.combo;
      if b.mask == 0 {
        assert b.combo == [];
      } else {
        assert b.combo != [];
        assert Fits(Pick(s, b.mask), maxWeight);
      }
    }
  }

  /** No enumerated combination within the capacity is strictly better than
      the selected load. */
  lemma SelectedIsOptimal(s: seq<Package>, maxWeight: real, m: nat)
    requires PositiveWeights(s)
    requires 1 <= m < Pow2(|s|) && Fits(Pick(s, m), maxWeight)
    ensures !Outranks(Pick(s, m), Selected(s, maxWeight))
  {
    ScanInvariant(s, maxWeight, Pow2(|s|));
  }

  /** Primary objective: no combination within the capacity weighs more. */
  lemma SelectedHasMaximumWeight(s: seq<Package>, maxWeight: real, m: nat)
    requires PositiveWeights(s)
    requires 1 <= m < Pow2(|s|) && Fits(Pick(s, m), maxWeight)
    ensures TotalWeight(Pick(s, m)) <= TotalWeight(Selected(s, maxWeight))
  {
    SelectedIsOptimal(s, maxWeight, m);
  }

  /** Second objective: at the selected weight, none has fewer packages. */
  lemma SelectedHasFewestPackages(s: seq<Package>, maxWeight: real, m: nat)
    requires PositiveWeights(s)
    requires 1 <= m < Pow2(|s|) && Fits(Pick(s, m), maxWeight)
    requires TotalWeight(Pick(s, m)) == TotalWeight(Selected(s, maxWeight))
    ensures |Selected(s, maxWeight)| <= |Pick(s, m)|
  {
    SelectedIsOptimal(s, maxWeight, m);
  }

  /** Third objective: at the selected weight and count, none is heavier. */
  lemma SelectedIsHeaviest(s: seq<Package>, maxWeight: real, m: nat)
    requires PositiveWeights(s)
    requires 1 <= m < Pow2(|s|) && Fits(Pick(s, m), maxWeight)
    requires TotalWeight(Pick(s, m)) == TotalWeight(Selected(s, maxWeight))
    requires |Pick(s, m)| == |Selected(s, maxWeight)|
    ensures !IsHeavier(Pick(s, m), Selected(s, maxWeight))
  {
    SelectedIsOptimal(s, maxWeight, m);
  }

  /** On a full tie the earliest mask is kept. */
  lemma SelectedIsEarliestOnTie(s: seq<Package>, maxWeight: real, m: nat)
    requires PositiveWeights(s)
    requires 1 <= m < Pow2(|s|) && Fits(Pick(s, m), maxWeight)
    requires Tied(Pick(s, m), Selected(s, maxWeight))
    ensures SelectedMask(s, maxWeight) <= m
  {
    ScanInvariant(s, maxWeight, Pow2(|s|));
    PickNonEmpty(s, m);
    var b := Scan(s, maxWeight, Pow2(|s|));
    if b.mask != 0 && m < b.mask {
      NeitherOutranksIffTied(Pick(s, m), b.combo);
    }
  }

  /** With positive weights nothing is selected exactly when every single
      package is too heavy on its own. */
  lemma SelectedEmptyIffAllTooHeavy(s: seq<Package>, maxWeight: real)
    requires PositiveWeights(s)
    ensures Selected(s, maxWeight) == [] <==> forall p :: p in s ==> p.weight > maxWeight
  {
    SelectedIsPickedByMask(s, maxWeight);
    var r := Selected(s, maxWeight);
    if r == [] {
      forall p | p in s
        ensures p.weight > maxWeight
      {
        var j :| 0 <= j < |s| && s[j] == p;
        PickSingle(s, j);
        assert TotalWeight([p]) == p.weight;
      }
    } else {
      MemberWeighsAtMostTotal(r, r[0]);
    }
  }

  /** GetAllCombinations: for every mask i in 1 .. 2^n-1, in order, the
      packages at the set bits of i. */
  method GetAllCombinations(packages: seq<Package>) returns (all: seq<seq<Package>>)
    ensures |all| == Pow2(|packages|) - 1
    ensures forall k :: 0 <= k < |all| ==> all[k] == Pick(packages, k + 1)
  {
    all := [];
    var count := |packages|;
    var totalCombinations := Pow2(count);
    var i := 1;
    while i < totalCombinations
      invariant 1 <= i <= totalCombinations
      invariant |all| == i - 1
      invariant forall k :: 0 <= k < |all| ==> all[k] == Pick(packages, k + 1)
    {
      var combination := [];
      for j := 0 to count
        invariant combination == Pick(packages[..j], i)
      {
        assert packages[..j + 1][..j] == packages[..j];
        if Bit(i, j) {
          combination := combination + [packages[j]];
        }
      }
      assert packages[..count] == packages;
      all := all + [combination];
      i := i + 1;
    }
  }

  /** IsHeavierCombination: the positional comparison of the weights sorted
      heaviest first, stopping at the first difference. */
  method IsHeavierCombination(combination1: seq<Package>, combination2: seq<Package>) returns (r: bool)
    ensures r == IsHeavier(combination1, combination2)
  {
    if combination1 == [] || combination2 == [] {
      return combination1 != [];
    }
    var sorted1 := SortDescending(Weights(combination1));
    var sorted2 := SortDescending(Weights(combination2));
    var n := if |sorted1| < |sorted2| then |sorted1| else |sorted2|;
    for i := 0 to n
      invariant LexGreater(sorted1, sorted2) == LexGreater(sorted1[i..], sorted2[i..])
    {
      if sorted1[i] > sorted2[i] {
        return true;
      }
      if sorted1[i] < sorted2[i] {
        return false;
      }
      assert sorted1[i..][1..] == sorted1[i + 1..] && sorted2[i..][1..] == sorted2[i + 1..];
    }
    return false;
  }

  /** SelectOptimalPackages: scans the combinations in mask order and keeps
      the best one seen so far. */
  method SelectOptimalPackages(availablePackages: seq<Package>, maxWeight: real)
    returns (bestCombination: seq<Package>)
    requires PositiveWeights(availablePackages)
    ensures bestCombination == Selected(availablePackages, maxWeight)
  {
    if availablePackages == [] {
      return [];
    }
    bestCombination := [];
    var bestWeight := 0.0;
    var bestCount := IntMaxValue;
    var combinations := GetAllCombinations(availablePackages);
    for k := 0 to |combinations|
      invariant var b := Scan(availablePackages, maxWeight, k + 1);
        b.combo == bestCombination && b.weight == bestWeight && b.count == bestCount
    {
      var combination := combinations[k];
      var totalWeight := TotalWeight(combination);
      if totalWeight > maxWeight {
        continue;
      }
      var better := totalWeight > bestWeight || (totalWeight == bestWeight && |combination| < bestCount);
      if !better && totalWeight == bestWeight && |combination| == bestCount {
        better := IsHeavierCombination(combination, bestCombination);
      }
      if better {
        bestCombination := combination;
        bestWeight := totalWeight;
        bestCount := |combination|;
      }
    }
  }
}
