/** Application/Services/DeliveryTimeEstimator.cs: the dispatch loop. All
    vehicles are reset; then, while packages remain, the earliest-free vehicle
    (first in the list on ties) takes the load the selector picks for its
    capacity, each package in it is priced and timestamped, the vehicle is
    sent on a round trip to the farthest of them, and the load leaves the
    pool. The loop stops early when the chosen vehicle can carry nothing.
    Results are keyed by package id and returned sorted by id.

    The method works on Vehicle objects in place; it is proved against
    Dispatch, the same loop written as a function over the vehicles'
    availability times. */
module Scheduling {
  import opened Text
  import opened Packages
  import opened Vehicles
  import opened Results
  import opened CostCalculation
  import opened Selection
  import opened Rounding

  predicate AllValid(s: seq<Package>)
  {
    forall p :: p in s ==> p.Valid()
  }

  function Zeros(n: nat): (z: seq<real>)
    ensures |z| == n && forall i :: 0 <= i < n ==> z[i] == 0.0
  {
    seq(n, _ => 0.0)
  }

  /** The vehicle the loop picks, as an index into the availability times: a
      minimum, and the first one in list order among equals (a stable sort by
      availability, then its first element). */
  function Earliest(avail: seq<real>): (k: nat)
    requires |avail| > 0
    ensures k < |avail|
    ensures forall j :: 0 <= j < |avail| ==> avail[k] <= avail[j]
    ensures forall j :: 0 <= j < k ==> avail[j] > avail[k]
  {
    if |avail| == 1 then 0
    else
      var k := Earliest(avail[..|avail| - 1]);
      if avail[|avail| - 1] < avail[k] then |avail| - 1 else k
  }

  /** The distance of the farthest package of a non-empty load. */
  function MaxDistance(sel: seq<Package>): (d: real)
    requires sel != []
    ensures exists i :: 0 <= i < |sel| && sel[i].distance == d
    ensures forall p :: p in sel ==> p.distance <= d
  {
    if |sel| == 1 then sel[0].distance
    else
      var rest := MaxDistance(sel[1..]);
      if sel[0].distance >= rest then sel[0].distance else rest
  }

  function IdSet(s: seq<Package>): (ids: set<string>)
  {
    set p | p in s :: p.id
  }

  /** The pool without every package carrying the given id, order kept. */
  function Without(s: seq<Package>, id: string): (r: seq<Package>)
    ensures forall p :: p in r <==> p in s && p.id != id
    ensures |r| <= |s|
    ensures (exists p :: p in s && p.id == id) ==> |r| < |s|
  {
    if s == [] then []
    else if s[0].id == id then Without(s[1..], id)
    else [s[0]] + Without(s[1..], id)
  }

  /** The removal loop: the pool without every package sharing an id with the load. */
  function RemoveSelected(s: seq<Package>, sel: seq<Package>): (r: seq<Package>)
    ensures forall p :: p in r <==> p in s && p.id !in IdSet(sel)
    ensures |r| <= |s|
    ensures (exists p :: p in s && p.id in IdSet(sel)) ==> |r| < |s|
  {
    if sel == [] then s
    else
      var n := |sel| - 1;
      assert IdSet(sel) == IdSet(sel[..n]) + {sel[n].id} by {
        assert sel == sel[..n] + [sel[n]];
      }
      Without(RemoveSelected(s, sel[..n]), sel[n].id)
  }

  /** The result recorded for one package of a load leaving at the given time. */
  function Delivery(calculator: CostCalculator, baseDeliveryCost: real, p: Package, departure: real, v: Vehicle)
    : (r: TimeResult)
  {
    var cost := calculator.CalculateCost(baseDeliveryCost, p);
    TimeResult(p.id, cost.discount, cost.totalCost, Round2(departure + v.DeliveryTime(p.distance)))
  }

  /** The timestamping loop: each package of the load in turn stores its result
      under its id, so a later package with the same id overwrites an earlier one. */
  function Record(calculator: CostCalculator, baseDeliveryCost: real, results: map<string, TimeResult>,
                  sel: seq<Package>, departure: real, v: Vehicle): (r: map<string, TimeResult>)
    ensures r.Keys == results.Keys + IdSet(sel)
    ensures forall k :: k in results && k !in IdSet(sel) ==> r[k] == results[k]
  {
    if sel == [] then results
    else
      var n := |sel| - 1;
      assert IdSet(sel) == IdSet(sel[..n]) + {sel[n].id} by {
        assert sel == sel[..n] + [sel[n]];
      }
      Record(calculator, baseDeliveryCost, results, sel[..n], departure, v)
        [sel[n].id := Delivery(calculator, baseDeliveryCost, sel[n], departure, v)]
  }

  /** Recording one more package overwrites the entry for its id. */
  lemma RecordExtend(calculator: CostCalculator, baseDeliveryCost: real, results: map<string, TimeResult>,
                     sel: seq<Package>, p: Package, departure: real, v: Vehicle)
    ensures Record(calculator, baseDeliveryCost, results, sel + [p], departure, v)
         == Record(calculator, baseDeliveryCost, results, sel, departure, v)
              [p.id := Delivery(calculator, baseDeliveryCost, p, departure, v)]
  {
    assert (sel + [p])[..|sel|] == sel;
  }

  /** The entry for a package of the load is that package's delivery, unless a
      later package of the load has the same id. */
  lemma {:induction false} RecordLastWriteWins(calculator: CostCalculator, baseDeliveryCost: real,
                                               results: map<string, TimeResult>, sel: seq<Package>,
                                               departure: real, v: Vehicle, i: nat)
    requires i < |sel|
    requires forall j :: i < j < |sel| ==> sel[j].id != sel[i].id
    ensures sel[i].id in Record(calculator, baseDeliveryCost, results, sel, departure, v)
    ensures Record(calculator, baseDeliveryCost, results, sel, departure, v)[sel[i].id]
         == Delivery(calculator, baseDeliveryCost, sel[i], departure, v)
  {
    var n := |sel| - 1;
    if i < n {
      assert sel[..n][i] == sel[i];
      forall j | i < j < n
        ensures sel[..n][j].id != sel[..n][i].id
      {
        assert sel[..n][j] == sel[j];
      }
      RecordLastWriteWins(calculator, baseDeliveryCost, results, sel[..n], departure, v, i);
    }
  }

  /** Every entry for an id of the load is the delivery of a package of the
      load with that id. */
  lemma {:induction false} RecordFromLoad(calculator: CostCalculator, baseDeliveryCost: real,
                                          results: map<string, TimeResult>, sel: seq<Package>,
                                          departure: real, v: Vehicle, k: string)
    requires k in IdSet(sel)
    ensures k in Record(calculator, baseDeliveryCost, results, sel, departure, v)
    ensures exists p :: (p in sel && p.id == k &&
                         Record(calculator, baseDeliveryCost, results, sel, departure, v)[k]
                         == Delivery(calculator, baseDeliveryCost, p, departure, v))
  {
    var n := |sel| - 1;
    assert sel == sel[..n] + [sel[n]];
    if sel[n].id == k {
      assert sel[n] in sel;
    } else {
      var p :| p in sel && p.id == k;
      assert p in sel[..n];
      RecordFromLoad(calculator, baseDeliveryCost, results, sel[..n], departure, v, k);
      var q :| q in sel[..n] && q.id == k
        && Record(calculator, baseDeliveryCost, results, sel[..n], departure, v)[k]
           == Delivery(calculator, baseDeliveryCost, q, departure, v);
      assert q in sel;
    }
  }

  /** The loop's state: results so far, each vehicle's availability, the pool. */
  datatype Progress = Progress(results: map<string, TimeResult>, avail: seq<real>, remaining: seq<Package>)

  /** A state the loop can run from: one availability time per vehicle, at
      least one vehicle, and a pool of valid packages. */
  predicate Ready(vehicles: seq<Vehicle>, st: Progress)
  {
    |st.avail| == |vehicles| > 0 && AllValid(st.remaining)
  }

  /** The load the selector picks for the vehicle that is free first. */
  function Load(vehicles: seq<Vehicle>, st: Progress): (sel: seq<Package>)
    requires Ready(vehicles, st)
    ensures forall p :: p in sel ==> p in st.remaining
  {
    assert PositiveWeights(st.remaining);
    Selected(st.remaining, vehicles[Earliest(st.avail)].capacity)
  }

  /** One pass of the loop that does not stop: the load is timestamped, the
      vehicle leaves on a round trip to its farthest package, and the load's
      ids leave the pool. */
  function Advance(calculator: CostCalculator, baseDeliveryCost: real, vehicles: seq<Vehicle>, st: Progress)
    : (next: Progress)
    requires Ready(vehicles, st) && Load(vehicles, st) != []
    ensures Ready(vehicles, next)
    ensures |next.remaining| < |st.remaining|
  {
    var k := Earliest(st.avail);
    var v := vehicles[k];
    var sel := Load(vehicles, st);
    var departure := st.avail[k];
    assert sel[0] in st.remaining && sel[0].id in IdSet(sel);
    Progress(Record(calculator, baseDeliveryCost, st.results, sel, departure, v),
             st.avail[k := departure + v.DeliveryTime(MaxDistance(sel)) * 2.0],
             RemoveSelected(st.remaining, sel))
  }

  /** The dispatch loop from the given state to its end: it stops when the pool
      is empty or the vehicle free first can carry nothing. */
  function Dispatch(calculator: CostCalculator, baseDeliveryCost: real, vehicles: seq<Vehicle>, st: Progress)
    : (end: Progress)
    requires Ready(vehicles, st)
    decreases |st.remaining|
  {
    if st.remaining == [] || Load(vehicles, st) == [] then st
    else Dispatch(calculator, baseDeliveryCost, vehicles, Advance(calculator, baseDeliveryCost, vehicles, st))
  }

  /** A package of the load is one of the pool, so its id is one of the pool's ids. */
  lemma LoadIdsInPool(remaining: seq<Package>, sel: seq<Package>)
    requires forall p :: p in sel ==> p in remaining
    ensures IdSet(sel) <= IdSet(remaining)
    ensures IdSet(RemoveSelected(remaining, sel)) == IdSet(remaining) - IdSet(sel)
  {
    forall k | k in IdSet(remaining) - IdSet(sel)
      ensures k in IdSet(RemoveSelected(remaining, sel))
    {
      var p :| p in remaining && p.id == k;
      assert p in RemoveSelected(remaining, sel);
    }
  }

  /** One pass gives a result to every id of the load and takes exactly those
      ids out of the pool. */
  lemma AdvanceCoverage(calculator: CostCalculator, baseDeliveryCost: real, vehicles: seq<Vehicle>, st: Progress)
    requires Ready(vehicles, st) && Load(vehicles, st) != []
    ensures var next := Advance(calculator, baseDeliveryCost, vehicles, st);
      && next.results.Keys + IdSet(next.remaining) == st.results.Keys + IdSet(st.remaining)
      && (forall p :: p in next.remaining ==> p in st.remaining)
  {
    LoadIdsInPool(st.remaining, Load(vehicles, st));
  }

  /** Every id of the pool either has a result or is still in the pool at the
      end, and nothing else gets a result; the pool only loses packages; and
      what is left at the end is too heavy, package by package, for the
      vehicle that is then free first. */
  lemma {:induction false} DispatchCoverage(calculator: CostCalculator, baseDeliveryCost: real,
                                            vehicles: seq<Vehicle>, st: Progress)
    requires Ready(vehicles, st)
    ensures var end := Dispatch(calculator, baseDeliveryCost, vehicles, st);
      && Ready(vehicles, end)
      && (forall p :: p in end.remaining ==> p in st.remaining)
      && end.results.Keys + IdSet(end.remaining) == st.results.Keys + IdSet(st.remaining)
      && forall p :: p in end.remaining ==> p.weight > vehicles[Earliest(end.avail)].capacity
    decreases |st.remaining|
  {
    assert PositiveWeights(st.remaining);
    SelectedEmptyIffAllTooHeavy(st.remaining, vehicles[Earliest(st.avail)].capacity);
    if st.remaining != [] && Load(vehicles, st) != [] {
      AdvanceCoverage(calculator, baseDeliveryCost, vehicles, st);
      DispatchCoverage(calculator, baseDeliveryCost, vehicles, Advance(calculator, baseDeliveryCost, vehicles, st));
    }
  }

  /** When every package fits on every vehicle by itself, the run does not stop
      early: the pool empties and every id of it gets a result. */
  lemma {:induction false} DispatchDeliversAll(calculator: CostCalculator, baseDeliveryCost: real,
                                               vehicles: seq<Vehicle>, st: Progress)
    requires Ready(vehicles, st)
    requires forall p, i :: p in st.remaining && 0 <= i < |vehicles| ==> p.weight <= vehicles[i].capacity
    ensures var end := Dispatch(calculator, baseDeliveryCost, vehicles, st);
      end.remaining == [] && end.results.Keys == st.results.Keys + IdSet(st.remaining)
    decreases |st.remaining|
  {
    if st.remaining != [] {
      assert st.remaining[0] in st.remaining;
      assert PositiveWeights(st.remaining);
      SelectedEmptyIffAllTooHeavy(st.remaining, vehicles[Earliest(st.avail)].capacity);
      AdvanceCoverage(calculator, baseDeliveryCost, vehicles, st);
      DispatchDeliversAll(calculator, baseDeliveryCost, vehicles, Advance(calculator, baseDeliveryCost, vehicles, st));
    }
  }

  /** What every recorded result says: it is keyed by its own package id, its
      discount and total are those priced for a package of the batch with that
      id, and its time is not negative. */
  ghost predicate Priced(calculator: CostCalculator, baseDeliveryCost: real,
                         results: map<string, TimeResult>, packages: seq<Package>)
  {
    forall k :: k in results ==>
      && results[k].packageId == k
      && results[k].hours >= 0.0
      && exists p :: (p in packages && p.id == k &&
                      results[k].discount == calculator.CalculateCost(baseDeliveryCost, p).discount &&
                      results[k].totalCost == calculator.CalculateCost(baseDeliveryCost, p).totalCost)
  }

  predicate NonNegative(avail: seq<real>)
  {
    forall i :: 0 <= i < |avail| ==> avail[i] >= 0.0
  }

  /** Recording a load whose packages belong to the batch, leaving at a time
      that is not negative, keeps every result priced. */
  lemma RecordKeepsPriced(calculator: CostCalculator, baseDeliveryCost: real,
                          results: map<string, TimeResult>, sel: seq<Package>,
                          departure: real, v: Vehicle, packages: seq<Package>)
    requires Priced(calculator, baseDeliveryCost, results, packages)
    requires forall p :: p in sel ==> p in packages && p.Valid()
    requires departure >= 0.0
    ensures Priced(calculator, baseDeliveryCost, Record(calculator, baseDeliveryCost, results, sel, departure, v), packages)
  {
    var r := Record(calculator, baseDeliveryCost, results, sel, departure, v);
    forall k | k in r && k in IdSet(sel)
      ensures r[k].packageId == k && r[k].hours >= 0.0
      ensures exists p :: (p in packages && p.id == k &&
                           r[k].discount == calculator.CalculateCost(baseDeliveryCost, p).discount &&
                           r[k].totalCost == calculator.CalculateCost(baseDeliveryCost, p).totalCost)
    {
      RecordFromLoad(calculator, baseDeliveryCost, results, sel, departure, v, k);
      var p :| p in sel && p.id == k && r[k] == Delivery(calculator, baseDeliveryCost, p, departure, v);
      assert p in packages;
    }
  }

  /** One pass keeps every result priced. */
  lemma AdvancePriced(calculator: CostCalculator, baseDeliveryCost: real, vehicles: seq<Vehicle>,
                      st: Progress, packages: seq<Package>)
    requires Ready(vehicles, st) && Load(vehicles, st) != []
    requires forall p :: p in st.remaining ==> p in packages
    requires NonNegative(st.avail)
    requires Priced(calculator, baseDeliveryCost, st.results, packages)
    ensures var next := Advance(calculator, baseDeliveryCost, vehicles, st);
      && Priced(calculator, baseDeliveryCost, next.results, packages)
      && forall p :: p in next.remaining ==> p in packages
  {
    var k := Earliest(st.avail);
    RecordKeepsPriced(calculator, baseDeliveryCost, st.results, Load(vehicles, st), st.avail[k], vehicles[k], packages);
  }

  /** One pass moves the chosen vehicle's availability forward by its round
      trip to the farthest package of the load, and no other. */
  lemma AdvanceMovesChosenVehicle(calculator: CostCalculator, baseDeliveryCost: real, vehicles: seq<Vehicle>,
                                  st: Progress)
    requires Ready(vehicles, st) && Load(vehicles, st) != []
    ensures var next := Advance(calculator, baseDeliveryCost, vehicles, st);
      var k := Earliest(st.avail);
      && |next.avail| == |st.avail|
      && next.avail[k] == st.avail[k] + vehicles[k].DeliveryTime(MaxDistance(Load(vehicles, st))) * 2.0
      && next.avail[k] > st.avail[k]
      && forall i :: 0 <= i < |st.avail| && i != k ==> next.avail[i] == st.avail[i]
  {
    var k := Earliest(st.avail);
    var sel := Load(vehicles, st);
    var trip := vehicles[k].DeliveryTime(MaxDistance(sel)) * 2.0;
    assert sel[0] in st.remaining;
    assert trip > 0.0;
  }

  /** One pass never moves an availability time back, so none becomes negative. */
  lemma AdvanceNeverRewinds(calculator: CostCalculator, baseDeliveryCost: real, vehicles: seq<Vehicle>,
                            st: Progress)
    requires Ready(vehicles, st) && Load(vehicles, st) != []
    ensures var next := Advance(calculator, baseDeliveryCost, vehicles, st);
      && |next.avail| == |st.avail|
      && (NonNegative(st.avail) ==> NonNegative(next.avail))
      && forall i :: 0 <= i < |st.avail| ==> st.avail[i] <= next.avail[i]
  {
    AdvanceMovesChosenVehicle(calculator, baseDeliveryCost, vehicles, st);
  }

  /** Every result of a run is priced for a package of the batch, and
      availability times never go back and never become negative. */
  lemma {:induction false} DispatchPriced(calculator: CostCalculator, baseDeliveryCost: real,
                                          vehicles: seq<Vehicle>, st: Progress, packages: seq<Package>)
    requires Ready(vehicles, st)
    requires forall p :: p in st.remaining ==> p in packages
    requires NonNegative(st.avail)
    requires Priced(calculator, baseDeliveryCost, st.results, packages)
    ensures var end := Dispatch(calculator, baseDeliveryCost, vehicles, st);
      && Priced(calculator, baseDeliveryCost, end.results, packages)
      && |end.avail| == |st.avail|
      && NonNegative(end.avail)
      && forall i :: 0 <= i < |st.avail| ==> st.avail[i] <= end.avail[i]
    decreases |st.remaining|
  {
    if st.remaining != [] && Load(vehicles, st) != [] {
      var next := Advance(calculator, baseDeliveryCost, vehicles, st);
      AdvancePriced(calculator, baseDeliveryCost, vehicles, st, packages);
      AdvanceNeverRewinds(calculator, baseDeliveryCost, vehicles, st);
      DispatchPriced(calculator, baseDeliveryCost, vehicles, next, packages);
    }
  }

  /** The availability time of each vehicle, in list order. */
  function Availability(vehicles: seq<Vehicle>): (avail: seq<real>)
    reads set v | v in vehicles
    ensures |avail| == |vehicles|
    ensures forall i :: 0 <= i < |vehicles| ==> avail[i] == vehicles[i].availableAt
  {
    seq(|vehicles|, i reads vehicles requires 0 <= i < |vehicles| => vehicles[i].availableAt)
  }

  predicate Distinct(vehicles: seq<Vehicle>)
  {
    forall i, j :: 0 <= i < j < |vehicles| ==> vehicles[i] != vehicles[j]
  }

  /** Results in strictly increasing order of package id. */
  predicate SortedById(s: seq<TimeResult>)
  {
    forall i, j :: 0 <= i < j < |s| ==> Less(s[i].packageId, s[j].packageId)
  }

  /** Inserts a result before the first one with a larger id. */
  function InsertById(s: seq<TimeResult>, r: TimeResult): (t: seq<TimeResult>)
    ensures multiset(t) == multiset(s) + multiset{r}
    ensures |t| == |s| + 1
    ensures forall x :: x in t <==> x in s || x == r
  {
    if s == [] then [r]
    else if Less(r.packageId, s[0].packageId) then [r] + s
    else
      assert s == [s[0]] + s[1..];
      [s[0]] + InsertById(s[1..], r)
  }

  /** A result whose id comes before every id of a sorted list can head it. */
  lemma ConsSorted(x: TimeResult, t: seq<TimeResult>)
    requires SortedById(t)
    requires forall y :: y in t ==> Less(x.packageId, y.packageId)
    ensures SortedById([x] + t)
  {
    forall i, j | 0 <= i < j < |[x] + t|
      ensures Less(([x] + t)[i].packageId, ([x] + t)[j].packageId)
    {
      assert ([x] + t)[j] == t[j - 1];
      if i == 0 {
        assert t[j - 1] in t;
      } else {
        assert ([x] + t)[i] == t[i - 1];
      }
    }
  }

  /** Inserting a result with a new id into a sorted sequence keeps it sorted. */
  lemma {:induction false} InsertByIdKeepsSorted(s: seq<TimeResult>, r: TimeResult)
    requires SortedById(s)
    requires forall x :: x in s ==> x.packageId != r.packageId
    ensures SortedById(InsertById(s, r))
  {
    if s != [] && !Less(r.packageId, s[0].packageId) {
      assert s[0] in s;
      LessTotal(r.packageId, s[0].packageId);
      InsertByIdKeepsSorted(s[1..], r);
      var t := InsertById(s[1..], r);
      forall x | x in t
        ensures Less(s[0].packageId, x.packageId)
      {
        if x != r {
          var j :| 0 <= j < |s[1..]| && s[1..][j] == x;
          assert s[j + 1] == x;
        }
      }
      ConsSorted(s[0], t);
    } else if s != [] {
      forall y | y in s
        ensures Less(r.packageId, y.packageId)
      {
        var j :| 0 <= j < |s| && s[j] == y;
        if j > 0 {
          LessTransitive(r.packageId, s[0].packageId, s[j].packageId);
        }
      }
      ConsSorted(r, s);
    }
  }

  /** Two id-sorted sequences holding the same results are the same sequence:
      the output order does not depend on the order results were produced in. */
  lemma {:induction false} SortedByIdUnique(a: seq<TimeResult>, b: seq<TimeResult>)
    requires SortedById(a) && SortedById(b)
    requires forall r :: r in a <==> r in b
    ensures a == b
  {
    if a != [] {
      assert a[0] in b;
    }
    if b != [] {
      assert b[0] in a;
    }
    if a != [] && b != [] {
      assert a[0] in b && b[0] in a;
      if a[0] != b[0] {
        var i :| 0 <= i < |b| && b[i] == a[0];
        var j :| 0 <= j < |a| && a[j] == b[0];
        assert i > 0 && j > 0;
        LessTransitive(b[0].packageId, a[0].packageId, b[0].packageId);
        LessIrreflexive(b[0].packageId);
      }
      forall r | r in a[1..]
        ensures r in b[1..]
      {
        var i :| 0 <= i < |a[1..]| && a[1..][i] == r;
        assert Less(a[0].packageId, a[i + 1].packageId);
        LessIrreflexive(r.packageId);
        assert a[i + 1] == r && r in a && r in b;
        var j :| 0 <= j < |b| && b[j] == r;
        assert j > 0 && b[1..][j - 1] == r;
      }
      forall r | r in b[1..]
        ensures r in a[1..]
      {
        var i :| 0 <= i < |b[1..]| && b[1..][i] == r;
        assert Less(b[0].packageId, b[i + 1].packageId);
        LessIrreflexive(r.packageId);
        assert b[i + 1] == r && r in b && r in a;
        var j :| 0 <= j < |a| && a[j] == r;
        assert j > 0 && a[1..][j - 1] == r;
      }
      SortedByIdUnique(a[1..], b[1..]);
      assert a == [a[0]] + a[1..] && b == [b[0]] + b[1..];
    }
  }

  predicate KeyedById(results: map<string, TimeResult>)
  {
    forall k :: k in results ==> results[k].packageId == k
  }

  /** The final listing: the stored results ordered by package id. The order in
      which the map hands out its values is not modelled; any order gives the
      same sorted list (SortedByIdUnique). */
  method SortedResults(results: map<string, TimeResult>) returns (out: seq<TimeResult>)
    requires KeyedById(results)
    ensures SortedById(out)
    ensures |out| == |results|
    ensures forall r :: r in out <==> r in results.Values
  {
    out := [];
    var pending := results.Keys;
    while pending != {}
      invariant pending <= results.Keys
      invariant SortedById(out)
      invariant forall r :: r in out <==> exists k :: k in results.Keys - pending && results[k] == r
      invariant |out| == |results.Keys - pending|
      decreases |pending|
    {
      var k :| k in pending;
      forall x | x in out
        ensures x.packageId != k
      {
        var j :| j in results.Keys - pending && results[j] == x;
      }
      InsertByIdKeepsSorted(out, results[k]);
      out := InsertById(out, results[k]);
      assert results.Keys - (pending - {k}) == (results.Keys - pending) + {k};
      pending := pending - {k};
    }
    assert results.Keys - pending == results.Keys;
  }

  /** Package ids of a list of results. */
  function ResultIds(rs: seq<TimeResult>): (ids: set<string>)
  {
    set r | r in rs :: r.packageId
  }

  /** The results listed from a priced map are priced, and list exactly its ids. */
  lemma ListedResultsPriced(calculator: CostCalculator, baseDeliveryCost: real,
                            results: map<string, TimeResult>, packages: seq<Package>, estimates: seq<TimeResult>)
    requires Priced(calculator, baseDeliveryCost, results, packages)
    requires forall r :: r in estimates <==> r in results.Values
    ensures ResultIds(estimates) == results.Keys
    ensures forall r :: r in estimates ==>
      && r.hours >= 0.0
      && exists p :: (p in packages && p.id == r.packageId &&
                      r.discount == calculator.CalculateCost(baseDeliveryCost, p).discount &&
                      r.totalCost == calculator.CalculateCost(baseDeliveryCost, p).totalCost)
  {
    forall r | r in estimates
      ensures r.packageId in results && results[r.packageId] == r
    {
      var key :| key in results && results[key] == r;
    }
    forall key | key in results
      ensures key in ResultIds(estimates)
    {
      assert results[key] in results.Values;
    }
  }

  /** The reset loop: every vehicle becomes free at time zero. */
  method ResetAll(vehicles: seq<Vehicle>)
    modifies set v | v in vehicles
    ensures Availability(vehicles) == Zeros(|vehicles|)
  {
    for i := 0 to |vehicles|
      invariant forall j :: 0 <= j < i ==> vehicles[j].availableAt == 0.0
    {
      vehicles[i].ResetAvailability();
    }
  }

  /** The timestamping loop over one load. */
  method Timestamp(calculator: CostCalculator, baseDeliveryCost: real, results: map<string, TimeResult>,
                   selectedPackages: seq<Package>, departureTime: real, vehicle: Vehicle)
    returns (recorded: map<string, TimeResult>)
    ensures recorded == Record(calculator, baseDeliveryCost, results, selectedPackages, departureTime, vehicle)
  {
    recorded := results;
    for i := 0 to |selectedPackages|
      invariant recorded == Record(calculator, baseDeliveryCost, results, selectedPackages[..i], departureTime, vehicle)
    {
      var package := selectedPackages[i];
      var costResult := calculator.CalculateCost(baseDeliveryCost, package);
      var deliveryTime := departureTime + vehicle.DeliveryTime(package.distance);
      assert selectedPackages[..i + 1] == selectedPackages[..i] + [package];
      RecordExtend(calculator, baseDeliveryCost, results, selectedPackages[..i], package, departureTime, vehicle);
      var result := TimeResult(package.id, costResult.discount, costResult.totalCost, Round2(deliveryTime));
      assert result == Delivery(calculator, baseDeliveryCost, package, departureTime, vehicle);
      recorded := recorded[package.id := result];
    }
    assert selectedPackages[..|selectedPackages|] == selectedPackages;
  }

  /** The removal loop over one load. */
  method RemoveLoad(remainingPackages: seq<Package>, selectedPackages: seq<Package>) returns (rest: seq<Package>)
    ensures rest == RemoveSelected(remainingPackages, selectedPackages)
  {
    rest := remainingPackages;
    for i := 0 to |selectedPackages|
      invariant rest == RemoveSelected(remainingPackages, selectedPackages[..i])
    {
      assert selectedPackages[..i + 1][..i] == selectedPackages[..i];
      rest := Without(rest, selectedPackages[i].id);
    }
    assert selectedPackages[..|selectedPackages|] == selectedPackages;
  }

  /** The loop stops where the vehicle free first can carry nothing. */
  lemma DispatchStops(calculator: CostCalculator, baseDeliveryCost: real, vehicles: seq<Vehicle>, st: Progress)
    requires Ready(vehicles, st) && Load(vehicles, st) == []
    ensures Dispatch(calculator, baseDeliveryCost, vehicles, st) == st
  {
  }

  /** `after` is `before` with the vehicle at index `k` busy for `trip` more hours. */
  predicate TripTaken(before: seq<real>, after: seq<real>, k: nat, trip: real)
  {
    && |after| == |before| && k < |before|
    && after[k] == before[k] + trip
    && forall i :: 0 <= i < |before| && i != k ==> after[i] == before[i]
  }

  /** What one pass of the loop computes from a state is the state Advance
      gives, so the rest of the run is the same. */
  lemma PassIsAdvance(calculator: CostCalculator, baseDeliveryCost: real, vehicles: seq<Vehicle>,
                      st: Progress, k: nat, sel: seq<Package>, maxDistance: real,
                      results: map<string, TimeResult>, avail: seq<real>, remaining: seq<Package>)
    requires Ready(vehicles, st) && st.remaining != []
    requires k == Earliest(st.avail) && sel == Load(vehicles, st) && sel != []
    requires maxDistance == MaxDistance(sel)
    requires results == Record(calculator, baseDeliveryCost, st.results, sel, st.avail[k], vehicles[k])
    requires TripTaken(st.avail, avail, k, vehicles[k].DeliveryTime(maxDistance) * 2.0)
    requires remaining == RemoveSelected(st.remaining, sel)
    ensures Ready(vehicles, Progress(results, avail, remaining))
    ensures |remaining| < |st.remaining|
    ensures Dispatch(calculator, baseDeliveryCost, vehicles, st)
         == Dispatch(calculator, baseDeliveryCost, vehicles, Progress(results, avail, remaining))
  {
    assert avail == st.avail[k := st.avail[k] + vehicles[k].DeliveryTime(maxDistance) * 2.0];
    assert Progress(results, avail, remaining) == Advance(calculator, baseDeliveryCost, vehicles, st);
  }

  /** The chosen vehicle leaves on its round trip; no other vehicle's time moves. */
  method SendOnTrip(vehicles: seq<Vehicle>, k: nat, maxDistance: real, ghost before: seq<real>)
    requires Distinct(vehicles) && k < |vehicles|
    requires before == Availability(vehicles)
    modifies vehicles[k]
    ensures TripTaken(before, Availability(vehicles), k, vehicles[k].DeliveryTime(maxDistance) * 2.0)
  {
    vehicles[k].AssignTrip(maxDistance);
    forall i | 0 <= i < |vehicles| && i != k
      ensures Availability(vehicles)[i] == before[i]
    {
      assert vehicles[i] != vehicles[k];
    }
  }

  /** The while loop: runs the vehicles from their current availability over
      the pool to the state Dispatch ends in. */
  method DispatchLoop(calculator: CostCalculator, baseDeliveryCost: real, packages: seq<Package>,
                      vehicles: seq<Vehicle>)
    returns (results: map<string, TimeResult>, remaining: seq<Package>)
    requires |vehicles| > 0
    requires Distinct(vehicles)
    requires AllValid(packages)
    modifies set v | v in vehicles
    ensures Progress(results, Availability(vehicles), remaining)
         == Dispatch(calculator, baseDeliveryCost, vehicles, Progress(map[], old(Availability(vehicles)), packages))
  {
    ghost var end := Dispatch(calculator, baseDeliveryCost, vehicles, Progress(map[], Availability(vehicles), packages));
    results := map[];
    remaining := packages;
    while remaining != []
      invariant Ready(vehicles, Progress(results, Availability(vehicles), remaining))
      invariant Dispatch(calculator, baseDeliveryCost, vehicles, Progress(results, Availability(vehicles), remaining)) == end
      decreases |remaining|
    {
      var stop;
      results, remaining, stop := Pass(calculator, baseDeliveryCost, vehicles, results, remaining);
      if stop {
        break;
      }
    }
  }

  /** One pass of the loop: the vehicle free first takes the selector's load,
      or, when it can carry nothing, the pass reports that the loop stops. */
  method Pass(calculator: CostCalculator, baseDeliveryCost: real, vehicles: seq<Vehicle>,
              results: map<string, TimeResult>, remaining: seq<Package>)
    returns (newResults: map<string, TimeResult>, newRemaining: seq<Package>, stop: bool)
    requires Distinct(vehicles) && remaining != []
    requires Ready(vehicles, Progress(results, Availability(vehicles), remaining))
    modifies set v | v in vehicles
    ensures Ready(vehicles, Progress(newResults, Availability(vehicles), newRemaining))
    ensures Dispatch(calculator, baseDeliveryCost, vehicles, Progress(newResults, Availability(vehicles), newRemaining))
         == Dispatch(calculator, baseDeliveryCost, vehicles, Progress(results, old(Availability(vehicles)), remaining))
    ensures stop ==>
      Progress(newResults, Availability(vehicles), newRemaining)
        == Dispatch(calculator, baseDeliveryCost, vehicles, Progress(results, old(Availability(vehicles)), remaining))
    ensures !stop ==> |newRemaining| < |remaining|
  {
    ghost var st := Progress(results, Availability(vehicles), remaining);
    var k, selectedPackages := ChooseLoad(vehicles, remaining, st);
    if selectedPackages == [] {
      DispatchStops(calculator, baseDeliveryCost, vehicles, st);
      return results, remaining, true;
    }
    newResults, newRemaining := Trip(calculator, baseDeliveryCost, vehicles, results, remaining, k, selectedPackages, st);
    stop := false;
  }

  /** The vehicle free first delivers the load chosen for it; the rest of the schedule is unchanged. */
  method Trip(calculator: CostCalculator, baseDeliveryCost: real, vehicles: seq<Vehicle>,
              results: map<string, TimeResult>, remaining: seq<Package>,
              k: nat, selectedPackages: seq<Package>, ghost st: Progress)
    returns (newResults: map<string, TimeResult>, newRemaining: seq<Package>)
    requires Distinct(vehicles) && Ready(vehicles, st) && st.remaining != []
    requires st == Progress(results, Availability(vehicles), remaining)
    requires k == Earliest(st.avail) && selectedPackages == Load(vehicles, st) && selectedPackages != []
    modifies vehicles[k]
    ensures Ready(vehicles, Progress(newResults, Availability(vehicles), newRemaining))
    ensures Dispatch(calculator, baseDeliveryCost, vehicles, Progress(newResults, Availability(vehicles), newRemaining))
         == Dispatch(calculator, baseDeliveryCost, vehicles, st)
    ensures |newRemaining| < |remaining|
  {
    newResults, newRemaining := Deliver(calculator, baseDeliveryCost, vehicles, results, remaining, k, selectedPackages, st);
    PassIsAdvance(calculator, baseDeliveryCost, vehicles, st, k, selectedPackages, MaxDistance(selectedPackages),
                  newResults, Availability(vehicles), newRemaining);
  }

  /** The first half of a pass: the vehicle free first, and the best load it
      can carry from the pool. */
  method ChooseLoad(vehicles: seq<Vehicle>, remaining: seq<Package>, ghost st: Progress)
    returns (k: nat, selectedPackages: seq<Package>)
    requires Ready(vehicles, st) && st.avail == Availability(vehicles) && st.remaining == remaining
    ensures k == Earliest(st.avail) && k < |vehicles|
    ensures selectedPackages == Load(vehicles, st)
  {
    k := Earliest(Availability(vehicles));
    var vehicle := vehicles[k];
    assert PositiveWeights(remaining);
    selectedPackages := SelectOptimalPackages(remaining, vehicle.capacity);
  }

  /** The second half of a pass with a non-empty load: the load is timestamped
      from the vehicle's departure, the vehicle leaves on its round trip, and
      the load leaves the pool; the result is the state Advance describes. */
  method Deliver(calculator: CostCalculator, baseDeliveryCost: real, vehicles: seq<Vehicle>,
                 results: map<string, TimeResult>, remaining: seq<Package>,
                 k: nat, selectedPackages: seq<Package>, ghost st: Progress)
    returns (newResults: map<string, TimeResult>, newRemaining: seq<Package>)
    requires Distinct(vehicles) && k < |vehicles| && selectedPackages != []
    requires st == Progress(results, Availability(vehicles), remaining)
    modifies vehicles[k]
    ensures newResults == Record(calculator, baseDeliveryCost, st.results, selectedPackages, st.avail[k], vehicles[k])
    ensures TripTaken(st.avail, Availability(vehicles), k, vehicles[k].DeliveryTime(MaxDistance(selectedPackages)) * 2.0)
    ensures newRemaining == RemoveSelected(st.remaining, selectedPackages)
  {
    var vehicle := vehicles[k];
    var departureTime := vehicle.availableAt;
    var maxDistance := MaxDistance(selectedPackages);
    newResults := Timestamp(calculator, baseDeliveryCost, results, selectedPackages, departureTime, vehicle);
    SendOnTrip(vehicles, k, maxDistance, st.avail);
    newRemaining := RemoveLoad(remaining, selectedPackages);
    assert newResults == Record(calculator, baseDeliveryCost, st.results, selectedPackages, st.avail[k], vehicles[k]);
    assert newRemaining == RemoveSelected(st.remaining, selectedPackages);
  }

  /** Each result the run lists is priced for a package of the batch with its
      id, and its time is not negative. */
  lemma RunResultsPriced(calculator: CostCalculator, baseDeliveryCost: real, packages: seq<Package>,
                         vehicles: seq<Vehicle>, estimates: seq<TimeResult>)
    requires |vehicles| > 0
    requires AllValid(packages)
    requires forall r :: r in estimates <==>
      r in Dispatch(calculator, baseDeliveryCost, vehicles, Progress(map[], Zeros(|vehicles|), packages)).results.Values
    ensures forall r :: r in estimates ==>
      && r.hours >= 0.0
      && exists p :: (p in packages && p.id == r.packageId &&
                      r.discount == calculator.CalculateCost(baseDeliveryCost, p).discount &&
                      r.totalCost == calculator.CalculateCost(baseDeliveryCost, p).totalCost)
  {
    var start := Progress(map[], Zeros(|vehicles|), packages);
    DispatchPriced(calculator, baseDeliveryCost, vehicles, start, packages);
    ListedResultsPriced(calculator, baseDeliveryCost, Dispatch(calculator, baseDeliveryCost, vehicles, start).results,
                        packages, estimates);
  }

  /** When every package fits every vehicle, the run lists every package. */
  lemma RunDeliversAll(calculator: CostCalculator, baseDeliveryCost: real, packages: seq<Package>,
                       vehicles: seq<Vehicle>, estimates: seq<TimeResult>)
    requires |vehicles| > 0
    requires AllValid(packages)
    requires forall p, i :: p in packages && 0 <= i < |vehicles| ==> p.weight <= vehicles[i].capacity
    requires forall r :: r in estimates <==>
      r in Dispatch(calculator, baseDeliveryCost, vehicles, Progress(map[], Zeros(|vehicles|), packages)).results.Values
    ensures ResultIds(estimates) == IdSet(packages)
  {
    var start := Progress(map[], Zeros(|vehicles|), packages);
    DispatchPriced(calculator, baseDeliveryCost, vehicles, start, packages);
    DispatchDeliversAll(calculator, baseDeliveryCost, vehicles, start);
    ListedResultsPriced(calculator, baseDeliveryCost, Dispatch(calculator, baseDeliveryCost, vehicles, start).results,
                        packages, estimates);
  }

  /** The whole run. Every vehicle is reset, the loop runs as Dispatch says,
      each vehicle ends where Dispatch leaves its availability, and the results
      come out sorted by id, one per id, each priced for a package of the
      batch. When every package fits on every vehicle, every input id gets a
      result. */
  method EstimateDeliveryTimes(calculator: CostCalculator, baseDeliveryCost: real,
                               packages: seq<Package>, vehicles: seq<Vehicle>)
    returns (estimates: seq<TimeResult>)
    requires |vehicles| > 0
    requires Distinct(vehicles)
    requires AllValid(packages)
    modifies set v | v in vehicles
    ensures var end := Dispatch(calculator, baseDeliveryCost, vehicles,
                                Progress(map[], Zeros(|vehicles|), packages));
      && Availability(vehicles) == end.avail
      && |estimates| == |end.results|
      && forall r :: r in estimates <==> r in end.results.Values
    ensures SortedById(estimates)
    ensures forall r :: r in estimates ==>
      && r.hours >= 0.0
      && exists p :: (p in packages && p.id == r.packageId &&
                      r.discount == calculator.CalculateCost(baseDeliveryCost, p).discount &&
                      r.totalCost == calculator.CalculateCost(baseDeliveryCost, p).totalCost)
    ensures (forall p, i :: p in packages && 0 <= i < |vehicles| ==> p.weight <= vehicles[i].capacity) ==>
      ResultIds(estimates) == IdSet(packages)
  {
    ResetAll(vehicles);
    ghost var start := Progress(map[], Zeros(|vehicles|), packages);
    var results, remaining := DispatchLoop(calculator, baseDeliveryCost, packages, vehicles);
    DispatchPriced(calculator, baseDeliveryCost, vehicles, start, packages);
    estimates := SortedResults(results);
    RunResultsPriced(calculator, baseDeliveryCost, packages, vehicles, estimates);
    if forall p, i :: p in packages && 0 <= i < |vehicles| ==> p.weight <= vehicles[i].capacity {
      RunDeliversAll(calculator, baseDeliveryCost, packages, vehicles, estimates);
    }
  }
}
