/** The selector's last tie-break (IsHeavierCombination in
    Application/Services/PackageSelector.cs): sort both combinations by
    weight, heaviest first, and let the first position where the weights
    differ decide. */
module Heaviness {
  import opened Packages

  function Weights(c: seq<Package>): (ws: seq<real>)
    ensures |ws| == |c|
    ensures forall i :: 0 <= i < |c| ==> ws[i] == c[i].weight
  {
    seq(|c|, i requires 0 <= i < |c| => c[i].weight)
  }

  predicate Descending(s: seq<real>)
  {
    forall i, j :: 0 <= i < j < |s| ==> s[i] >= s[j]
  }

  /** Inserts x in front of the first element it is not lighter than. */
  function InsertDescending(x: real, s: seq<real>): (r: seq<real>)
    ensures multiset(r) == multiset(s) + multiset{x}
    ensures |r| == |s| + 1
  {
    if s == [] then [x]
    else if x >= s[0] then [x] + s
    else
      assert s == [s[0]] + s[1..];
      [s[0]] + InsertDescending(x, s[1..])
  }

  lemma {:induction false} InsertKeepsDescending(x: real, s: seq<real>)
    requires Descending(s)
    ensures Descending(InsertDescending(x, s))
  {
    if s != [] && x < s[0] {
      var t := InsertDescending(x, s[1..]);
      InsertKeepsDescending(x, s[1..]);
      forall y | y in t
        ensures y <= s[0]
      {
        assert y in multiset(t);
        assert y in s[1..] || y == x;
      }
      var r := [s[0]] + t;
      forall i, j | 0 <= i < j < |r|
        ensures r[i] >= r[j]
      {
        if i == 0 {
          assert r[j] in t;
        } else {
          assert r[i] == t[i - 1] && r[j] == t[j - 1];
        }
      }
    }
  }

  /** The weights sorted heaviest first: same multiset of weights, in descending order. */
  function SortDescending(s: seq<real>): (r: seq<real>)
    ensures multiset(r) == multiset(s)
    ensures |r| == |s|
    ensures Descending(r)
  {
    if s == [] then []
    else
      assert s == [s[0]] + s[1..];
      InsertKeepsDescending(s[0], SortDescending(s[1..]));
      InsertDescending(s[0], SortDescending(s[1..]))
  }

  /** a beats b at the first position where they differ, looking no further
      than the shorter of the two. */
  predicate LexGreater(a: seq<real>, b: seq<real>)
  {
    if a == [] || b == [] then false
    else if a[0] > b[0] then true
    else if a[0] < b[0] then false
    else LexGreater(a[1..], b[1..])
  }

  /** The source's test: a non-empty combination is heavier than an empty one;
      otherwise compare the weights sorted heaviest first. */
  predicate IsHeavier(c1: seq<Package>, c2: seq<Package>)
  {
    if c1 == [] || c2 == [] then c1 != []
    else LexGreater(SortDescending(Weights(c1)), SortDescending(Weights(c2)))
  }

  lemma {:induction false} LexIrreflexive(a: seq<real>)
    ensures !LexGreater(a, a)
  {
    if a != [] {
      LexIrreflexive(a[1..]);
    }
  }

  lemma {:induction false} LexAsymmetric(a: seq<real>, b: seq<real>)
    ensures !(LexGreater(a, b) && LexGreater(b, a))
  {
    if a != [] && b != [] && a[0] == b[0] {
      LexAsymmetric(a[1..], b[1..]);
    }
  }

  lemma {:induction false} LexTransitive(a: seq<real>, b: seq<real>, c: seq<real>)
    requires LexGreater(a, b) && LexGreater(b, c)
    ensures LexGreater(a, c)
  {
    if a[0] == b[0] == c[0] {
      LexTransitive(a[1..], b[1..], c[1..]);
    }
  }

  /** Between sequences of one length, the order is total: equal or one way round. */
  lemma {:induction false} LexTotal(a: seq<real>, b: seq<real>)
    requires |a| == |b|
    ensures a == b || LexGreater(a, b) || LexGreater(b, a)
  {
    if a != [] && a[0] == b[0] {
      LexTotal(a[1..], b[1..]);
      assert a == [a[0]] + a[1..] && b == [b[0]] + b[1..];
    }
  }

  /** IsHeavierCombination is false on combinations whose sorted weights agree
      and is never true both ways round. */
  lemma IsHeavierIsStrict(c1: seq<Package>, c2: seq<Package>)
    ensures SortDescending(Weights(c1)) == SortDescending(Weights(c2)) ==> !IsHeavier(c1, c2)
    ensures !(IsHeavier(c1, c2) && IsHeavier(c2, c1))
  {
    LexIrreflexive(SortDescending(Weights(c1)));
    LexAsymmetric(SortDescending(Weights(c1)), SortDescending(Weights(c2)));
  }

  /** Among non-empty combinations of one size, IsHeavier is a strict total order
      on their sorted weights: transitive, and exactly one of heavier, lighter
      or equal-sorted-weights holds. */
  lemma IsHeavierTotalOnEqualCounts(c1: seq<Package>, c2: seq<Package>, c3: seq<Package>)
    requires c1 != [] && |c1| == |c2| == |c3|
    ensures IsHeavier(c1, c2) || IsHeavier(c2, c1)
      || SortDescending(Weights(c1)) == SortDescending(Weights(c2))
    ensures IsHeavier(c1, c2) && IsHeavier(c2, c3) ==> IsHeavier(c1, c3)
  {
    LexTotal(SortDescending(Weights(c1)), SortDescending(Weights(c2)));
    if IsHeavier(c1, c2) && IsHeavier(c2, c3) {
      LexTransitive(SortDescending(Weights(c1)), SortDescending(Weights(c2)), SortDescending(Weights(c3)));
    }
  }
}
