/** Subsets chosen by bitmasks, as the package selector enumerates them:
    mask i picks the elements at the positions j whose bit j is set, keeping
    their order in the input. */
module Masks {

  function Pow2(n: nat): (p: nat)
    ensures p >= 1
  {
    if n == 0 then 1 else 2 * Pow2(n - 1)
  }

  /** Bit j of m, i.e. (m & 2^j) != 0. */
  predicate Bit(m: nat, j: nat)
  {
    if j == 0 then m % 2 == 1 else Bit(m / 2, j - 1)
  }

  /** The elements at the set bits of m, in input order. */
  function Pick<T>(s: seq<T>, m: nat): (r: seq<T>)
    ensures |r| <= |s|
    ensures forall x :: x in r ==> x in s
  {
    if s == [] then []
    else
      var n := |s| - 1;
      Pick(s[..n], m) + (if Bit(m, n) then [s[n]] else [])
  }

  /** Every set bit contributes its element. */
  lemma {:induction false} PickContains<T>(s: seq<T>, m: nat, j: nat)
    requires j < |s| && Bit(m, j)
    ensures s[j] in Pick(s, m)
  {
    var n := |s| - 1;
    if j < n {
      PickContains(s[..n], m, j);
      assert s[..n][j] == s[j];
    }
  }

  /** A mask in 1 .. 2^n - 1 has some bit below n set. */
  lemma {:induction false} SomeBitSet(m: nat, n: nat) returns (j: nat)
    requires 1 <= m < Pow2(n)
    ensures j < n && Bit(m, j)
  {
    if m % 2 == 1 {
      j := 0;
    } else {
      var k := SomeBitSet(m / 2, n - 1);
      j := k + 1;
    }
  }

  /** Every mask the selector enumerates picks at least one element. */
  lemma PickNonEmpty<T>(s: seq<T>, m: nat)
    requires 1 <= m < Pow2(|s|)
    ensures Pick(s, m) != []
  {
    var j := SomeBitSet(m, |s|);
    PickContains(s, m, j);
  }

  /** The bits of a mask at or above n do not matter to a sequence of length n. */
  lemma {:induction false} NoBitsAbove(m: nat, n: nat, j: nat)
    requires m < Pow2(n) && n <= j
    ensures !Bit(m, j)
  {
    if j > 0 {
      if n == 0 {
        NoBitsAbove(m / 2, 0, j - 1);
      } else {
        NoBitsAbove(m / 2, n - 1, j - 1);
      }
    }
  }

  /** 2^j has exactly bit j set. */
  lemma {:induction false} BitOfPow2(j: nat, i: nat)
    ensures Bit(Pow2(j), i) <==> i == j
  {
    if j == 0 {
      if i > 0 {
        NoBitsAbove(0, 0, i - 1);
      }
    } else if i > 0 {
      BitOfPow2(j - 1, i - 1);
    }
  }

  lemma {:induction false} Pow2Monotone(i: nat, j: nat)
    requires i < j
    ensures Pow2(i) < Pow2(j)
  {
    if i < j - 1 {
      Pow2Monotone(i, j - 1);
    }
  }

  /** Mask 2^j picks the single element at position j. */
  lemma {:induction false} PickSingle<T>(s: seq<T>, j: nat)
    requires j < |s|
    ensures Pick(s, Pow2(j)) == [s[j]]
    ensures 1 <= Pow2(j) < Pow2(|s|)
  {
    Pow2Monotone(j, |s|);
    var n := |s| - 1;
    BitOfPow2(j, n);
    if j == n {
      forall i | 0 <= i < n
        ensures !Bit(Pow2(j), i)
      {
        BitOfPow2(j, i);
      }
      PickNoneBelow(s[..n], Pow2(j));
    } else {
      PickSingle(s[..n], j);
      assert s[..n][j] == s[j];
    }
  }

  /** A mask with none of the low |s| bits set picks nothing. */
  lemma {:induction false} PickNoneBelow<T>(s: seq<T>, m: nat)
    requires forall i :: 0 <= i < |s| ==> !Bit(m, i)
    ensures Pick(s, m) == []
  {
    if s != [] {
      PickNoneBelow(s[..|s| - 1], m);
    }
  }
}
