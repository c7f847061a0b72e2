/** The few string services the core relies on: the blank-string test used to
    reject package ids and offer codes, the case-insensitive comparison of offer
    codes (modelled as ASCII case folding) and the order used to sort package
    ids (modelled as ordinal lexicographic order on characters). */
module Text {

  /** The white-space characters of the runtime: the Unicode space, line and
      paragraph separators plus the ASCII controls TAB..CR and NEL. */
  predicate IsWhiteSpace(c: char)
  {
    var n := c as int;
    || n == 0x20 || (0x09 <= n <= 0x0D) || n == 0x85 || n == 0xA0
    || n == 0x1680 || (0x2000 <= n <= 0x200A) || n == 0x2028 || n == 0x2029
    || n == 0x202F || n == 0x205F || n == 0x3000
  }

  /** A blank string is empty or made only of white space. */
  predicate IsBlank(s: string)
  {
    forall i :: 0 <= i < |s| ==> IsWhiteSpace(s[i])
  }

  lemma BlankExamples()
    ensures IsBlank("") && IsBlank("  \t")
    ensures !IsBlank("PKG1") && !IsBlank(" OFR001 ")
  {
    assert !IsWhiteSpace("PKG1"[0]);
    assert !IsWhiteSpace(" OFR001 "[1]);
  }

  /** Upper-casing of one character for case-insensitive comparison, restricted to ASCII. */
  function FoldCase(c: char): (u: char)
    ensures 'a' <= c <= 'z' ==> 'A' <= u <= 'Z'
    ensures !('a' <= c <= 'z') ==> u == c
  {
    if 'a' <= c <= 'z' then (c as int - 32) as char else c
  }

  /** Two strings are equal up to letter case: same length, same folded characters. */
  predicate EqualsIgnoreCase(a: string, b: string)
  {
    |a| == |b| && forall i :: 0 <= i < |a| ==> FoldCase(a[i]) == FoldCase(b[i])
  }

  /** Case-insensitive equality is an equivalence relation that extends equality. */
  lemma EqualsIgnoreCaseIsEquivalence(a: string, b: string, c: string)
    ensures EqualsIgnoreCase(a, a)
    ensures EqualsIgnoreCase(a, b) ==> EqualsIgnoreCase(b, a)
    ensures EqualsIgnoreCase(a, b) && EqualsIgnoreCase(b, c) ==> EqualsIgnoreCase(a, c)
  {
  }

  lemma EqualsIgnoreCaseExamples()
    ensures EqualsIgnoreCase("ofr003", "OFR003")
    ensures EqualsIgnoreCase("Ofr003", "oFR003")
    ensures !EqualsIgnoreCase("OFR003", "OFR008")
    ensures !EqualsIgnoreCase("OFR00", "OFR001")
  {
    assert FoldCase("OFR003"[5]) != FoldCase("OFR008"[5]);
  }

  /** Strict ordinal lexicographic order on strings: a proper prefix comes first,
      otherwise the first differing character decides. */
  predicate Less(a: string, b: string)
  {
    if a == [] then b != []
    else if b == [] then false
    else a[0] < b[0] || (a[0] == b[0] && Less(a[1..], b[1..]))
  }

  lemma {:induction false} LessIrreflexive(a: string)
    ensures !Less(a, a)
  {
    if a != [] {
      LessIrreflexive(a[1..]);
    }
  }

  lemma {:induction false} LessTransitive(a: string, b: string, c: string)
    requires Less(a, b) && Less(b, c)
    ensures Less(a, c)
  {
    if a != [] && b != [] && c != [] && a[0] == b[0] == c[0] {
      LessTransitive(a[1..], b[1..], c[1..]);
    }
  }

  /** Any two different strings are ordered one way round, and never both. */
  lemma {:induction false} LessTotal(a: string, b: string)
    ensures a != b <==> (Less(a, b) || Less(b, a))
    ensures !(Less(a, b) && Less(b, a))
  {
    if a != [] && b != [] && a[0] == b[0] {
      LessTotal(a[1..], b[1..]);
      assert a == [a[0]] + a[1..] && b == [b[0]] + b[1..];
    } else if a == b {
      LessIrreflexive(a);
    }
  }

  lemma LessExamples()
    ensures Less("PKG1", "PKG2") && Less("PKG2", "PKG3")
    ensures Less("PKG1", "PKG10") && Less("PKG10", "PKG2")
  {
    assert Less("PKG1"[3..], "PKG2"[3..]);
    assert Less("PKG2"[3..], "PKG3"[3..]);
    assert Less("PKG1"[3..], "PKG10"[3..]);
    assert Less("PKG10"[3..], "PKG2"[3..]);
  }
}
