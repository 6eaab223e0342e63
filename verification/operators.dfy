/**
 * The comparison operators of `Basic_version`. `<` and `==` test the value
 * `compare` returns against exactly -1 and 0; the other four are defined
 * from those two.
 */
module VersionOperators {
  import opened VersionModel
  import opened StringOrder
  import opened Semver200Comparator

  /** `operator<`. */
  predicate Less(l: VersionData, r: VersionData): (b: bool)
    requires Comparable(l) && Comparable(r)
    // read from the other side: `r` compares exactly 1 above `l`
    ensures b <==> Compare(r, l) == 1
  {
    CompareNegates(l, r);
    Compare(l, r) == -1
  }

  /** `operator==`. */
  predicate Equal(l: VersionData, r: VersionData): (b: bool)
    requires Comparable(l) && Comparable(r)
    ensures b <==> Compare(r, l) == 0
    ensures b ==> SameNormal(l, r)
  {
    CompareNegates(l, r);
    Compare(l, r) == 0
  }

  /** `operator!=`. */
  predicate NotEqual(l: VersionData, r: VersionData): (b: bool)
    requires Comparable(l) && Comparable(r)
    ensures !SameNormal(l, r) ==> b
    ensures UnitCompare(l, r) ==> (b <==> Less(l, r) || Greater(l, r))
  {
    !Equal(l, r)
  }

  /** `operator>`. */
  predicate Greater(l: VersionData, r: VersionData): (b: bool)
    requires Comparable(l) && Comparable(r)
    ensures b <==> Compare(l, r) == 1
  {
    Less(r, l)
  }

  /** `operator>=`. */
  predicate GreaterEq(l: VersionData, r: VersionData): (b: bool)
    requires Comparable(l) && Comparable(r)
    ensures Greater(l, r) || Equal(l, r) ==> b
    ensures UnitCompare(l, r) ==> (b <==> Greater(l, r) || Equal(l, r))
  {
    !Less(l, r)
  }

  /** `operator<=`. */
  predicate LessEq(l: VersionData, r: VersionData): (b: bool)
    requires Comparable(l) && Comparable(r)
    ensures Less(l, r) || Equal(l, r) ==> b
    ensures UnitCompare(l, r) ==> (b <==> Less(l, r) || Equal(l, r))
  {
    !Greater(l, r)
  }

  /** Whether `compare` returns one of -1, 0 and 1 for `l` and `r`. */
  predicate UnitCompare(l: VersionData, r: VersionData)
    requires Comparable(l) && Comparable(r)
  {
    Compare(l, r) == -1 || Compare(l, r) == 0 || Compare(l, r) == 1
  }

  /**
   * When `compare` returns -1, 0 or 1, exactly one of `<`, `==`, `>` holds,
   * and `>=`, `<=`, `!=` mean what their names say.
   */
  lemma Trichotomy(l: VersionData, r: VersionData)
    requires Comparable(l) && Comparable(r)
    requires UnitCompare(l, r)
    ensures Less(l, r) || Equal(l, r) || Greater(l, r)
    ensures !(Less(l, r) && Equal(l, r)) && !(Less(l, r) && Greater(l, r)) && !(Equal(l, r) && Greater(l, r))
    ensures GreaterEq(l, r) <==> Greater(l, r) || Equal(l, r)
    ensures LessEq(l, r) <==> Less(l, r) || Equal(l, r)
    ensures NotEqual(l, r) <==> Less(l, r) || Greater(l, r)
  {
    CompareNegates(l, r);
  }

  /** `<` and `==` never hold together, whatever `compare` returns. */
  lemma LessExcludesEqual(l: VersionData, r: VersionData)
    requires Comparable(l) && Comparable(r)
    ensures !(Less(l, r) && Equal(l, r))
    ensures Equal(l, r) <==> Equal(r, l)
  {
    CompareNegates(l, r);
  }

  /** Two versions whose normal triples and identifier kinds alone decide `compare` always get a unit result. */
  lemma UnitWithoutAlnumPrerelease(l: VersionData, r: VersionData)
    requires Comparable(l) && Comparable(r)
    requires forall i :: 0 <= i < |l.prereleaseIds| ==> l.prereleaseIds[i].kind == Num
    ensures UnitCompare(l, r)
  {
    PrereleaseUnit(l.prereleaseIds, r.prereleaseIds, 0);
  }

  lemma {:induction false} PrereleaseUnit(l: seq<PrereleaseIdentifier>, r: seq<PrereleaseIdentifier>, i: nat)
    requires AllNumericTextOk(l) && AllNumericTextOk(r) && i <= |l| && i <= |r|
    requires forall j :: 0 <= j < |l| ==> l[j].kind == Num
    ensures var c := ComparePrereleaseFrom(l, r, i); c == -1 || c == 0 || c == 1
    decreases |l| - i
  {
    if i < |l| && i < |r| {
      PrereleaseUnit(l, r, i + 1);
    }
  }

  // The operators with the sign of `compare` tested instead of its value

  predicate LessBySign(l: VersionData, r: VersionData)
    requires Comparable(l) && Comparable(r)
  {
    Compare(l, r) < 0
  }

  predicate GreaterBySign(l: VersionData, r: VersionData)
    requires Comparable(l) && Comparable(r)
  {
    LessBySign(r, l)
  }

  /** Testing the sign gives trichotomy for every pair, and agrees with the operators as written on unit results. */
  lemma TrichotomyBySign(l: VersionData, r: VersionData)
    requires Comparable(l) && Comparable(r)
    ensures LessBySign(l, r) || Equal(l, r) || GreaterBySign(l, r)
    ensures !(LessBySign(l, r) && Equal(l, r)) && !(LessBySign(l, r) && GreaterBySign(l, r))
    ensures !(Equal(l, r) && GreaterBySign(l, r))
    ensures UnitCompare(l, r) ==> (LessBySign(l, r) <==> Less(l, r)) && (GreaterBySign(l, r) <==> Greater(l, r))
  {
    CompareAntisymmetric(l, r);
    CompareNegates(l, r);
  }

  /** The sign-tested `<` is the SemVer 2.0.0 precedence order on parsed versions. */
  lemma LessBySignIsPrecedence(l: VersionData, r: VersionData)
    requires WellFormed(l) && WellFormed(r)
    ensures Comparable(l) && Comparable(r)
    ensures LessBySign(l, r) <==> Precedes(l, r)
    ensures Equal(l, r) <==> SamePrecedence(l, r)
  {
    CompareMatchesPrecedence(l, r);
  }

  /** The sign-tested `<` is a strict order. */
  lemma LessBySignStrictOrder(a: VersionData, b: VersionData, c: VersionData)
    requires Comparable(a) && Comparable(b) && Comparable(c)
    ensures !LessBySign(a, a)
    ensures LessBySign(a, b) && LessBySign(b, c) ==> LessBySign(a, c)
  {
    CompareReflexive(a);
    if LessBySign(a, b) && LessBySign(b, c) {
      CompareTransitive(a, b, c);
    }
  }

  /** `1.0.0-a` and `1.0.0-abc`: the two texts' lengths differ by two. */
  function ShortPrerelease(): VersionData {
    VersionData(1, 0, 0, [PrereleaseIdentifier("a", Alnum)], [])
  }

  function LongPrerelease(): VersionData {
    VersionData(1, 0, 0, [PrereleaseIdentifier("abc", Alnum)], [])
  }

  /**
   * `compare` returns -2 for `1.0.0-a` against `1.0.0-abc`: one text is a
   * prefix of the other, so the value is libstdc++'s own length difference
   * and does not depend on `memcmp`. As written
   * none of `<`, `==`, `>` holds, while both `<=` and `>=` and `!=` do; the
   * sign-tested `<` orders them as SemVer 2.0.0 does.
   */
  lemma OperatorsMissLengthDifference()
    ensures Compare(ShortPrerelease(), LongPrerelease()) == -2
    ensures !Less(ShortPrerelease(), LongPrerelease())
    ensures !Equal(ShortPrerelease(), LongPrerelease())
    ensures !Greater(ShortPrerelease(), LongPrerelease())
    ensures LessEq(ShortPrerelease(), LongPrerelease()) && GreaterEq(ShortPrerelease(), LongPrerelease())
    ensures NotEqual(ShortPrerelease(), LongPrerelease())
    ensures LessBySign(ShortPrerelease(), LongPrerelease())
  {
    var a := ShortPrerelease();
    var b := LongPrerelease();
    assert StringCompare("a", "abc") == -2 by {
      assert "a"[0] == "abc"[0];
      assert "a"[1..] == [];
      assert "abc"[1..] == "bc";
    }
    CompareNegates(a, b);
  }

  /**
   * `1.1.3-beta` and `1.1.3-gamma`, a pair whose first characters differ by
   * five. Unlike the length difference above, this value comes from
   * `memcmp` and depends on the C library.
   */
  function Beta(): VersionData {
    VersionData(1, 1, 3, [PrereleaseIdentifier("beta", Alnum)], [])
  }

  function Gamma(): VersionData {
    VersionData(1, 1, 3, [PrereleaseIdentifier("gamma", Alnum)], [])
  }

  /**
   * With a byte-wise `memcmp`, `compare` returns -5 for `1.1.3-beta` against
   * `1.1.3-gamma`: as written `1.1.3-beta < 1.1.3-gamma` is false and so is
   * `>`, while the sign-tested `<` holds. A `memcmp` that returns -1 here
   * hides the defect for this pair.
   */
  lemma OperatorsMissCharacterDifference()
    ensures Compare(Beta(), Gamma()) == -5
    ensures !Less(Beta(), Gamma()) && !Greater(Beta(), Gamma()) && NotEqual(Beta(), Gamma())
    ensures LessBySign(Beta(), Gamma())
  {
    assert StringCompare("beta", "gamma") == -5 by {
      assert "beta"[0] == 'b' && "gamma"[0] == 'g';
    }
    CompareNegates(Beta(), Gamma());
  }

  /** `1.1.3-beta3` and `1.1.3-beta5`, a pair whose texts differ first in '3' against '5'. */
  function BetaThree(): VersionData {
    VersionData(1, 1, 3, [PrereleaseIdentifier("beta3", Alnum)], [])
  }

  function BetaFive(): VersionData {
    VersionData(1, 1, 3, [PrereleaseIdentifier("beta5", Alnum)], [])
  }

  /**
   * With a byte-wise `memcmp`, `compare` returns -2 for `1.1.3-beta3` against
   * `1.1.3-beta5`, not the -1 the comparator's own test expects, and the
   * operator `<` as written does not hold; the sign-tested `<` does.
   */
  lemma BetaThreeAgainstBetaFive()
    ensures Compare(BetaThree(), BetaFive()) == -2
    ensures !Less(BetaThree(), BetaFive()) && !Greater(BetaThree(), BetaFive())
    ensures LessBySign(BetaThree(), BetaFive())
  {
    assert StringCompare("beta3", "beta5") == -2 by {
      assert "beta3"[1..] == "eta3" && "beta5"[1..] == "eta5";
      assert "eta3"[1..] == "ta3" && "eta5"[1..] == "ta5";
      assert "ta3"[1..] == "a3" && "ta5"[1..] == "a5";
      assert "a3"[1..] == "3" && "a5"[1..] == "5";
    }
    CompareNegates(BetaThree(), BetaFive());
  }
}
