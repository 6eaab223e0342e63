/**
 * `Semver200_comparator::compare`: a three-way comparison of parsed
 * versions by SemVer 2.0.0 precedence (section 11 of the SemVer 2.0.0
 * specification). Build identifiers take no part.
 */
module Semver200Comparator {
  import opened Decimal
  import opened VersionModel
  import opened StringOrder

  function Sign(x: int): int {
    if x < 0 then -1 else if x > 0 then 1 else 0
  }

  /** Reference order of the normal triples. */
  predicate NormalLess(l: VersionData, r: VersionData) {
    || l.major < r.major
    || (l.major == r.major && l.minor < r.minor)
    || (l.major == r.major && l.minor == r.minor && l.patch < r.patch)
  }

  predicate SameNormal(l: VersionData, r: VersionData) {
    l.major == r.major && l.minor == r.minor && l.patch == r.patch
  }

  /** `compare_normal`. */
  function CompareNormal(l: VersionData, r: VersionData): (c: int)
    ensures c == -1 || c == 0 || c == 1
    ensures c == 0 <==> SameNormal(l, r)
    ensures c < 0 <==> NormalLess(l, r)
    ensures c > 0 <==> NormalLess(r, l)
  {
    if l.major > r.major then 1
    else if l.major < r.major then -1
    else if l.minor > r.minor then 1
    else if l.minor < r.minor then -1
    else if l.patch > r.patch then 1
    else if l.patch < r.patch then -1
    else 0
  }

  /** `stoi` of a numeric identifier; `NumericTextOk` is what keeps it from throwing. */
  function NumericValue(id: PrereleaseIdentifier): nat
    requires id.kind == Num && NumericTextOk(id)
  {
    Value(id.text)
  }

  /** Reference order of identifiers: numbers by value, below every alphanumeric, which go by characters. */
  ghost predicate IdLess(a: PrereleaseIdentifier, b: PrereleaseIdentifier)
    requires NumericTextOk(a) && NumericTextOk(b)
  {
    match (a.kind, b.kind)
    case (Num, Num) => NumericValue(a) < NumericValue(b)
    case (Num, Alnum) => true
    case (Alnum, Num) => false
    case (Alnum, Alnum) => LexLess(a.text, b.text)
  }

  /** Two identifiers the comparator cannot tell apart. */
  predicate IdEquivalent(a: PrereleaseIdentifier, b: PrereleaseIdentifier)
    requires NumericTextOk(a) && NumericTextOk(b)
  {
    a.kind == b.kind && (if a.kind == Num then NumericValue(a) == NumericValue(b) else a.text == b.text)
  }

  /** `compare_prerel_identifiers`. */
  function CompareIdentifiers(l: PrereleaseIdentifier, r: PrereleaseIdentifier): (c: int)
    requires NumericTextOk(l) && NumericTextOk(r)
    ensures l.kind == Alnum && r.kind == Num ==> c == 1
    ensures l.kind == Num && r.kind == Alnum ==> c == -1
    ensures l.kind == Num && r.kind == Num ==> c == -1 || c == 0 || c == 1
    ensures c == 0 <==> IdEquivalent(l, r)
    ensures c < 0 <==> IdLess(l, r)
    ensures c > 0 <==> IdLess(r, l)
  {
    StringCompareSign(l.text, r.text);
    StringCompareSign(r.text, l.text);
    match (l.kind, r.kind)
    case (Alnum, Alnum) => StringCompare(l.text, r.text)
    case (Alnum, Num) => 1
    case (Num, Alnum) => -1
    case (Num, Num) =>
      var li := NumericValue(l);
      var ri := NumericValue(r);
      if li == ri then 0 else if li > ri then 1 else -1
  }

  /**
   * The loop over the common length of the two prerelease lists from
   * position `i`, then the comparison of their lengths.
   */
  function ComparePrereleaseFrom(l: seq<PrereleaseIdentifier>, r: seq<PrereleaseIdentifier>, i: nat): (c: int)
    requires AllNumericTextOk(l) && AllNumericTextOk(r)
    requires i <= |l| && i <= |r|
    // a zero result means no position from `i` on tells the lists apart
    ensures c == 0 ==> forall k :: i <= k < |l| && k < |r| ==> IdEquivalent(l[k], r[k])
    decreases |l| - i
  {
    if i == |l| || i == |r| then
      if |l| == |r| then 0 else if |l| > |r| then 1 else -1
    else
      var c := CompareIdentifiers(l[i], r[i]);
      if c != 0 then c else ComparePrereleaseFrom(l, r, i + 1)
  }

  /** `Semver200_comparator::compare`. */
  function Compare(l: VersionData, r: VersionData): (c: int)
    requires Comparable(l) && Comparable(r)
    ensures !SameNormal(l, r) ==> c == -1 || c == 1
    ensures c == 0 ==> SameNormal(l, r) && (|l.prereleaseIds| == 0 <==> |r.prereleaseIds| == 0)
    ensures c == 0 ==> forall k :: 0 <= k < |l.prereleaseIds| && k < |r.prereleaseIds| ==>
      IdEquivalent(l.prereleaseIds[k], r.prereleaseIds[k])
  {
    var c := CompareNormal(l, r);
    if c != 0 then c
    else if |l.prereleaseIds| == 0 && |r.prereleaseIds| > 0 then 1
    else if |r.prereleaseIds| == 0 && |l.prereleaseIds| > 0 then -1
    else ComparePrereleaseFrom(l.prereleaseIds, r.prereleaseIds, 0)
  }

  // Identifier level

  lemma IdEquivalentIsEquivalence(a: PrereleaseIdentifier, b: PrereleaseIdentifier, c: PrereleaseIdentifier)
    requires NumericTextOk(a) && NumericTextOk(b) && NumericTextOk(c)
    ensures IdEquivalent(a, a)
    ensures IdEquivalent(a, b) ==> IdEquivalent(b, a)
    ensures IdEquivalent(a, b) && IdEquivalent(b, c) ==> IdEquivalent(a, c)
  {
  }

  /** Equivalent identifiers compare the same way against any third one, on either side. */
  lemma IdentifierSubstitutes(a: PrereleaseIdentifier, b: PrereleaseIdentifier, c: PrereleaseIdentifier)
    requires NumericTextOk(a) && NumericTextOk(b) && NumericTextOk(c)
    requires IdEquivalent(a, b)
    ensures CompareIdentifiers(a, c) == CompareIdentifiers(b, c)
    ensures CompareIdentifiers(c, a) == CompareIdentifiers(c, b)
  {
  }

  lemma IdentifierAntisymmetric(a: PrereleaseIdentifier, b: PrereleaseIdentifier)
    requires NumericTextOk(a) && NumericTextOk(b)
    ensures Sign(CompareIdentifiers(b, a)) == -Sign(CompareIdentifiers(a, b))
  {
  }

  /** With the libstdc++ value of `std::string::compare`, swapping the operands negates the result exactly. */
  lemma IdentifierNegates(a: PrereleaseIdentifier, b: PrereleaseIdentifier)
    requires NumericTextOk(a) && NumericTextOk(b)
    ensures CompareIdentifiers(b, a) == -CompareIdentifiers(a, b)
  {
    StringCompareAntisymmetric(a.text, b.text);
  }

  lemma IdentifierTransitive(a: PrereleaseIdentifier, b: PrereleaseIdentifier, c: PrereleaseIdentifier)
    requires NumericTextOk(a) && NumericTextOk(b) && NumericTextOk(c)
    requires CompareIdentifiers(a, b) < 0 && CompareIdentifiers(b, c) < 0
    ensures CompareIdentifiers(a, c) < 0
  {
    if a.kind == Alnum && b.kind == Alnum && c.kind == Alnum {
      StringCompareTransitive(a.text, b.text, c.text);
    }
  }

  // Prerelease list level

  lemma {:induction false} PrereleaseReflexive(l: seq<PrereleaseIdentifier>, i: nat)
    requires AllNumericTextOk(l) && i <= |l|
    ensures ComparePrereleaseFrom(l, l, i) == 0
    decreases |l| - i
  {
    if i < |l| {
      IdEquivalentIsEquivalence(l[i], l[i], l[i]);
      PrereleaseReflexive(l, i + 1);
    }
  }

  lemma {:induction false} PrereleaseAntisymmetric(l: seq<PrereleaseIdentifier>, r: seq<PrereleaseIdentifier>, i: nat)
    requires AllNumericTextOk(l) && AllNumericTextOk(r) && i <= |l| && i <= |r|
    ensures Sign(ComparePrereleaseFrom(r, l, i)) == -Sign(ComparePrereleaseFrom(l, r, i))
    decreases |l| - i
  {
    if i < |l| && i < |r| {
      IdentifierAntisymmetric(l[i], r[i]);
      PrereleaseAntisymmetric(l, r, i + 1);
    }
  }

  lemma {:induction false} PrereleaseNegates(l: seq<PrereleaseIdentifier>, r: seq<PrereleaseIdentifier>, i: nat)
    requires AllNumericTextOk(l) && AllNumericTextOk(r) && i <= |l| && i <= |r|
    ensures ComparePrereleaseFrom(r, l, i) == -ComparePrereleaseFrom(l, r, i)
    decreases |l| - i
  {
    if i < |l| && i < |r| {
      IdentifierNegates(l[i], r[i]);
      PrereleaseNegates(l, r, i + 1);
    }
  }

  lemma {:induction false} PrereleaseSubstitutes(l: seq<PrereleaseIdentifier>, m: seq<PrereleaseIdentifier>, r: seq<PrereleaseIdentifier>, i: nat)
    requires AllNumericTextOk(l) && AllNumericTextOk(m) && AllNumericTextOk(r)
    requires i <= |l| && i <= |m| && i <= |r|
    requires ComparePrereleaseFrom(l, m, i) == 0
    ensures ComparePrereleaseFrom(l, r, i) == ComparePrereleaseFrom(m, r, i)
    decreases |l| - i
  {
    if i < |l| && i < |m| && i < |r| {
      IdentifierSubstitutes(l[i], m[i], r[i]);
      PrereleaseSubstitutes(l, m, r, i + 1);
    } else if i < |l| && i < |m| {
      PrereleaseLengths(l, m, i);
    }
  }

  /** Lists that compare equal have the same length. */
  lemma {:induction false} PrereleaseLengths(l: seq<PrereleaseIdentifier>, m: seq<PrereleaseIdentifier>, i: nat)
    requires AllNumericTextOk(l) && AllNumericTextOk(m) && i <= |l| && i <= |m|
    requires ComparePrereleaseFrom(l, m, i) == 0
    ensures |l| == |m|
    decreases |l| - i
  {
    if i < |l| && i < |m| {
      PrereleaseLengths(l, m, i + 1);
    }
  }

  lemma {:induction false} PrereleaseTransitive(l: seq<PrereleaseIdentifier>, m: seq<PrereleaseIdentifier>, r: seq<PrereleaseIdentifier>, i: nat)
    requires AllNumericTextOk(l) && AllNumericTextOk(m) && AllNumericTextOk(r)
    requires i <= |l| && i <= |m| && i <= |r|
    requires ComparePrereleaseFrom(l, m, i) < 0 && ComparePrereleaseFrom(m, r, i) < 0
    ensures ComparePrereleaseFrom(l, r, i) < 0
    decreases |l| - i
  {
    if i < |l| && i < |m| && i < |r| {
      var c1 := CompareIdentifiers(l[i], m[i]);
      var c2 := CompareIdentifiers(m[i], r[i]);
      if c1 == 0 {
        IdentifierSubstitutes(l[i], m[i], r[i]);
      }
      if c2 == 0 {
        IdentifierSubstitutes(m[i], r[i], l[i]);
      }
      if c1 == 0 && c2 == 0 {
        IdEquivalentIsEquivalence(l[i], m[i], r[i]);
        PrereleaseTransitive(l, m, r, i + 1);
      } else if c1 != 0 && c2 != 0 {
        IdentifierTransitive(l[i], m[i], r[i]);
      }
    }
  }

  // Version level

  lemma CompareReflexive(a: VersionData)
    requires Comparable(a)
    ensures Compare(a, a) == 0
  {
    PrereleaseReflexive(a.prereleaseIds, 0);
  }

  /** Swapping the operands flips the sign of the result. */
  lemma CompareAntisymmetric(a: VersionData, b: VersionData)
    requires Comparable(a) && Comparable(b)
    ensures Sign(Compare(b, a)) == -Sign(Compare(a, b))
  {
    PrereleaseAntisymmetric(a.prereleaseIds, b.prereleaseIds, 0);
  }

  /** With the libstdc++ value of `std::string::compare`, swapping the operands negates the result exactly. */
  lemma CompareNegates(a: VersionData, b: VersionData)
    requires Comparable(a) && Comparable(b)
    ensures Compare(b, a) == -Compare(a, b)
  {
    PrereleaseNegates(a.prereleaseIds, b.prereleaseIds, 0);
  }

  /** Versions that compare equal compare the same way against any third version. */
  lemma CompareEqualSubstitutes(a: VersionData, b: VersionData, c: VersionData)
    requires Comparable(a) && Comparable(b) && Comparable(c)
    requires Compare(a, b) == 0
    ensures Compare(a, c) == Compare(b, c)
  {
    if |a.prereleaseIds| > 0 && |b.prereleaseIds| > 0 && |c.prereleaseIds| > 0 {
      PrereleaseSubstitutes(a.prereleaseIds, b.prereleaseIds, c.prereleaseIds, 0);
    }
  }

  lemma CompareTransitive(a: VersionData, b: VersionData, c: VersionData)
    requires Comparable(a) && Comparable(b) && Comparable(c)
    requires Compare(a, b) < 0 && Compare(b, c) < 0
    ensures Compare(a, c) < 0
  {
    if SameNormal(a, b) && SameNormal(b, c)
       && |a.prereleaseIds| > 0 && |b.prereleaseIds| > 0 && |c.prereleaseIds| > 0 {
      PrereleaseTransitive(a.prereleaseIds, b.prereleaseIds, c.prereleaseIds, 0);
    }
  }

  /** "Not above" is transitive too, so `Compare` is a total preorder. */
  lemma CompareAtMostTransitive(a: VersionData, b: VersionData, c: VersionData)
    requires Comparable(a) && Comparable(b) && Comparable(c)
    requires Compare(a, b) <= 0 && Compare(b, c) <= 0
    ensures Compare(a, c) <= 0
  {
    if Compare(a, b) == 0 {
      CompareEqualSubstitutes(a, b, c);
    } else if Compare(b, c) == 0 {
      CompareAntisymmetric(b, c);
      CompareEqualSubstitutes(c, b, a);
      CompareAntisymmetric(a, b);
      CompareAntisymmetric(a, c);
    } else {
      CompareTransitive(a, b, c);
    }
  }

  /** Build identifiers take no part in the comparison. */
  lemma CompareIgnoresBuild(a: VersionData, b: VersionData, build: seq<string>)
    requires Comparable(a) && Comparable(b)
    ensures Compare(a.(buildIds := build), b) == Compare(a, b)
    ensures Compare(b, a.(buildIds := build)) == Compare(b, a)
  {
  }

  /** A release sorts above every prerelease with the same normal triple, and the result is exactly 1. */
  lemma ReleaseAbovePrerelease(a: VersionData, b: VersionData)
    requires Comparable(a) && Comparable(b)
    requires SameNormal(a, b) && |a.prereleaseIds| == 0 && |b.prereleaseIds| > 0
    ensures Compare(a, b) == 1 && Compare(b, a) == -1
  {
  }

  // The reference precedence of section 11 of the SemVer 2.0.0 specification

  /** `k` is where `l` first sorts below `r`: a shared prefix, then a smaller identifier or the end of `l`. */
  ghost predicate LessAt(l: seq<PrereleaseIdentifier>, r: seq<PrereleaseIdentifier>, k: int)
    requires AllNumericTextOk(l) && AllNumericTextOk(r)
  {
    && 0 <= k <= |l| && k <= |r| && l[..k] == r[..k]
    && ((k == |l| && k < |r|) || (k < |l| && k < |r| && IdLess(l[k], r[k])))
  }

  ghost predicate PrereleaseLess(l: seq<PrereleaseIdentifier>, r: seq<PrereleaseIdentifier>)
    requires AllNumericTextOk(l) && AllNumericTextOk(r)
  {
    exists k :: LessAt(l, r, k)
  }

  /** `a` has lower precedence than `b`. */
  ghost predicate Precedes(a: VersionData, b: VersionData)
    requires Comparable(a) && Comparable(b)
  {
    || NormalLess(a, b)
    || (SameNormal(a, b) && |a.prereleaseIds| > 0
        && (|b.prereleaseIds| == 0 || PrereleaseLess(a.prereleaseIds, b.prereleaseIds)))
  }

  /** `a` and `b` have the same precedence: they differ at most in their build identifiers. */
  predicate SamePrecedence(a: VersionData, b: VersionData) {
    a.(buildIds := []) == b.(buildIds := [])
  }

  lemma IdLessIrreflexive(a: PrereleaseIdentifier)
    requires NumericTextOk(a)
    ensures !IdLess(a, a)
  {
    StringCompareSign(a.text, a.text);
  }

  /** For identifiers the parser emits, being equivalent is being equal. */
  lemma IdEquivalentIsEqual(a: PrereleaseIdentifier, b: PrereleaseIdentifier)
    requires ValidPrerelease(a) && ValidPrerelease(b)
    ensures NumericTextOk(a) && NumericTextOk(b)
    ensures IdEquivalent(a, b) <==> a == b
  {
    if a.kind == Num && b.kind == Num {
      ValueInjective(a.text, b.text);
    }
  }

  lemma ValidIsNumericTextOk(l: seq<PrereleaseIdentifier>)
    requires ValidPrereleases(l)
    ensures AllNumericTextOk(l)
  {
    forall i | 0 <= i < |l| ensures NumericTextOk(l[i]) {
      assert ValidPrerelease(l[i]);
    }
  }

  /** No position at or before the end of the common prefix `i` shows `l` below `r`, other than `i` itself. */
  lemma NoEarlierWitness(l: seq<PrereleaseIdentifier>, r: seq<PrereleaseIdentifier>, i: nat, k: int)
    requires AllNumericTextOk(l) && AllNumericTextOk(r)
    requires i <= |l| && i <= |r| && l[..i] == r[..i] && 0 <= k < i
    ensures !LessAt(l, r, k)
  {
    assert l[k] == l[..i][k] && r[k] == r[..i][k];
    IdLessIrreflexive(l[k]);
  }

  lemma {:induction false} PrereleaseMatchesFrom(l: seq<PrereleaseIdentifier>, r: seq<PrereleaseIdentifier>, i: nat)
    requires ValidPrereleases(l) && ValidPrereleases(r)
    requires i <= |l| && i <= |r| && l[..i] == r[..i]
    ensures AllNumericTextOk(l) && AllNumericTextOk(r)
    ensures ComparePrereleaseFrom(l, r, i) < 0 <==> PrereleaseLess(l, r)
    ensures ComparePrereleaseFrom(l, r, i) == 0 <==> l == r
    decreases |l| - i
  {
    ValidIsNumericTextOk(l);
    ValidIsNumericTextOk(r);
    forall k | 0 <= k < i ensures !LessAt(l, r, k) {
      NoEarlierWitness(l, r, i, k);
    }
    if i == |l| || i == |r| {
      if i == |l| && i < |r| {
        assert LessAt(l, r, i);
      }
      assert l == l[..|l|] && r == r[..|r|];
    } else {
      var c := CompareIdentifiers(l[i], r[i]);
      assert ValidPrerelease(l[i]) && ValidPrerelease(r[i]);
      IdEquivalentIsEqual(l[i], r[i]);
      if c == 0 {
        assert l[..i + 1] == l[..i] + [l[i]];
        assert r[..i + 1] == r[..i] + [r[i]];
        PrereleaseMatchesFrom(l, r, i + 1);
      } else {
        assert l != r;
        if c < 0 {
          assert LessAt(l, r, i);
        } else {
          forall k | i < k ensures !LessAt(l, r, k) {
            if k <= |l| && k <= |r| {
              assert l[i] == l[..k][i] && r[i] == r[..k][i];
            }
          }
        }
      }
    }
  }

  /** `compare` orders by the reference precedence and returns 0 exactly on equal precedence. */
  lemma CompareMatchesPrecedence(a: VersionData, b: VersionData)
    requires WellFormed(a) && WellFormed(b)
    ensures Comparable(a) && Comparable(b)
    ensures Compare(a, b) < 0 <==> Precedes(a, b)
    ensures Compare(a, b) == 0 <==> SamePrecedence(a, b)
    ensures Compare(a, b) > 0 <==> Precedes(b, a)
  {
    WellFormedIsComparable(a);
    WellFormedIsComparable(b);
    assert a.prereleaseIds[..0] == b.prereleaseIds[..0];
    PrereleaseMatchesFrom(a.prereleaseIds, b.prereleaseIds, 0);
    PrereleaseMatchesFrom(b.prereleaseIds, a.prereleaseIds, 0);
    PrereleaseAntisymmetric(a.prereleaseIds, b.prereleaseIds, 0);
  }
}
