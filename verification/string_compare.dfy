/**
 * `std::string::compare`, which the comparator returns unchanged for two
 * alphanumeric identifiers. The standard promises only the sign. When one
 * text is a prefix of the other, libstdc++ itself returns the difference of
 * the lengths. Otherwise it returns what `memcmp` returns on the common
 * prefix, which the C library leaves unspecified beyond its sign; the value
 * here, the difference of the first two characters that differ, is an
 * assumption about `memcmp` (a byte-wise one gives it, a vectorised one may
 * give -1 or 1).
 */
module StringOrder {
  /** `a` and `b` agree on their first `k` characters, and position `k` puts `a` first. */
  predicate CharsLessAt(a: string, b: string, k: int) {
    0 <= k <= |a| && k <= |b| && a[..k] == b[..k] &&
    ((k == |a| && k < |b|) || (k < |a| && k < |b| && a[k] < b[k]))
  }

  /** Reference order: `a` sorts before `b` in lexicographic character order. */
  ghost predicate LexLess(a: string, b: string) {
    exists k :: CharsLessAt(a, b, k)
  }

  function StringCompare(a: string, b: string): (c: int)
    ensures c == 0 <==> a == b
    // when one text is a prefix of the other, the value is the length difference
    ensures a <= b || b <= a ==> c == |a| - |b|
    decreases |a|
  {
    if |a| == 0 || |b| == 0 then |a| - |b|
    else if a[0] != b[0] then a[0] as int - b[0] as int
    else
      assert a == [a[0]] + a[1..] && b == [b[0]] + b[1..];
      StringCompare(a[1..], b[1..])
  }

  lemma DropFirstAt(a: string, b: string, k: int)
    requires |a| > 0 && |b| > 0 && a[0] == b[0] && CharsLessAt(a, b, k)
    ensures CharsLessAt(a[1..], b[1..], k - 1)
  {
    assert k > 0;
    assert a[1..][..k - 1] == a[..k][1..];
    assert b[1..][..k - 1] == b[..k][1..];
  }

  lemma AddFirstAt(a: string, b: string, k: int)
    requires |a| > 0 && |b| > 0 && a[0] == b[0] && CharsLessAt(a[1..], b[1..], k)
    ensures CharsLessAt(a, b, k + 1)
  {
    assert a[..k + 1] == [a[0]] + a[1..][..k];
    assert b[..k + 1] == [b[0]] + b[1..][..k];
  }

  /** Dropping an equal first character keeps the order. */
  lemma LexLessTail(a: string, b: string)
    requires |a| > 0 && |b| > 0 && a[0] == b[0]
    ensures LexLess(a, b) <==> LexLess(a[1..], b[1..])
  {
    if LexLess(a, b) {
      var k :| CharsLessAt(a, b, k);
      DropFirstAt(a, b, k);
    }
    if LexLess(a[1..], b[1..]) {
      var k :| CharsLessAt(a[1..], b[1..], k);
      AddFirstAt(a, b, k);
    }
  }

  /** The sign of the comparison is the reference order. */
  lemma {:induction false} StringCompareSign(a: string, b: string)
    ensures StringCompare(a, b) == 0 <==> a == b
    ensures StringCompare(a, b) < 0 <==> LexLess(a, b)
    ensures StringCompare(a, b) > 0 <==> LexLess(b, a)
    decreases |a|
  {
    if |a| == 0 || |b| == 0 {
      if |a| < |b| {
        assert CharsLessAt(a, b, 0);
      } else if |b| < |a| {
        assert CharsLessAt(b, a, 0);
      }
    } else if a[0] != b[0] {
      if a[0] < b[0] {
        assert CharsLessAt(a, b, 0);
      } else {
        assert CharsLessAt(b, a, 0);
      }
      // a common prefix of positive length would share the first character
      forall k | 0 < k <= |a| && k <= |b|
        ensures a[..k][0] == a[0] && b[..k][0] == b[0]
      {
      }
    } else {
      StringCompareSign(a[1..], b[1..]);
      LexLessTail(a, b);
      LexLessTail(b, a);
      assert a == [a[0]] + a[1..] && b == [b[0]] + b[1..];
    }
  }

  /** Swapping the operands negates the value. */
  lemma {:induction false} StringCompareAntisymmetric(a: string, b: string)
    ensures StringCompare(b, a) == -StringCompare(a, b)
    decreases |a|
  {
    if |a| > 0 && |b| > 0 && a[0] == b[0] {
      StringCompareAntisymmetric(a[1..], b[1..]);
    }
  }

  lemma {:induction false} StringCompareTransitive(a: string, b: string, c: string)
    requires StringCompare(a, b) < 0 && StringCompare(b, c) < 0
    ensures StringCompare(a, c) < 0
    decreases |a|
  {
    if |a| > 0 && |b| > 0 && |c| > 0 && a[0] == b[0] && b[0] == c[0] {
      StringCompareTransitive(a[1..], b[1..], c[1..]);
    }
  }
}
