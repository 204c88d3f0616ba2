/**
 * JavaScript's relational operators on two strings (`a < b`, `a >= b`):
 * lexicographic order on code units, where a proper prefix is smaller.
 */
module StringOrder {

  /** `a < b` on JavaScript strings. */
  predicate Less(a: string, b: string)
    decreases |a|
  {
    if |b| == 0 then false
    else if |a| == 0 then true
    else if a[0] != b[0] then a[0] < b[0]
    else Less(a[1..], b[1..])
  }

  /** `a >= b` on JavaScript strings, which is defined as `!(a < b)`. */
  predicate AtLeast(a: string, b: string)
  {
    !Less(a, b)
  }

  lemma {:induction false} LessIrreflexive(a: string)
    ensures !Less(a, a)
  {
    if |a| > 0 {
      LessIrreflexive(a[1..]);
    }
  }

  lemma {:induction false} LessAsymmetric(a: string, b: string)
    requires Less(a, b)
    ensures !Less(b, a)
  {
    if |a| > 0 && a[0] == b[0] {
      LessAsymmetric(a[1..], b[1..]);
    }
  }

  lemma {:induction false} LessTransitive(a: string, b: string, c: string)
    requires Less(a, b) && Less(b, c)
    ensures Less(a, c)
  {
    if |a| > 0 && a[0] == b[0] && b[0] == c[0] {
      LessTransitive(a[1..], b[1..], c[1..]);
    }
  }

  /** Any two distinct strings are ordered one way or the other. */
  lemma {:induction false} LessTotal(a: string, b: string)
    requires a != b
    ensures Less(a, b) || Less(b, a)
  {
    if |a| > 0 && |b| > 0 && a[0] == b[0] {
      assert a == [a[0]] + a[1..] && b == [b[0]] + b[1..];
      LessTotal(a[1..], b[1..]);
    }
  }

  /** `>=` is transitive, so a later cutoff keeps a subset of what an earlier one keeps. */
  lemma AtLeastTransitive(a: string, b: string, c: string)
    requires AtLeast(a, b) && AtLeast(b, c)
    ensures AtLeast(a, c)
  {
    if Less(a, c) && a != b {
      LessTotal(a, b);
      LessTransitive(b, a, c);
    }
  }

  /**
   * Comparing two strings that start with blocks of equal length compares
   * the blocks first and, only when they are equal, the remainders.
   */
  lemma {:induction false} LessBlock(a: string, x: string, b: string, y: string)
    requires |a| == |b|
    ensures Less(a + x, b + y) <==> Less(a, b) || (a == b && Less(x, y))
    ensures a + x == b + y <==> a == b && x == y
  {
    if |a| == 0 {
      assert a + x == x && b + y == y;
    } else {
      assert (a + x)[0] == a[0] && (b + y)[0] == b[0];
      assert (a + x)[1..] == a[1..] + x && (b + y)[1..] == b[1..] + y;
      LessBlock(a[1..], x, b[1..], y);
      assert a == [a[0]] + a[1..] && b == [b[0]] + b[1..];
      if a[0] == b[0] {
        assert a == b <==> a[1..] == b[1..];
      } else {
        assert a + x != b + y by { assert (a + x)[0] != (b + y)[0]; }
      }
    }
  }
}
