/** Failure-carrying datatypes and the strict order on strings shared by every module. */
module Basics {
  datatype Option<+T> = None | Some(value: T)

  datatype Result<+T, +E> = Ok(value: T) | Err(error: E)

  function Min(a: int, b: int): int {
    if a < b then a else b
  }

  /** A float64, as far as comparing goes; any comparison with NaN is false. */
  datatype Float = NaN | MinusInfinity | Finite(value: real) | PlusInfinity

  predicate Smaller(a: Float, b: Float) {
    !a.NaN? && !b.NaN? && a != b &&
      (a.MinusInfinity? || b.PlusInfinity? || (a.Finite? && b.Finite? && a.value < b.value))
  }

  /** Go's x < lo || x > hi, which a NaN passes. */
  predicate Outside(x: Float, lo: real, hi: real) {
    Smaller(x, Finite(lo)) || Smaller(Finite(hi), x)
  }

  /** On reals Smaller is <; the infinities are at both ends; NaN is out of reach. */
  lemma SmallerIff(a: Float, b: Float)
    ensures a.Finite? && b.Finite? ==> (Smaller(a, b) <==> a.value < b.value)
    ensures a.MinusInfinity? || b.PlusInfinity? ==> (Smaller(a, b) <==> a != b && a != NaN && b != NaN)
    ensures a.NaN? || b.NaN? || a.PlusInfinity? || b.MinusInfinity? ==> !Smaller(a, b)
  {
  }

  /** Inside are NaN and the reals from lo to hi, both included. */
  lemma OutsideIff(x: Float, lo: real, hi: real)
    ensures !Outside(x, lo, hi) <==> x.NaN? || (x.Finite? && lo <= x.value <= hi)
  {
  }

  /** The byte order of Go strings and of Redis members; UTF-8 keeps it equal to the order of code points. */
  predicate Less(a: string, b: string) {
    b != [] && (a == [] || a[0] < b[0] || (a[0] == b[0] && Less(a[1..], b[1..])))
  }

  lemma {:induction false} LessIrreflexive(a: string)
    ensures !Less(a, a)
  {
    if a != [] {
      LessIrreflexive(a[1..]);
    }
  }

  lemma {:induction false} LessTransitive(a: string, b: string, c: string)
    requires Less(a, b) && Less(b, c)
    ensures Less(a, c)
  {
    if a != [] && a[0] == b[0] && b[0] == c[0] {
      LessTransitive(a[1..], b[1..], c[1..]);
    }
  }

  lemma {:induction false} LessTotal(a: string, b: string)
    ensures a == b || Less(a, b) || Less(b, a)
  {
    if a != [] && b != [] && a[0] == b[0] {
      LessTotal(a[1..], b[1..]);
      if a[1..] == b[1..] {
        assert a == [a[0]] + a[1..] == [b[0]] + b[1..] == b;
      }
    }
  }

  /** Where the strings first differ: a ends there, or has the smaller character. */
  predicate DifferAt(a: string, b: string, k: nat) {
    k <= |a| && k < |b| && a[..k] == b[..k] && (k == |a| || a[k] < b[k])
  }

  lemma {:induction false} LessAt(a: string, b: string) returns (k: nat)
    requires Less(a, b)
    ensures DifferAt(a, b, k)
  {
    k := 0;
    if a != [] && a[0] == b[0] {
      k := LessAt(a[1..], b[1..]);
      assert a[..k + 1] == [a[0]] + a[1..][..k] == b[..k + 1];
      k := k + 1;
    }
  }

  lemma {:induction false} DifferMeansLess(a: string, b: string, k: nat)
    requires DifferAt(a, b, k)
    ensures Less(a, b)
    decreases k
  {
    if k > 0 {
      assert a[..k][0] == b[..k][0];
      assert a[1..][..k - 1] == a[..k][1..] == b[..k][1..] == b[1..][..k - 1];
      DifferMeansLess(a[1..], b[1..], k - 1);
    }
  }

  /** The string that ends first, or has the smaller character where they first differ, comes first. */
  lemma LessIff(a: string, b: string)
    ensures Less(a, b) <==> exists k: nat :: DifferAt(a, b, k)
  {
    if Less(a, b) {
      var k := LessAt(a, b);
    }
    if k: nat :| DifferAt(a, b, k) {
      DifferMeansLess(a, b, k);
    }
  }

  lemma SubsetSize<T>(a: set<T>, b: set<T>)
    requires a <= b
    ensures |a| <= |b|
  {
    assert b == a + (b - a);
  }
}
