/** Sorting by a comparison, and why the result cannot depend on the order of the input. */
module Sorting {
  /** The comparisons sort.Slice accepts: asymmetric, and being incomparable is transitive. */
  ghost predicate StrictWeakOrder<T(!new)>(less: (T, T) -> bool) {
    && (forall x, y :: less(x, y) ==> !less(y, x))
    && (forall x, y, z :: !less(x, y) && !less(y, z) ==> !less(x, z))
  }

  ghost predicate Ordered<T>(less: (T, T) -> bool, s: seq<T>) {
    forall i, j :: 0 <= i < j < |s| ==> !less(s[j], s[i])
  }

  ghost predicate StrictlyOrdered<T>(less: (T, T) -> bool, s: seq<T>) {
    forall i, j :: 0 <= i < j < |s| ==> less(s[i], s[j])
  }

  function Insert<T>(less: (T, T) -> bool, x: T, s: seq<T>): seq<T> {
    if s == [] || less(x, s[0]) then [x] + s else [s[0]] + Insert(less, x, s[1..])
  }

  function Sort<T>(less: (T, T) -> bool, s: seq<T>): seq<T> {
    if s == [] then [] else Insert(less, s[0], Sort(less, s[1..]))
  }

  lemma {:induction false} InsertElements<T>(less: (T, T) -> bool, x: T, s: seq<T>)
    ensures multiset(Insert(less, x, s)) == multiset(s) + multiset{x}
  {
    if s != [] && !less(x, s[0]) {
      InsertElements(less, x, s[1..]);
      assert s == [s[0]] + s[1..];
    }
  }

  lemma {:induction false} InsertKeeps<T(!new)>(less: (T, T) -> bool, x: T, s: seq<T>)
    requires StrictWeakOrder(less) && Ordered(less, s)
    ensures Ordered(less, Insert(less, x, s))
  {
    if s == [] {
    } else if less(x, s[0]) {
      var r := [x] + s;
      forall i, j | 0 <= i < j < |r| ensures !less(r[j], r[i]) {
        if i == 0 && j > 1 {
          assert !less(s[j - 1], s[0]);
          assert !less(s[0], x);
        }
      }
    } else {
      InsertKeeps(less, x, s[1..]);
      HeadStaysFirst(less, x, s);
    }
  }

  lemma HeadStaysFirst<T(!new)>(less: (T, T) -> bool, x: T, s: seq<T>)
    requires s != [] && Ordered(less, s) && !less(x, s[0]) && Ordered(less, Insert(less, x, s[1..]))
    ensures Ordered(less, [s[0]] + Insert(less, x, s[1..]))
  {
    var rest := Insert(less, x, s[1..]);
    InsertElements(less, x, s[1..]);
    forall y | y in rest ensures !less(y, s[0]) {
      assert y in multiset(rest);
      if y != x {
        assert y in multiset(s[1..]);
        var k :| 0 <= k < |s[1..]| && s[1..][k] == y;
        assert !less(s[k + 1], s[0]);
      }
    }
  }

  /** The result is a permutation of the input, in order. */
  lemma {:induction false} SortSorts<T(!new)>(less: (T, T) -> bool, s: seq<T>)
    ensures multiset(Sort(less, s)) == multiset(s)
    ensures StrictWeakOrder(less) ==> Ordered(less, Sort(less, s))
  {
    if s != [] {
      SortSorts(less, s[1..]);
      InsertElements(less, s[0], Sort(less, s[1..]));
      if StrictWeakOrder(less) {
        InsertKeeps(less, s[0], Sort(less, s[1..]));
      }
      assert s == [s[0]] + s[1..];
    }
  }

  lemma StrictHeadsAgree<T(!new)>(less: (T, T) -> bool, a: seq<T>, b: seq<T>)
    requires forall x, y :: less(x, y) ==> !less(y, x)
    requires StrictlyOrdered(less, a) && StrictlyOrdered(less, b) && a != [] && b != [] && b[0] in a && a[0] in b
    ensures a[0] == b[0]
  {
    var i :| 0 <= i < |b| && b[i] == a[0];
    var j :| 0 <= j < |a| && a[j] == b[0];
    assert i > 0 ==> less(b[0], b[i]);
    assert j > 0 ==> less(a[0], a[j]);
  }

  lemma TailElements<T>(a: seq<T>)
    requires a != []
    ensures multiset(a[1..]) == multiset(a) - multiset{a[0]} && multiset(a)[a[0]] > 0
  {
    assert a == [a[0]] + a[1..];
  }

  lemma StrictTail<T>(less: (T, T) -> bool, a: seq<T>)
    requires StrictlyOrdered(less, a) && a != []
    ensures StrictlyOrdered(less, a[1..])
  {
  }

  /** Two strictly ordered lists of the same elements are the same list. */
  lemma {:induction false} StrictOrderIsUnique<T(!new)>(less: (T, T) -> bool, a: seq<T>, b: seq<T>)
    requires forall x, y :: less(x, y) ==> !less(y, x)
    requires StrictlyOrdered(less, a) && StrictlyOrdered(less, b) && multiset(a) == multiset(b)
    ensures a == b
  {
    assert |a| == |multiset(a)| == |multiset(b)| == |b|;
    if a != [] {
      assert a[0] in multiset(b) && b[0] in multiset(a);
      StrictHeadsAgree(less, a, b);
      TailElements(a);
      TailElements(b);
      StrictTail(less, a);
      StrictTail(less, b);
      StrictOrderIsUnique(less, a[1..], b[1..]);
      assert a == [a[0]] + a[1..] && b == [b[0]] + b[1..];
    }
  }

  predicate Distinct<T(==)>(s: seq<T>) {
    forall i, j :: 0 <= i < j < |s| ==> s[i] != s[j]
  }

  lemma DistinctAppend<T>(s: seq<T>, x: T)
    requires Distinct(s) && x !in s
    ensures Distinct(s + [x])
    ensures forall y :: y in s + [x] <==> y in s || y == x
  {
  }

  /** Lists of the same elements without repetition have the same multiset. */
  lemma {:induction false} DistinctMultiset<T>(a: seq<T>, b: seq<T>)
    requires Distinct(a) && Distinct(b) && (forall x :: x in a <==> x in b)
    ensures multiset(a) == multiset(b)
  {
    forall x ensures multiset(a)[x] == multiset(b)[x] {
      DistinctCount(a, x);
      DistinctCount(b, x);
    }
  }

  lemma {:induction false} DistinctCount<T>(a: seq<T>, x: T)
    requires Distinct(a)
    ensures multiset(a)[x] == if x in a then 1 else 0
  {
    if a != [] {
      assert a == [a[0]] + a[1..];
      DistinctCount(a[1..], x);
      assert a[0] !in a[1..];
    }
  }

  /** If the comparison tells any two of the distinct elements apart, the result is strictly ordered. */
  lemma SortIsStrict<T(!new)>(less: (T, T) -> bool, a: seq<T>)
    requires StrictWeakOrder(less) && Distinct(a)
    requires forall x, y :: x in a && y in a && x != y ==> less(x, y) || less(y, x)
    ensures StrictlyOrdered(less, Sort(less, a)) && multiset(Sort(less, a)) == multiset(a)
  {
    var r := Sort(less, a);
    SortSorts(less, a);
    forall i, j | 0 <= i < j < |r| ensures less(r[i], r[j]) {
      assert r[i] in multiset(a) && r[j] in multiset(a);
      if r[i] == r[j] {
        CountTwice(r, i, j);
        DistinctCount(a, r[i]);
      }
    }
  }

  /** Whatever order the elements come in, sorting them finds the strictly ordered list of them. */
  lemma SortFinds<T(!new)>(less: (T, T) -> bool, s: seq<T>, ordered: seq<T>)
    requires StrictWeakOrder(less) && StrictlyOrdered(less, ordered) && multiset(s) == multiset(ordered)
    ensures Sort(less, s) == ordered
  {
    assert Distinct(ordered);
    forall i, j | 0 <= i < j < |s| ensures s[i] != s[j] {
      if s[i] == s[j] {
        CountTwice(s, i, j);
        DistinctCount(ordered, s[i]);
      }
    }
    forall x, y | x in s && y in s && x != y ensures less(x, y) || less(y, x) {
      assert x in multiset(ordered) && y in multiset(ordered);
      var i :| 0 <= i < |ordered| && ordered[i] == x;
      var j :| 0 <= j < |ordered| && ordered[j] == y;
    }
    SortIsStrict(less, s);
    StrictOrderIsUnique(less, Sort(less, s), ordered);
  }

  lemma CountTwice<T>(s: seq<T>, i: nat, j: nat)
    requires i < j < |s| && s[i] == s[j]
    ensures multiset(s)[s[i]] >= 2
  {
    assert s[..j] + [s[j]] + s[j + 1..] == s;
    assert multiset(s) == multiset(s[..j]) + multiset{s[j]} + multiset(s[j + 1..]);
    assert s[i] in s[..j];
  }
}
