/** Sums over sequences, updates of one position, and the pigeonhole principle. */
module Sequences {

  datatype Option<+T> = None | Some(value: T)

  /** The sum of f over xs. */
  function Sum<T>(xs: seq<T>, f: T -> int): int {
    if xs == [] then 0 else Sum(xs[..|xs| - 1], f) + f(xs[|xs| - 1])
  }

  lemma SumAppend<T>(xs: seq<T>, x: T, f: T -> int)
    ensures Sum(xs + [x], f) == Sum(xs, f) + f(x)
  {
    assert (xs + [x])[..|xs|] == xs;
  }

  lemma {:induction false} SumUpdate<T>(xs: seq<T>, i: nat, x: T, f: T -> int)
    requires i < |xs|
    ensures Sum(xs[i := x], f) == Sum(xs, f) - f(xs[i]) + f(x)
  {
    var last := |xs| - 1;
    if i == last {
      assert xs[i := x][..last] == xs[..last];
    } else {
      assert xs[i := x][..last] == xs[..last][i := x];
      SumUpdate(xs[..last], i, x, f);
    }
  }

  /** Pointwise equal summands have equal sums. */
  lemma {:induction false} SumCongruent<T, U>(xs: seq<T>, ys: seq<U>, f: T -> int, g: U -> int)
    requires |xs| == |ys|
    requires forall i :: 0 <= i < |xs| ==> f(xs[i]) == g(ys[i])
    ensures Sum(xs, f) == Sum(ys, g)
  {
    if xs != [] {
      SumCongruent(xs[..|xs| - 1], ys[..|ys| - 1], f, g);
    }
  }

  lemma {:induction false} SumAdd<T>(xs: seq<T>, f: T -> int, g: T -> int, h: T -> int)
    requires forall x :: x in xs ==> h(x) == f(x) + g(x)
    ensures Sum(xs, h) == Sum(xs, f) + Sum(xs, g)
  {
    if xs != [] {
      var last := |xs| - 1;
      assert xs[last] in xs;
      assert forall x :: x in xs[..last] ==> x in xs;
      SumAdd(xs[..last], f, g, h);
    }
  }

  lemma {:induction false} SumMonotone<T>(xs: seq<T>, f: T -> int, g: T -> int)
    requires forall x :: x in xs ==> f(x) <= g(x)
    ensures Sum(xs, f) <= Sum(xs, g)
  {
    if xs != [] {
      var last := |xs| - 1;
      assert xs[last] in xs;
      assert forall x :: x in xs[..last] ==> x in xs;
      SumMonotone(xs[..last], f, g);
    }
  }

  /** One summand can be singled out when all the others are nonnegative. */
  lemma {:induction false} SumAtLeast<T>(xs: seq<T>, i: nat, f: T -> int)
    requires i < |xs|
    requires forall x :: x in xs ==> f(x) >= 0
    ensures Sum(xs, f) >= f(xs[i])
  {
    var last := |xs| - 1;
    assert xs[last] in xs;
    assert forall x :: x in xs[..last] ==> x in xs;
    SumNonNegative(xs[..last], f);
    if i < last {
      SumAtLeast(xs[..last], i, f);
    }
  }

  lemma {:induction false} SumAllZero<T>(xs: seq<T>, f: T -> int)
    requires forall i :: 0 <= i < |xs| ==> f(xs[i]) == 0
    ensures Sum(xs, f) == 0
  {
    if xs != [] {
      SumAllZero(xs[..|xs| - 1], f);
    }
  }

  lemma {:induction false} SumNonNegative<T>(xs: seq<T>, f: T -> int)
    requires forall x :: x in xs ==> f(x) >= 0
    ensures Sum(xs, f) >= 0
  {
    if xs != [] {
      var last := |xs| - 1;
      assert xs[last] in xs;
      assert forall x :: x in xs[..last] ==> x in xs;
      SumNonNegative(xs[..last], f);
    }
  }

  /** Pigeonhole: a sequence longer than the set its elements come from repeats an element. */
  lemma {:induction false} Pigeonhole<T>(xs: seq<T>, s: set<T>)
    requires forall x :: x in xs ==> x in s
    requires |xs| > |s|
    ensures exists i, j :: 0 <= i < j < |xs| && xs[i] == xs[j]
  {
    var last := |xs| - 1;
    var x := xs[last];
    if x in xs[..last] {
      var i :| 0 <= i < last && xs[i] == x;
    } else {
      var rest := s - {x};
      assert x in xs;
      assert forall y :: y in xs[..last] ==> y in rest;
      Pigeonhole(xs[..last], rest);
      var i, j :| 0 <= i < j < last && xs[..last][i] == xs[..last][j];
      assert xs[i] == xs[j];
    }
  }

  // ---- Enumerations of a finite set ----

  /** xs lists the members of ids, each once. */
  ghost predicate Enumerates(xs: seq<int>, ids: set<int>) {
    && (forall i, j :: 0 <= i < j < |xs| ==> xs[i] != xs[j])
    && (forall x :: x in xs <==> x in ids)
  }

  lemma EnumerationGrows(xs: seq<int>, ids: set<int>, x: int)
    requires Enumerates(xs, ids) && x !in ids
    ensures Enumerates(xs + [x], ids + {x})
  {
  }

  lemma EnumerationShrinks(xs: seq<int>, ids: set<int>)
    requires Enumerates(xs, ids) && xs != []
    ensures var last := xs[|xs| - 1];
            last in ids && Enumerates(xs[..|xs| - 1], ids - {last})
  {
    var last := |xs| - 1;
    forall x ensures x in xs[..last] <==> x in ids - {xs[last]} {
      assert x in xs <==> x in xs[..last] || x == xs[last];
    }
  }

  lemma {:induction false} EnumerationLength(xs: seq<int>, ids: set<int>)
    requires Enumerates(xs, ids)
    ensures |xs| == |ids|
  {
    if xs == [] {
      assert ids == {} by {
        assert forall x :: x in ids ==> x in xs;
      }
    } else {
      EnumerationShrinks(xs, ids);
      EnumerationLength(xs[..|xs| - 1], ids - {xs[|xs| - 1]});
    }
  }

  /** Taking one member out of an enumeration takes its summand out of the sum. */
  lemma {:induction false} SumWithout(xs: seq<int>, ids: set<int>, x: int, f: int -> int) returns (rest: seq<int>)
    requires Enumerates(xs, ids) && x in ids
    ensures Enumerates(rest, ids - {x}) && Sum(xs, f) == Sum(rest, f) + f(x)
  {
    var last := xs[|xs| - 1];
    EnumerationShrinks(xs, ids);
    if last == x {
      rest := xs[..|xs| - 1];
    } else {
      var front := SumWithout(xs[..|xs| - 1], ids - {last}, x, f);
      SumAppend(front, last, f);
      EnumerationGrows(front, ids - {last} - {x}, last);
      assert ids - {last} - {x} + {last} == ids - {x};
      rest := front + [last];
    }
  }

  /** The sum over a set does not depend on how it is enumerated. */
  lemma {:induction false} SumOfEnumeration(xs: seq<int>, ys: seq<int>, ids: set<int>, f: int -> int)
    requires Enumerates(xs, ids) && Enumerates(ys, ids)
    ensures Sum(xs, f) == Sum(ys, f)
    decreases |xs|
  {
    EnumerationLength(xs, ids);
    EnumerationLength(ys, ids);
    if xs != [] {
      var last := xs[|xs| - 1];
      EnumerationShrinks(xs, ids);
      var rest := SumWithout(ys, ids, last, f);
      SumOfEnumeration(xs[..|xs| - 1], rest, ids - {last}, f);
    }
  }
}
