/** Sums over a sequence. */
module SeqTotal {

  function Total<T>(xs: seq<T>, f: T -> int): int {
    if xs == [] then 0 else Total(xs[..|xs| - 1], f) + f(xs[|xs| - 1])
  }

  lemma {:induction false} TotalUpdate<T>(xs: seq<T>, f: T -> int, i: nat, x: T)
    requires i < |xs|
    ensures Total(xs[i := x], f) == Total(xs, f) - f(xs[i]) + f(x)
  {
    var last := |xs| - 1;
    if i < last {
      TotalUpdate(xs[..last], f, i, x);
      assert xs[i := x][..last] == xs[..last][i := x];
    } else {
      assert xs[i := x][..last] == xs[..last];
    }
  }

  lemma TotalAppend<T>(xs: seq<T>, f: T -> int, x: T)
    ensures Total(xs + [x], f) == Total(xs, f) + f(x)
  {
    assert (xs + [x])[..|xs|] == xs;
  }

  lemma {:induction false} TotalsCompare<T>(xs: seq<T>, f: T -> int, g: T -> int)
    requires forall i :: 0 <= i < |xs| ==> f(xs[i]) <= g(xs[i])
    ensures Total(xs, f) <= Total(xs, g)
  {
    if xs != [] {
      TotalsCompare(xs[..|xs| - 1], f, g);
    }
  }

  lemma {:induction false} TotalsSubtract<T>(xs: seq<T>, f: T -> int, g: T -> int, h: T -> int)
    requires forall i :: 0 <= i < |xs| ==> f(xs[i]) == g(xs[i]) - h(xs[i])
    ensures Total(xs, f) == Total(xs, g) - Total(xs, h)
  {
    if xs != [] {
      TotalsSubtract(xs[..|xs| - 1], f, g, h);
    }
  }

  lemma {:induction false} NothingTotals<T>(xs: seq<T>, f: T -> int)
    requires forall i :: 0 <= i < |xs| ==> f(xs[i]) == 0
    ensures Total(xs, f) == 0
  {
    if xs != [] {
      NothingTotals(xs[..|xs| - 1], f);
    }
  }

  /** The places of the elements that pass. */
  function Where<T>(xs: seq<T>, pass: T -> bool): set<nat> {
    set i: nat | i < |xs| && pass(xs[i])
  }

  /** Adding up one for each element that passes counts them. */
  lemma {:induction false} TotalCounts<T>(xs: seq<T>, f: T -> int, pass: T -> bool)
    requires forall i :: 0 <= i < |xs| ==> f(xs[i]) == if pass(xs[i]) then 1 else 0
    ensures Total(xs, f) == |Where(xs, pass)|
  {
    if xs == [] {
      assert Where(xs, pass) == {};
    } else {
      var last := |xs| - 1;
      var front := xs[..last];
      TotalCounts(front, f, pass);
      forall i: nat ensures i in Where(xs, pass) <==> i in Where(front, pass) || (i == last && pass(xs[last])) {
      }
      assert Where(xs, pass) == Where(front, pass) + if pass(xs[last]) then {last} else {};
    }
  }
}
