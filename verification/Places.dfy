/** The places that pass a test, in ascending order. */
module Places {

  ghost predicate Ascending(places: seq<nat>) {
    forall i, k :: 0 <= i < k < |places| ==> places[i] < places[k]
  }

  /** `places` are exactly the places below `n` that pass, in order. */
  ghost predicate Picks(places: seq<nat>, n: nat, keep: nat -> bool) {
    && Ascending(places)
    && forall i: nat :: i in places <==> i < n && keep(i)
  }

  function Picked(n: nat, keep: nat -> bool): seq<nat> {
    if n == 0 then [] else Picked(n - 1, keep) + if keep(n - 1) then [n - 1] else []
  }

  lemma {:induction false} PickedPicks(n: nat, keep: nat -> bool)
    ensures Picks(Picked(n, keep), n, keep)
  {
    if n > 0 {
      PickedPicks(n - 1, keep);
      var front := Picked(n - 1, keep);
      assert forall i :: 0 <= i < |front| ==> front[i] in front;
    }
  }

  lemma LastPick(places: seq<nat>, n: nat, keep: nat -> bool)
    requires n > 0 && Picks(places, n, keep) && keep(n - 1)
    ensures |places| > 0 && places[|places| - 1] == n - 1 && Picks(places[..|places| - 1], n - 1, keep)
  {
    var last := |places| - 1;
    assert n - 1 in places;
    var k :| 0 <= k < |places| && places[k] == n - 1;
    assert places[last] in places;
    var front := places[..last];
    forall i: nat ensures i in front <==> i < n - 1 && keep(i) {
      if i in front {
        assert i in places;
      }
      if i < n - 1 && keep(i) {
        assert i in places;
        var m :| 0 <= m < |places| && places[m] == i;
        assert front[m] == i;
      }
    }
  }

  lemma FirstIsIn(places: seq<nat>)
    requires places != []
    ensures places[0] in places
  {
  }

  /** There is only one such sequence. */
  lemma {:induction false} PicksAreUnique(places: seq<nat>, n: nat, keep: nat -> bool)
    requires Picks(places, n, keep)
    ensures places == Picked(n, keep)
  {
    if n == 0 {
      if places != [] {
        FirstIsIn(places);
      }
    } else if keep(n - 1) {
      LastPick(places, n, keep);
      PicksAreUnique(places[..|places| - 1], n - 1, keep);
    } else {
      PicksAreUnique(places, n - 1, keep);
    }
  }

  lemma {:induction false} PickedAlike(n: nat, keep: nat -> bool, other: nat -> bool)
    requires forall i: nat :: i < n ==> (keep(i) <==> other(i))
    ensures Picked(n, keep) == Picked(n, other)
  {
    if n > 0 {
      PickedAlike(n - 1, keep, other);
    }
  }
}
