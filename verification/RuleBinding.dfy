/** Exactly which narrow bundles are bound to a main bundle. */
module RuleBinding {
  import opened Places
  import opened RuleGraph
  import opened RuleProjection

  /* ---------------------------------------------------------------- what a narrow bundle has to be */

  ghost function KeptAt(g: Graph, selected: set<string>): nat -> bool {
    (i: nat) => i < |g.rules| && g.rules[i].namespace in selected
  }

  ghost function FromKept(g: Graph, places: seq<nat>): nat -> bool {
    (i: nat) => i < |g.references| && g.references[i].0 in places
  }

  /** `narrow` has the main rules of the selected namespaces, found at `places`, in order and renumbered. */
  ghost predicate KeepsRules(main: Graph, narrow: Graph, selected: set<string>, places: seq<nat>) {
    && Picks(places, |main.rules|, KeptAt(main, selected)) && |narrow.rules| == |places|
    && forall k :: 0 <= k < |places| ==>
         places[k] < |main.rules| && narrow.rules[k] == main.rules[places[k]].(index := k)
  }

  predicate Renumbers(e: Reference, f: Reference, places: seq<nat>) {
    f.0 < |places| && f.1 < |places| && places[f.0] == e.0 && places[f.1] == e.1
  }

  /** `narrow` has the references from those rules, found at `picks`, in order, both ends renumbered. */
  ghost predicate KeepsReferences(main: Graph, narrow: Graph, places: seq<nat>, picks: seq<nat>) {
    && Picks(picks, |main.references|, FromKept(main, places)) && |narrow.references| == |picks|
    && forall k :: 0 <= k < |picks| ==>
         picks[k] < |main.references| && Renumbers(main.references[picks[k]], narrow.references[k], places)
  }

  /* ---------------------------------------------------------------- rules */

  lemma {:induction false} ExpectedOfPrefix(g: Graph, selected: set<string>, n: nat)
    requires n <= |g.rules|
    ensures var e, p := Expected(g.rules[..n], selected), Picked(n, KeptAt(g, selected));
            |e| == |p| && forall k :: 0 <= k < |p| ==> p[k] < n && e[k] == g.rules[p[k]]
  {
    if n > 0 {
      ExpectedOfPrefix(g, selected, n - 1);
      assert g.rules[..n][..n - 1] == g.rules[..n - 1];
    }
  }

  /** The place of a kept rule is its place in the sequence. */
  lemma PlacesAreKept(g: Graph, selected: set<string>, places: seq<nat>, k: nat)
    requires Accepted(g) && Picks(places, |g.rules|, KeptAt(g, selected)) && k < |places|
    ensures places[k] < |g.rules| && Position(g.rules, selected, places[k]) == k
  {
    var keep := KeptAt(g, selected);
    PicksAreUnique(places, |g.rules|, keep);
    var i := places[k];
    assert i in places;
    ExpectedOfPrefix(g, selected, i);
    PickedPrefix(i, |g.rules|, keep);
    var before := Picked(i, keep);
    assert places[|before|] == i;
  }

  lemma {:induction false} PickedPrefix(i: nat, n: nat, keep: nat -> bool)
    requires i < n && keep(i)
    ensures Picked(i, keep) <= Picked(n, keep)
    ensures |Picked(i, keep)| < |Picked(n, keep)| && Picked(n, keep)[|Picked(i, keep)|] == i
  {
    if i < n - 1 {
      PickedPrefix(i, n - 1, keep);
    }
  }

  lemma RulesExactly(main: Graph, narrow: Graph, selected: set<string>, places: seq<nat>)
    requires Picks(places, |main.rules|, KeptAt(main, selected))
    ensures narrow.rules == Reindexed(Expected(main.rules, selected)) <==> KeepsRules(main, narrow, selected, places)
  {
    PicksAreUnique(places, |main.rules|, KeptAt(main, selected));
    ExpectedOfPrefix(main, selected, |main.rules|);
    assert main.rules[..|main.rules|] == main.rules;
    hide Picks, Picked, Expected, KeptAt;
    var e := Expected(main.rules, selected);
    if KeepsRules(main, narrow, selected, places) {
      assert narrow.rules == Reindexed(e);
    }
  }

  /* ---------------------------------------------------------------- references */

  /** The two ends of a kept reference, as places. */
  lemma MappedIsRenumbered(g: Graph, selected: set<string>, places: seq<nat>, e: Reference)
    requires Accepted(g) && Picks(places, |g.rules|, KeptAt(g, selected)) && InOneNamespace(g, e)
    ensures var m := Mapping(Expected(g.rules, selected));
            && (e.0 in m <==> e.0 in places)
            && (e.0 in m ==>
                  e.1 in m && forall f: Reference :: Renumbers(e, f, places) <==> f == (m[e.0], m[e.1]))
  {
    MappingIs(g, selected, e.0);
    MappingIs(g, selected, e.1);
    assert e.0 in places <==> KeptAt(g, selected)(e.0);
    if e.0 in places {
      EndIs(g, selected, places, e.0);
      EndIs(g, selected, places, e.1);
    }
  }

  lemma EndIs(g: Graph, selected: set<string>, places: seq<nat>, i: nat)
    requires Accepted(g) && Picks(places, |g.rules|, KeptAt(g, selected)) && KeptAt(g, selected)(i)
    ensures var p := Position(g.rules, selected, i);
            p < |places| && places[p] == i && forall k :: 0 <= k < |places| && places[k] == i ==> k == p
  {
    assert i in places;
    var k :| 0 <= k < |places| && places[k] == i;
    PlacesAreKept(g, selected, places, k);
  }

  lemma {:induction false} RemappedOfPrefix(g: Graph, selected: set<string>, places: seq<nat>, n: nat)
    requires Accepted(g) && Picks(places, |g.rules|, KeptAt(g, selected)) && n <= |g.references|
    requires Total(g.references, Mapping(Expected(g.rules, selected)))
    ensures var r := Remapped(g.references[..n], Mapping(Expected(g.rules, selected)));
            var p := Picked(n, FromKept(g, places));
            |r| == |p| && forall k :: 0 <= k < |p| ==>
              p[k] < n && forall f :: Renumbers(g.references[p[k]], f, places) <==> f == r[k]
  {
    hide Accepted, Picks, Mapping, Expected, Renumbers;
    if n > 0 {
      RemappedOfPrefix(g, selected, places, n - 1);
      assert g.references[..n][..n - 1] == g.references[..n - 1];
      ReferenceInside(g, n - 1);
      MappedIsRenumbered(g, selected, places, g.references[n - 1]);
    }
  }

  lemma ReferenceInside(g: Graph, i: nat)
    requires Accepted(g) && i < |g.references|
    ensures InOneNamespace(g, g.references[i])
  {
  }

  lemma ReferencesExactly(main: Graph, narrow: Graph, selected: set<string>, places: seq<nat>, picks: seq<nat>)
    requires Accepted(main) && Picks(places, |main.rules|, KeptAt(main, selected))
    requires Picks(picks, |main.references|, FromKept(main, places))
    requires Total(main.references, Mapping(Expected(main.rules, selected)))
    ensures narrow.references == Remapped(main.references, Mapping(Expected(main.rules, selected)))
            <==> KeepsReferences(main, narrow, places, picks)
  {
    PicksAreUnique(picks, |main.references|, FromKept(main, places));
    RemappedOfPrefix(main, selected, places, |main.references|);
    assert main.references[..|main.references|] == main.references;
    hide Accepted, Picks, Picked, Expected, Mapping, Renumbers, FromKept, Remapped;
    SameReferences(main.references, Remapped(main.references, Mapping(Expected(main.rules, selected))),
                   narrow.references, places, picks);
  }

  lemma SameReferences(refs: seq<Reference>, expected: seq<Reference>, got: seq<Reference>, places: seq<nat>,
                       picks: seq<nat>)
    requires |expected| == |picks|
    requires forall k :: 0 <= k < |picks| ==>
               picks[k] < |refs| && forall f :: Renumbers(refs[picks[k]], f, places) <==> f == expected[k]
    ensures got == expected <==>
            |got| == |picks| && forall k :: 0 <= k < |picks| ==> Renumbers(refs[picks[k]], got[k], places)
  {
    hide Renumbers;
  }

  /* ---------------------------------------------------------------- binding */

  /** A narrow bundle is bound to an accepted main bundle exactly when its rules are the main rules of the selected
      namespaces, in order and renumbered, and its references are the ones from those rules, in order and with both
      ends renumbered. */
  lemma BindExactly(main: Graph, narrow: Graph, selected: set<string>)
    requires Accepted(main)
    ensures Bind(main, narrow, selected) == Bound <==>
            exists places, picks ::
              KeepsRules(main, narrow, selected, places) && KeepsReferences(main, narrow, places, picks)
    ensures Bind(main, narrow, selected) == InventoryMismatch <==>
            !exists places :: KeepsRules(main, narrow, selected, places)
    ensures Bind(main, narrow, selected) != UnmappedReference
  {
    hide Accepted, Expected, Mapping, Reindexed, Remapped, KeepsReferences;
    var places := Picked(|main.rules|, KeptAt(main, selected));
    PickedPicks(|main.rules|, KeptAt(main, selected));
    var picks := Picked(|main.references|, FromKept(main, places));
    PickedPicks(|main.references|, FromKept(main, places));
    RemappingIsTotal(main, selected);
    RulesExactly(main, narrow, selected, places);
    ReferencesExactly(main, narrow, selected, places, picks);
    forall other | KeepsRules(main, narrow, selected, other) ensures other == places {
      PicksAreUnique(other, |main.rules|, KeptAt(main, selected));
    }
    forall other | KeepsReferences(main, narrow, places, other) ensures other == picks {
      PicksOf(main, narrow, places, other);
    }
  }

  lemma PicksOf(main: Graph, narrow: Graph, places: seq<nat>, picks: seq<nat>)
    requires KeepsReferences(main, narrow, places, picks)
    ensures picks == Picked(|main.references|, FromKept(main, places))
  {
    PicksAreUnique(picks, |main.references|, FromKept(main, places));
  }

  /* ---------------------------------------------------------------- selection */

  /** Whether rule `i` has a counterpart in the narrow bundle, the same up to its number. */
  ghost predicate Kept(main: Graph, narrow: Graph, i: nat)
    requires i < |main.rules|
  {
    exists k :: 0 <= k < |narrow.rules| && narrow.rules[k] == main.rules[i].(index := k)
  }

  /** With a marker, exactly the namespaces that the closure reaches are kept, whole; without one, all accepted
      namespaces are. */
  lemma NarrowKeepsExactly(main: Graph, narrow: Graph, accepted: seq<string>, retained: set<nat>, i: nat)
    requires Accepted(main) && LeastClosed(main, retained) && i < |main.rules|
    requires Bind(main, narrow, Selected(accepted, MarkersOf(main.rules), NamespacesOf(main, retained))) == Bound
    ensures Kept(main, narrow, i) <==>
            && main.rules[i].namespace in accepted
            && ((exists m :: 0 <= m < |main.rules| && Marker(main.rules[m])) ==>
                exists k :: k in retained && k < |main.rules| && main.rules[k].namespace == main.rules[i].namespace)
  {
    hide Bind, KeepsReferences, LeastClosed;
    var selected := Selected(accepted, MarkersOf(main.rules), NamespacesOf(main, retained));
    BindExactly(main, narrow, selected);
    var places, picks :| KeepsRules(main, narrow, selected, places) && KeepsReferences(main, narrow, places, picks);
    assert i in places <==> KeptAt(main, selected)(i);
    KeptIsPlaced(main, narrow, selected, places, i);
    MarkersExist(main);
  }

  lemma KeptIsPlaced(main: Graph, narrow: Graph, selected: set<string>, places: seq<nat>, i: nat)
    requires Accepted(main) && KeepsRules(main, narrow, selected, places) && i < |main.rules|
    ensures Kept(main, narrow, i) <==> i in places
  {
    if i in places {
      var k :| 0 <= k < |places| && places[k] == i;
      assert narrow.rules[k] == main.rules[i].(index := k);
    }
    if Kept(main, narrow, i) {
      var k :| 0 <= k < |narrow.rules| && narrow.rules[k] == main.rules[i].(index := k);
      assert (main.rules[places[k]].namespace, main.rules[places[k]].identifier)
          == (main.rules[i].namespace, main.rules[i].identifier);
      assert places[k] == i;
    }
  }

  lemma MarkersExist(g: Graph)
    requires Accepted(g)
    ensures MarkersOf(g.rules) != [] <==> exists m :: 0 <= m < |g.rules| && Marker(g.rules[m])
  {
    var ms := MarkersOf(g.rules);
    if ms != [] {
      MarkersAre(g.rules, ms[0]);
    }
    if m :| 0 <= m < |g.rules| && Marker(g.rules[m]) {
      MarkersAre(g.rules, g.rules[m].index);
    }
  }

  function UpTo(n: nat): (all: seq<nat>)
    ensures |all| == n && forall i :: 0 <= i < n ==> all[i] == i
  {
    seq(n, i => i)
  }

  /** A graph without markers, all of whose namespaces are accepted, is bound to itself and to nothing else. */
  lemma WithoutMarkersAllIsKept(main: Graph, narrow: Graph, accepted: seq<string>, reached: set<string>)
    requires Accepted(main) && forall i :: 0 <= i < |main.rules| ==> !Marker(main.rules[i])
    requires forall i :: 0 <= i < |main.rules| ==> main.rules[i].namespace in accepted
    ensures Bind(main, narrow, Selected(accepted, MarkersOf(main.rules), reached)) == Bound <==> narrow == main
  {
    hide Bind, Accepted, Picks, KeepsRules, KeepsReferences;
    var selected := Selected(accepted, MarkersOf(main.rules), reached);
    MarkersExist(main);
    var all, every := UpTo(|main.rules|), UpTo(|main.references|);
    AllArePicked(|main.rules|, KeptAt(main, selected));
    EveryReferenceInside(main, all);
    AllArePicked(|main.references|, FromKept(main, all));
    hide KeptAt, FromKept, Selected;
    BindExactly(main, narrow, selected);
    if narrow == main {
      WholeKeeps(main, selected, all, every);
    }
    if Bind(main, narrow, selected) == Bound {
      var places, picks :| KeepsRules(main, narrow, selected, places) && KeepsReferences(main, narrow, places, picks);
      PlacesOf(main, narrow, selected, places);
      PicksAreUnique(all, |main.rules|, KeptAt(main, selected));
      PicksOf(main, narrow, places, picks);
      PicksAreUnique(every, |main.references|, FromKept(main, all));
      KeptWhole(main, narrow, selected, all, every);
    }
  }

  lemma PlacesOf(main: Graph, narrow: Graph, selected: set<string>, places: seq<nat>)
    requires KeepsRules(main, narrow, selected, places)
    ensures places == Picked(|main.rules|, KeptAt(main, selected))
  {
    PicksAreUnique(places, |main.rules|, KeptAt(main, selected));
  }

  lemma AllArePicked(n: nat, keep: nat -> bool)
    requires forall i: nat :: i < n ==> keep(i)
    ensures Picks(UpTo(n), n, keep)
  {
    var all := UpTo(n);
    forall i: nat | i < n ensures i in all {
      assert all[i] == i;
    }
  }

  lemma EveryReferenceInside(g: Graph, all: seq<nat>)
    requires Accepted(g) && all == UpTo(|g.rules|)
    ensures forall i: nat :: i < |g.references| ==> FromKept(g, all)(i)
  {
    forall i: nat | i < |g.references| ensures FromKept(g, all)(i) {
      ReferenceInside(g, i);
      assert all[g.references[i].0] == g.references[i].0;
    }
  }

  lemma WholeKeeps(main: Graph, selected: set<string>, all: seq<nat>, every: seq<nat>)
    requires Accepted(main) && all == UpTo(|main.rules|) && every == UpTo(|main.references|)
    requires Picks(all, |main.rules|, KeptAt(main, selected)) && Picks(every, |main.references|, FromKept(main, all))
    ensures KeepsRules(main, main, selected, all) && KeepsReferences(main, main, all, every)
  {
    forall k | 0 <= k < |main.references| ensures Renumbers(main.references[k], main.references[k], all) {
      ReferenceInside(main, k);
    }
  }

  lemma KeptWhole(main: Graph, narrow: Graph, selected: set<string>, all: seq<nat>, every: seq<nat>)
    requires Accepted(main) && all == UpTo(|main.rules|) && every == UpTo(|main.references|)
    requires KeepsRules(main, narrow, selected, all) && KeepsReferences(main, narrow, all, every)
    ensures narrow == main
  {
    assert narrow.rules == main.rules;
    forall k | 0 <= k < |main.references| ensures narrow.references[k] == main.references[k] {
      assert Renumbers(main.references[every[k]], narrow.references[k], all);
    }
    assert narrow.references == main.references;
  }
}
