/** Narrowing a bundle to whole namespaces keeps the meaning of every rule that stays. */
module RuleProjection {
  import opened RuleGraph

  /* ---------------------------------------------------------------- meaning */

  /** How a rule's condition depends on its own text and on the rules it refers to.  The native index is not
      part of the text. */
  type Condition = (Rule, seq<bool>) -> bool

  /** A rule can only refer to a rule compiled before it. */
  ghost predicate Backward(g: Graph) {
    GoBack(g.references, |g.rules|)
  }

  ghost predicate GoBack(references: seq<Reference>, n: nat) {
    forall i :: 0 <= i < |references| ==> references[i].1 < references[i].0 < n
  }

  lemma TargetsGoBack(g: Graph, i: nat)
    requires Backward(g)
    ensures forall k :: 0 <= k < |Targets(g.references, i)| ==> Targets(g.references, i)[k] < i
  {
    var ts := Targets(g.references, i);
    forall k | 0 <= k < |ts| ensures ts[k] < i {
      TargetsAre(g.references, i, ts[k]);
      var e :| 0 <= e < |g.references| && g.references[e] == (i, ts[k]);
    }
  }

  /** Whether the condition of rule `i` holds. */
  ghost function Holds(g: Graph, cond: Condition, i: nat): bool
    requires Backward(g) && i < |g.rules|
    decreases i, 1
  {
    TargetsGoBack(g, i);
    cond(g.rules[i].(index := 0), AllHold(g, cond, i, Targets(g.references, i)))
  }

  ghost function AllHold(g: Graph, cond: Condition, i: nat, targets: seq<nat>): seq<bool>
    requires Backward(g) && i < |g.rules| && forall k :: 0 <= k < |targets| ==> targets[k] < i
    decreases i, 0, |targets|
  {
    if targets == [] then []
    else
      var last := targets[|targets| - 1];
      AllHold(g, cond, i, targets[..|targets| - 1]) + [Holds(g, cond, last)]
  }

  /** Whether rule `i` is reported: its condition and every global of its namespace hold. */
  ghost predicate Matches(g: Graph, cond: Condition, i: nat)
    requires Backward(g) && i < |g.rules|
  {
    && Holds(g, cond, i)
    && forall k :: 0 <= k < |g.rules| && Gates(g.rules[k], g.rules[i]) ==> Holds(g, cond, k)
  }

  /* ---------------------------------------------------------------- projection */

  /** The rules of the selected namespaces, in order. */
  function Expected(rules: seq<Rule>, selected: set<string>): seq<Rule> {
    if rules == [] then []
    else
      var last := rules[|rules| - 1];
      Expected(rules[..|rules| - 1], selected) + if last.namespace in selected then [last] else []
  }

  function Reindexed(rules: seq<Rule>): seq<Rule> {
    seq(|rules|, i requires 0 <= i < |rules| => rules[i].(index := i))
  }

  /** From native indices of the main graph to those of the narrow one. */
  function Mapping(expected: seq<Rule>): map<nat, nat> {
    if expected == [] then map[]
    else Mapping(expected[..|expected| - 1])[expected[|expected| - 1].index := |expected| - 1]
  }

  predicate Total(references: seq<Reference>, mapping: map<nat, nat>) {
    forall i :: 0 <= i < |references| && references[i].0 in mapping ==> references[i].1 in mapping
  }

  function Remapped(references: seq<Reference>, mapping: map<nat, nat>): seq<Reference>
    requires Total(references, mapping)
  {
    if references == [] then []
    else
      var last := references[|references| - 1];
      Remapped(references[..|references| - 1], mapping)
      + if last.0 in mapping then [(mapping[last.0], mapping[last.1])] else []
  }

  datatype Verdict = Bound | InventoryMismatch | UnmappedReference | ReferenceMismatch

  /** The graph part of the check that binds a narrow bundle to its main bundle. */
  function Bind(main: Graph, narrow: Graph, selected: set<string>): Verdict {
    var expected := Expected(main.rules, selected);
    var mapping := Mapping(expected);
    if narrow.rules != Reindexed(expected) then InventoryMismatch
    else if !Total(main.references, mapping) then UnmappedReference
    else if narrow.references != Remapped(main.references, mapping) then ReferenceMismatch
    else Bound
  }

  /** The namespaces that are kept: those that the closure reaches, or all of them when there is no marker. */
  function Selected(accepted: seq<string>, markers: seq<nat>, reached: set<string>): set<string> {
    set n | n in accepted && (markers == [] || n in reached)
  }

  /* ---------------------------------------------------------------- the mapping */

  /** Where rule `i` ends up. */
  function Position(rules: seq<Rule>, selected: set<string>, i: nat): nat
    requires i <= |rules|
  {
    |Expected(rules[..i], selected)|
  }

  lemma {:induction false} ExpectedGrows(rules: seq<Rule>, selected: set<string>, i: nat, k: nat)
    requires i <= k <= |rules|
    ensures Expected(rules[..i], selected) <= Expected(rules[..k], selected)
    decreases k - i
  {
    if i < k {
      ExpectedGrows(rules, selected, i, k - 1);
      assert rules[..k][..k - 1] == rules[..k - 1];
    }
  }

  lemma PositionIs(rules: seq<Rule>, selected: set<string>, i: nat)
    requires i < |rules| && rules[i].namespace in selected
    ensures var p := Position(rules, selected, i);
            p < |Expected(rules, selected)| && Expected(rules, selected)[p] == rules[i]
  {
    ExpectedGrows(rules, selected, i + 1, |rules|);
    assert rules[..i + 1][..i] == rules[..i] && rules[..|rules|] == rules;
  }

  lemma PositionsAscend(rules: seq<Rule>, selected: set<string>, i: nat, k: nat)
    requires i < k < |rules| && rules[i].namespace in selected
    ensures Position(rules, selected, i) < Position(rules, selected, k)
  {
    ExpectedGrows(rules, selected, i + 1, k);
    assert rules[..i + 1][..i] == rules[..i];
  }

  /** Every rule of the narrow graph comes from a kept rule. */
  lemma {:induction false} EveryPositionIsTaken(rules: seq<Rule>, selected: set<string>, p: nat) returns (i: nat)
    requires p < |Expected(rules, selected)|
    ensures i < |rules| && rules[i].namespace in selected && Position(rules, selected, i) == p
  {
    var n := |rules| - 1;
    var front := rules[..n];
    assert front == rules[..n];
    if p < |Expected(front, selected)| {
      i := EveryPositionIsTaken(front, selected, p);
      assert front[..i] == rules[..i];
    } else {
      i := n;
    }
  }

  lemma {:induction false} MappingOfPrefix(rules: seq<Rule>, selected: set<string>, n: nat, i: nat)
    requires n <= |rules| && forall k :: 0 <= k < |rules| ==> rules[k].index == k
    ensures var m := Mapping(Expected(rules[..n], selected));
            && (i in m <==> i < n && rules[i].namespace in selected)
            && (i in m ==> m[i] == Position(rules, selected, i))
    decreases n
  {
    if n > 0 {
      MappingOfPrefix(rules, selected, n - 1, i);
      assert rules[..n][..n - 1] == rules[..n - 1];
      var front, all := Expected(rules[..n - 1], selected), Expected(rules[..n], selected);
      if rules[n - 1].namespace in selected {
        assert all == front + [rules[n - 1]];
        assert all[..|all| - 1] == front;
      } else {
        assert all == front;
      }
    }
  }

  /** A native index is mapped exactly when its rule is kept, and then to the rule's new place. */
  lemma MappingIs(g: Graph, selected: set<string>, i: nat)
    requires Accepted(g)
    ensures var m := Mapping(Expected(g.rules, selected));
            && (i in m <==> i < |g.rules| && g.rules[i].namespace in selected)
            && (i in m ==> m[i] == Position(g.rules, selected, i))
  {
    MappingOfPrefix(g.rules, selected, |g.rules|, i);
    assert g.rules[..|g.rules|] == g.rules;
  }

  /** References never leave their namespace, so the remapping of an accepted graph is total: binding can
      never fail on a missing target. */
  lemma RemappingIsTotal(g: Graph, selected: set<string>)
    requires Accepted(g)
    ensures Total(g.references, Mapping(Expected(g.rules, selected)))
  {
    forall i | 0 <= i < |g.references| && g.references[i].0 in Mapping(Expected(g.rules, selected))
      ensures g.references[i].1 in Mapping(Expected(g.rules, selected))
    {
      assert InOneNamespace(g, g.references[i]);
      MappingIs(g, selected, g.references[i].0);
      MappingIs(g, selected, g.references[i].1);
    }
  }

  /* ---------------------------------------------------------------- references after the projection */

  predicate AllIn(xs: seq<nat>, m: map<nat, nat>) {
    forall i :: 0 <= i < |xs| ==> xs[i] in m
  }

  function MapAll(m: map<nat, nat>, xs: seq<nat>): seq<nat>
    requires AllIn(xs, m)
  {
    seq(|xs|, i requires 0 <= i < |xs| => m[xs[i]])
  }

  ghost predicate Injective(m: map<nat, nat>) {
    forall i, k :: i in m && k in m && m[i] == m[k] ==> i == k
  }

  lemma MappingIsInjective(g: Graph, selected: set<string>)
    requires Accepted(g)
    ensures Injective(Mapping(Expected(g.rules, selected)))
  {
    var m := Mapping(Expected(g.rules, selected));
    forall i, k | i in m && k in m && m[i] == m[k] ensures i == k {
      MappingIs(g, selected, i);
      MappingIs(g, selected, k);
      if i < k {
        PositionsAscend(g.rules, selected, i, k);
      } else if k < i {
        PositionsAscend(g.rules, selected, k, i);
      }
    }
  }

  lemma TargetsAreMapped(references: seq<Reference>, m: map<nat, nat>, s: nat)
    requires Total(references, m) && s in m
    ensures AllIn(Targets(references, s), m)
  {
    var ts := Targets(references, s);
    forall i | 0 <= i < |ts| ensures ts[i] in m {
      TargetsAre(references, s, ts[i]);
      var e :| 0 <= e < |references| && references[e] == (s, ts[i]);
    }
  }

  /** A kept rule refers to the images of the rules it referred to, in the same order. */
  lemma {:induction false} TargetsCarryOver(references: seq<Reference>, m: map<nat, nat>, s: nat)
    requires Total(references, m) && Injective(m) && s in m
    ensures AllIn(Targets(references, s), m)
    ensures Targets(Remapped(references, m), m[s]) == MapAll(m, Targets(references, s))
  {
    TargetsAreMapped(references, m, s);
    if references != [] {
      var front, last := references[..|references| - 1], references[|references| - 1];
      TargetsCarryOver(front, m, s);
      var all := Remapped(references, m);
      if last.0 in m {
        assert all == Remapped(front, m) + [(m[last.0], m[last.1])];
        assert all[..|all| - 1] == Remapped(front, m);
        assert m[last.0] == m[s] <==> last.0 == s;
      } else {
        assert all == Remapped(front, m);
      }
      if last.0 == s {
        assert Targets(references, s) == Targets(front, s) + [last.1];
        assert MapAll(m, Targets(references, s)) == MapAll(m, Targets(front, s)) + [m[last.1]];
      } else {
        assert Targets(references, s) == Targets(front, s);
      }
    }
  }

  lemma {:induction false} RemappedGoesBack(references: seq<Reference>, m: map<nat, nat>, bound: nat, n: nat)
    requires Total(references, m)
    requires GoBack(references, bound)
    requires forall i, k :: i in m && k in m && i < k ==> m[i] < m[k]
    requires forall i :: i in m ==> m[i] < n
    ensures GoBack(Remapped(references, m), n)
  {
    if references != [] {
      var front, last := references[..|references| - 1], references[|references| - 1];
      RemappedGoesBack(front, m, bound, n);
    }
  }

  /** A bound narrow graph is again one in which references go backwards. */
  lemma NarrowGoesBack(main: Graph, narrow: Graph, selected: set<string>)
    requires Accepted(main) && Backward(main) && Bind(main, narrow, selected) == Bound
    ensures Backward(narrow)
  {
    var m := Mapping(Expected(main.rules, selected));
    forall i, k | i in m && k in m && i < k ensures m[i] < m[k] {
      MappingIs(main, selected, i);
      MappingIs(main, selected, k);
      PositionsAscend(main.rules, selected, i, k);
    }
    forall i | i in m ensures m[i] < |narrow.rules| {
      MappingIs(main, selected, i);
      PositionIs(main.rules, selected, i);
    }
    RemappedGoesBack(main.references, m, |main.rules|, |narrow.rules|);
  }

  /* ---------------------------------------------------------------- meaning is kept */

  /** What a bound narrow graph knows about the place of rule `i`. */
  lemma KeptRule(main: Graph, narrow: Graph, selected: set<string>, i: nat)
    requires Accepted(main) && Backward(main) && Bind(main, narrow, selected) == Bound
    requires i < |main.rules| && main.rules[i].namespace in selected
    ensures var p := Position(main.rules, selected, i);
            var m := Mapping(Expected(main.rules, selected));
            && i in m && m[i] == p && p < |narrow.rules| && narrow.rules[p] == main.rules[i].(index := p)
            && AllIn(Targets(main.references, i), m)
            && Targets(narrow.references, p) == MapAll(m, Targets(main.references, i))
  {
    hide Accepted;
    MappingIs(main, selected, i);
    PositionIs(main.rules, selected, i);
    MappingIsInjective(main, selected);
    TargetsCarryOver(main.references, Mapping(Expected(main.rules, selected)), i);
  }

  lemma {:induction false} HoldsCarriesOver(main: Graph, narrow: Graph, selected: set<string>, cond: Condition, i: nat)
    requires Accepted(main) && Backward(main) && Bind(main, narrow, selected) == Bound && Backward(narrow)
    requires i < |main.rules| && main.rules[i].namespace in selected
    ensures Position(main.rules, selected, i) < |narrow.rules|
    ensures Holds(narrow, cond, Position(main.rules, selected, i)) == Holds(main, cond, i)
    decreases i, 1
  {
    hide Accepted, Backward, Bind, Position;
    KeptRule(main, narrow, selected, i);
    TargetsGoBack(main, i);
    AllHoldCarriesOver(main, narrow, selected, cond, i, Targets(main.references, i));
    TargetsGoBack(narrow, Position(main.rules, selected, i));
  }

  lemma {:induction false} AllHoldCarriesOver(main: Graph, narrow: Graph, selected: set<string>, cond: Condition,
                                              i: nat, targets: seq<nat>)
    requires Accepted(main) && Backward(main) && Bind(main, narrow, selected) == Bound && Backward(narrow)
    requires i < |main.rules| && main.rules[i].namespace in selected
    requires forall k :: 0 <= k < |targets| ==> targets[k] < i && targets[k] in Mapping(Expected(main.rules, selected))
    ensures var p, mapped := Position(main.rules, selected, i),
            MapAll(Mapping(Expected(main.rules, selected)), targets);
            && p < |narrow.rules| && (forall k :: 0 <= k < |mapped| ==> mapped[k] < p)
            && AllHold(narrow, cond, p, mapped) == AllHold(main, cond, i, targets)
    decreases i, 0, |targets|
  {
    hide Accepted, Backward, Bind, Position, Holds;
    var m := Mapping(Expected(main.rules, selected));
    KeptRule(main, narrow, selected, i);
    if targets != [] {
      var front, last := targets[..|targets| - 1], targets[|targets| - 1];
      AllHoldCarriesOver(main, narrow, selected, cond, i, front);
      MappingIs(main, selected, last);
      PositionsAscend(main.rules, selected, last, i);
      HoldsCarriesOver(main, narrow, selected, cond, last);
      var mapped := MapAll(m, targets);
      assert mapped == MapAll(m, front) + [m[last]];
      assert mapped[..|mapped| - 1] == MapAll(m, front);
    }
  }

  /** If binding accepts, every kept rule is reported by the narrow bundle exactly when the main bundle
      reports it, whatever its condition computes. */
  lemma ProjectionKeepsMeaning(main: Graph, narrow: Graph, selected: set<string>, cond: Condition, i: nat)
    requires Accepted(main) && Backward(main) && Bind(main, narrow, selected) == Bound
    requires i < |main.rules| && main.rules[i].namespace in selected
    ensures Backward(narrow) && Position(main.rules, selected, i) < |narrow.rules|
    ensures Matches(narrow, cond, Position(main.rules, selected, i)) == Matches(main, cond, i)
  {
    hide Accepted, Backward, Bind, Position, Holds;
    NarrowGoesBack(main, narrow, selected);
    HoldsCarriesOver(main, narrow, selected, cond, i);
    KeptRule(main, narrow, selected, i);
    forall k | 0 <= k < |main.rules| && Gates(main.rules[k], main.rules[i])
      ensures Position(main.rules, selected, k) < |narrow.rules|
      ensures Gates(narrow.rules[Position(main.rules, selected, k)], narrow.rules[Position(main.rules, selected, i)])
      ensures Holds(narrow, cond, Position(main.rules, selected, k)) == Holds(main, cond, k)
    {
      KeptRule(main, narrow, selected, k);
      HoldsCarriesOver(main, narrow, selected, cond, k);
    }
    forall p | 0 <= p < |narrow.rules| && Gates(narrow.rules[p], narrow.rules[Position(main.rules, selected, i)])
      ensures Matches(main, cond, i) ==> Holds(narrow, cond, p)
    {
      NarrowSize(main, narrow, selected);
      var k := EveryPositionIsTaken(main.rules, selected, p);
      KeptRule(main, narrow, selected, k);
      HoldsCarriesOver(main, narrow, selected, cond, k);
    }
  }

  lemma NarrowSize(main: Graph, narrow: Graph, selected: set<string>)
    requires Bind(main, narrow, selected) == Bound
    ensures |narrow.rules| == |Expected(main.rules, selected)|
  {
  }

  /** The marker bundle reports every marker, and everything a marker depends on, exactly as the main bundle
      does: closure, namespace selection and binding together lose nothing. */
  lemma MarkerBundleIsFaithful(main: Graph, narrow: Graph, accepted: seq<string>, retained: set<nat>, cond: Condition,
                               i: nat)
    requires Accepted(main) && Backward(main) && LeastClosed(main, retained) && i < |main.rules|
    requires Marker(main.rules[i]) || i in retained
    requires var reached := NamespacesOf(main, retained);
             var selected := Selected(accepted, MarkersOf(main.rules), reached);
             reached <= selected && Bind(main, narrow, selected) == Bound
    ensures var selected := Selected(accepted, MarkersOf(main.rules), NamespacesOf(main, retained));
            var p := Position(main.rules, selected, i);
            && Backward(narrow) && p < |narrow.rules| && narrow.rules[p] == main.rules[i].(index := p)
            && Matches(narrow, cond, p) == Matches(main, cond, i)
  {
    hide Accepted, Backward, Bind, Matches;
    assert i in retained;
    assert main.rules[i].namespace in NamespacesOf(main, retained);
    var selected := Selected(accepted, MarkersOf(main.rules), NamespacesOf(main, retained));
    ProjectionKeepsMeaning(main, narrow, selected, cond, i);
    KeptRule(main, narrow, selected, i);
  }
}
