/** The marker closure as it runs: a growing worklist. */
module RuleClosure {
  import opened RuleGraph

  ghost predicate GlobalsIndexed(globals: map<string, seq<nat>>, rules: seq<Rule>) {
    forall n :: Indexed(globals, n) == GlobalsOf(rules, n)
  }

  function Indexed(globals: map<string, seq<nat>>, namespace: string): seq<nat> {
    if namespace in globals then globals[namespace] else []
  }

  function IndexOne(globals: map<string, seq<nat>>, row: Rule): map<string, seq<nat>> {
    if Global(row) then globals[row.namespace := Indexed(globals, row.namespace) + [row.index]] else globals
  }

  lemma IndexOneMore(globals: map<string, seq<nat>>, rules: seq<Rule>, i: nat)
    requires i < |rules| && GlobalsIndexed(globals, rules[..i])
    ensures GlobalsIndexed(IndexOne(globals, rules[i]), rules[..i + 1])
    ensures MarkersOf(rules[..i + 1]) == MarkersOf(rules[..i]) + if Marker(rules[i]) then [rules[i].index] else []
  {
    assert rules[..i + 1][..i] == rules[..i];
    forall n ensures Indexed(IndexOne(globals, rules[i]), n) == GlobalsOf(rules[..i + 1], n) {
      assert Indexed(globals, n) == GlobalsOf(rules[..i], n);
    }
  }

  method IndexRules(rules: seq<Rule>) returns (globals: map<string, seq<nat>>, markers: seq<nat>)
    ensures GlobalsIndexed(globals, rules) && markers == MarkersOf(rules)
  {
    hide GlobalsIndexed;
    globals, markers := map[], [];
    assert GlobalsIndexed(globals, rules[..0]) by { NothingIndexed(); }
    for i := 0 to |rules|
      invariant GlobalsIndexed(globals, rules[..i])
      invariant markers == MarkersOf(rules[..i])
    {
      var row := rules[i];
      IndexOneMore(globals, rules, i);
      if Global(row) {
        globals := globals[row.namespace := Indexed(globals, row.namespace) + [row.index]];
      }
      if Marker(row) {
        markers := markers + [row.index];
      }
    }
    assert rules[..|rules|] == rules;
  }

  lemma NothingIndexed()
    ensures GlobalsIndexed(map[], [])
  {
  }

  method IndexEdges(g: Graph) returns (edges: seq<seq<nat>>)
    requires Accepted(g)
    ensures |edges| == |g.rules| && forall i :: 0 <= i < |edges| ==> edges[i] == Targets(g.references, i)
  {
    edges := seq(|g.rules|, _ => []);
    for i := 0 to |g.references|
      invariant |edges| == |g.rules| && forall k :: 0 <= k < |edges| ==> edges[k] == Targets(g.references[..i], k)
    {
      var e := g.references[i];
      assert g.references[..i + 1][..i] == g.references[..i];
      assert InOneNamespace(g, e);
      edges := edges[e.0 := edges[e.0] + [e.1]];
    }
    assert g.references[..|g.references|] == g.references;
  }

  lemma WorklistGrows(g: Graph, todo: seq<nat>, retained: set<nat>, x: nat)
    requires Worklist(g, todo, retained) && x < |g.rules| && x !in retained
    ensures Worklist(g, todo + [x], retained + {x})
  {
    assert x !in todo;
  }

  /** Adds the rules of `deps` that are not retained yet. */
  method EnqueueAll(g: Graph, todo: seq<nat>, retained: set<nat>, deps: seq<nat>)
    returns (longer: seq<nat>, more: set<nat>, visits: nat)
    requires Worklist(g, todo, retained) && forall t :: t in deps ==> t < |g.rules|
    ensures Worklist(g, longer, more) && todo <= longer && visits == |deps|
    ensures more == retained + set i | i in deps
  {
    hide Worklist;
    longer, more, visits := todo, retained, 0;
    for i := 0 to |deps|
      invariant Worklist(g, longer, more) && todo <= longer && visits == i
      invariant more == retained + set k | k in deps[..i]
    {
      visits := visits + 1;
      assert deps[..i + 1] == deps[..i] + [deps[i]];
      assert deps[i] in deps;
      if deps[i] !in more {
        WorklistGrows(g, longer, more, deps[i]);
        more := more + {deps[i]};
        longer := longer + [deps[i]];
      }
    }
    assert deps[..|deps|] == deps;
  }

  function NamespacesSeen(g: Graph, todo: seq<nat>, n: nat): set<string>
    requires n <= |todo| && forall i :: 0 <= i < |todo| ==> todo[i] < |g.rules|
  {
    set i | 0 <= i < n :: g.rules[todo[i]].namespace
  }

  /** The references and globals of the first `n` rules of the worklist are retained. */
  ghost predicate Expanded(g: Graph, todo: seq<nat>, retained: set<nat>, done: set<string>, n: nat) {
    && n <= |todo| && (forall i :: 0 <= i < |todo| ==> todo[i] < |g.rules|)
    && (forall i, t :: 0 <= i < n && t in Targets(g.references, todo[i]) ==> t in retained)
    && done == NamespacesSeen(g, todo, n)
    && (forall s, t :: s in done && t in GlobalsOf(g.rules, s) ==> t in retained)
  }

  lemma ExpandOneMore(g: Graph, todo: seq<nat>, retained: set<nat>, done: set<string>, n: nat,
                      longer: seq<nat>, more: set<nat>)
    requires Worklist(g, longer, more) && todo <= longer && retained <= more
    requires Expanded(g, todo, retained, done, n) && n < |todo|
    requires forall t :: t in Targets(g.references, todo[n]) ==> t in more
    requires forall t :: t in GlobalsOf(g.rules, g.rules[todo[n]].namespace) ==> t in more
    ensures Expanded(g, longer, more, done + {g.rules[todo[n]].namespace}, n + 1)
  {
  }

  /** The rules of the worklist that have been visited. */
  function Visited(todo: seq<nat>, n: nat): set<nat>
    requires n <= |todo|
  {
    set k | 0 <= k < n :: todo[k]
  }

  lemma VisitOneMore(g: Graph, todo: seq<nat>, retained: set<nat>, n: nat)
    requires Worklist(g, todo, retained) && n < |todo|
    ensures todo[n] !in Visited(todo, n) && Visited(todo, n + 1) == Visited(todo, n) + {todo[n]}
    ensures todo[n] in retained && todo[n] < |g.rules| && n < |g.rules|
  {
    WorklistSize(g, todo, retained);
  }

  lemma AllVisited(g: Graph, todo: seq<nat>, retained: set<nat>)
    requires Worklist(g, todo, retained)
    ensures Visited(todo, |todo|) == retained
  {
  }

  /** A worklist that has been expanded to its end is closed. */
  lemma ExpandedIsClosed(g: Graph, todo: seq<nat>, retained: set<nat>, done: set<string>)
    requires Accepted(g) && Worklist(g, todo, retained) && Expanded(g, todo, retained, done, |todo|)
    requires forall m :: m in MarkersOf(g.rules) ==> m in retained
    ensures Closed(g, retained) && done == NamespacesOf(g, retained)
  {
    forall i | 0 <= i < |g.rules| && Marker(g.rules[i]) ensures i in retained {
      MarkersAre(g.rules, i);
    }
    forall i | 0 <= i < |g.references| && g.references[i].0 in retained ensures g.references[i].1 in retained {
      TargetsAre(g.references, g.references[i].0, g.references[i].1);
      assert (g.references[i].0, g.references[i].1) == g.references[i];
      var k :| 0 <= k < |todo| && todo[k] == g.references[i].0;
    }
    forall i | i in retained ensures i < |g.rules| && g.rules[i].namespace in done {
      var k :| 0 <= k < |todo| && todo[k] == i;
    }
    forall i, k | 0 <= i < |g.rules| && 0 <= k < |g.rules| && i in retained && Gates(g.rules[k], g.rules[i])
      ensures k in retained
    {
      GlobalsAre(g.rules, g.rules[i].namespace, k);
    }
  }

  lemma MarkersAreNecessary(g: Graph)
    requires Accepted(g)
    ensures Necessary(g, set m | m in MarkersOf(g.rules))
  {
    forall other, m | Closed(g, other) && m in MarkersOf(g.rules) ensures m in other {
      MarkersAre(g.rules, m);
    }
  }

  lemma TargetsAreNecessary(g: Graph, retained: set<nat>, current: nat)
    requires Accepted(g) && Necessary(g, retained) && current in retained
    ensures Necessary(g, retained + set t | t in Targets(g.references, current))
    ensures forall t :: t in Targets(g.references, current) ==> t < |g.rules|
  {
    forall t | t in Targets(g.references, current)
      ensures t < |g.rules| && forall other :: Closed(g, other) ==> t in other
    {
      TargetsAre(g.references, current, t);
      var i :| 0 <= i < |g.references| && g.references[i] == (current, t);
      assert InOneNamespace(g, g.references[i]);
      forall other | Closed(g, other) ensures t in other {
        assert retained <= other;
      }
    }
  }

  lemma GlobalsAreNecessary(g: Graph, retained: set<nat>, current: nat)
    requires Accepted(g) && Necessary(g, retained) && current in retained && current < |g.rules|
    ensures Necessary(g, retained + set t | t in GlobalsOf(g.rules, g.rules[current].namespace))
    ensures forall t :: t in GlobalsOf(g.rules, g.rules[current].namespace) ==> t < |g.rules|
  {
    forall t | t in GlobalsOf(g.rules, g.rules[current].namespace)
      ensures t < |g.rules| && forall other :: Closed(g, other) ==> t in other
    {
      GlobalsAre(g.rules, g.rules[current].namespace, t);
      forall other | Closed(g, other) ensures t in other {
        assert retained <= other;
      }
    }
  }

  lemma StartIsWorklist(g: Graph)
    requires Accepted(g)
    ensures Worklist(g, MarkersOf(g.rules), set m | m in MarkersOf(g.rules))
  {
    MarkersDiffer(g.rules);
  }

  /** The least closed set, found with work linear in the graph: every retained rule is visited once, every
      reference of a retained rule once, and the globals of every reached namespace once. */
  method Closure(g: Graph) returns (markers: seq<nat>, retained: set<nat>, counts: Counts)
    requires Accepted(g)
    ensures markers == MarkersOf(g.rules)
    ensures LeastClosed(g, retained) && forall i :: i in retained ==> i < |g.rules|
    ensures counts.rules == |retained| <= |g.rules|
    ensures counts.edges == SourcesIn(g.references, retained) <= |g.references|
    ensures counts.namespaces == |NamespacesOf(g, retained)|
    ensures counts.globals == GlobalsIn(g.rules, NamespacesOf(g, retained)) <= |g.rules|
  {
    hide Accepted, Closed, Worklist, Necessary, Expanded, Visited, SourcesIn, GlobalsIn, Targets, GlobalsOf;
    var globals;
    globals, markers := IndexRules(g.rules);
    var edges := IndexEdges(g);
    retained := set m | m in markers;
    var todo := markers;
    StartIsWorklist(g);
    MarkersAreNecessary(g);
    NothingVisited(g, todo, retained);
    var expanded: set<string> := {};
    var i, edgeVisits, globalVisits := 0, 0, 0;
    while i < |todo|
      invariant Worklist(g, todo, retained) && Necessary(g, retained) && 0 <= i <= |todo|
      invariant forall m :: m in markers ==> m in retained
      invariant Expanded(g, todo, retained, expanded, i)
      invariant edgeVisits == SourcesIn(g.references, Visited(todo, i))
      invariant globalVisits == GlobalsIn(g.rules, expanded)
      decreases |g.rules| - i
    {
      VisitOneMore(g, todo, retained, i);
      ghost var before, kept, done := todo, retained, expanded;
      var current := todo[i];
      TargetsAreNecessary(g, retained, current);
      OneMoreSource(g.references, Visited(todo, i), current);
      var visits;
      todo, retained, visits := EnqueueAll(g, todo, retained, edges[current]);
      edgeVisits := edgeVisits + visits;
      var namespace := g.rules[current].namespace;
      if namespace !in expanded {
        OneMoreNamespace(g.rules, expanded, namespace);
        GlobalsAreNecessary(g, retained, current);
        expanded := expanded + {namespace};
        assert Indexed(globals, namespace) == GlobalsOf(g.rules, namespace);
        todo, retained, visits := EnqueueAll(g, todo, retained, Indexed(globals, namespace));
        globalVisits := globalVisits + visits;
      } else {
        GlobalsAlreadyIn(g, before, kept, done, i, namespace);
        assert done + {namespace} == done;
      }
      ExpandOneMore(g, before, kept, done, i, todo, retained);
      VisitedStays(before, todo, i + 1);
      i := i + 1;
    }
    ExpandedIsClosed(g, todo, retained, expanded);
    WorklistSize(g, todo, retained);
    AllVisited(g, todo, retained);
    CountsAreLinear(g, retained);
    RetainedAreRules(g, todo, retained);
    counts := Counts(i, edgeVisits, |expanded|, globalVisits);
  }

  lemma RetainedAreRules(g: Graph, todo: seq<nat>, retained: set<nat>)
    requires Worklist(g, todo, retained)
    ensures forall i :: i in retained ==> i < |g.rules|
    ensures Necessary(g, retained) ==> forall other :: Closed(g, other) ==> retained <= other
  {
  }

  lemma GlobalsAlreadyIn(g: Graph, todo: seq<nat>, retained: set<nat>, done: set<string>, n: nat, namespace: string)
    requires Expanded(g, todo, retained, done, n) && namespace in done
    ensures forall t :: t in GlobalsOf(g.rules, namespace) ==> t in retained
  {
  }

  lemma VisitedStays(todo: seq<nat>, longer: seq<nat>, n: nat)
    requires todo <= longer && n <= |todo|
    ensures Visited(longer, n) == Visited(todo, n)
  {
  }

  lemma NothingVisited(g: Graph, todo: seq<nat>, retained: set<nat>)
    requires Worklist(g, todo, retained)
    ensures Expanded(g, todo, retained, {}, 0) && SourcesIn(g.references, Visited(todo, 0)) == 0 &&
            GlobalsIn(g.rules, {}) == 0
  {
    NothingCounted(g);
    assert Visited(todo, 0) == {};
  }

  lemma NothingCounted(g: Graph)
    ensures SourcesIn(g.references, {}) == 0 && GlobalsIn(g.rules, {}) == 0
  {
    NoSource(g.references);
    NoGlobal(g.rules);
  }

  lemma {:induction false} NoSource(references: seq<Reference>)
    ensures SourcesIn(references, {}) == 0
  {
    if references != [] { NoSource(references[..|references| - 1]); }
  }

  lemma {:induction false} NoGlobal(rules: seq<Rule>)
    ensures GlobalsIn(rules, {}) == 0
  {
    if rules != [] { NoGlobal(rules[..|rules| - 1]); }
  }

  lemma CountsAreLinear(g: Graph, kept: set<nat>)
    ensures SourcesIn(g.references, kept) <= |g.references|
    ensures GlobalsIn(g.rules, NamespacesOf(g, kept)) <= |g.rules|
  {
    SourcesAreFew(g.references, kept);
    GlobalsAreFew(g.rules, NamespacesOf(g, kept));
  }

  lemma {:induction false} SourcesAreFew(references: seq<Reference>, kept: set<nat>)
    ensures SourcesIn(references, kept) <= |references|
  {
    if references != [] { SourcesAreFew(references[..|references| - 1], kept); }
  }

  lemma {:induction false} GlobalsAreFew(rules: seq<Rule>, namespaces: set<string>)
    ensures GlobalsIn(rules, namespaces) <= |rules|
  {
    if rules != [] { GlobalsAreFew(rules[..|rules| - 1], namespaces); }
  }
}
