/** The native rule graph of a compiled bundle, and the closure of its marker rules. */
module RuleGraph {

  /** `flags`: 1 is private, 2 is global. */
  datatype Rule = Rule(index: nat, namespace: string, identifier: string, flags: nat, tags: seq<string>)

  type Reference = (nat, nat)

  /** Repeated references are kept. */
  datatype Graph = Graph(rules: seq<Rule>, references: seq<Reference>)

  predicate Global(r: Rule) {
    r.flags / 2 % 2 == 1
  }

  /** Whether `r` is a global rule of the other's namespace. */
  predicate Gates(r: Rule, other: Rule) {
    Global(r) && r.namespace == other.namespace
  }

  predicate Marker(r: Rule) {
    "marker" in r.tags
  }

  /** What an accepted trace guarantees about its graph. */
  ghost predicate Accepted(g: Graph) {
    && (forall i :: 0 <= i < |g.rules| ==> g.rules[i].index == i)
    && (forall i, k :: 0 <= i < k < |g.rules| ==>
          (g.rules[i].namespace, g.rules[i].identifier) != (g.rules[k].namespace, g.rules[k].identifier))
    && (forall i :: 0 <= i < |g.references| ==> InOneNamespace(g, g.references[i]))
  }

  predicate InOneNamespace(g: Graph, e: Reference) {
    e.0 < |g.rules| && e.1 < |g.rules| && g.rules[e.0].namespace == g.rules[e.1].namespace
  }

  /* ---------------------------------------------------------------- index */

  /** The targets of the references from `source`, in order and with repetitions. */
  function Targets(references: seq<Reference>, source: nat): seq<nat> {
    if references == [] then []
    else
      var last := references[|references| - 1];
      Targets(references[..|references| - 1], source) + if last.0 == source then [last.1] else []
  }

  function MarkersOf(rules: seq<Rule>): seq<nat> {
    if rules == [] then []
    else
      var last := rules[|rules| - 1];
      MarkersOf(rules[..|rules| - 1]) + if Marker(last) then [last.index] else []
  }

  function GlobalsOf(rules: seq<Rule>, namespace: string): seq<nat> {
    if rules == [] then []
    else
      var last := rules[|rules| - 1];
      GlobalsOf(rules[..|rules| - 1], namespace)
      + if Global(last) && last.namespace == namespace then [last.index] else []
  }

  lemma {:induction false} TargetsAre(references: seq<Reference>, source: nat, t: nat)
    ensures t in Targets(references, source) <==> (source, t) in references
  {
    if references != [] {
      TargetsAre(references[..|references| - 1], source, t);
    }
  }

  lemma {:induction false} MarkersAre(rules: seq<Rule>, m: nat)
    ensures m in MarkersOf(rules) <==> exists i :: 0 <= i < |rules| && rules[i].index == m && Marker(rules[i])
  {
    if rules != [] {
      MarkersAre(rules[..|rules| - 1], m);
    }
  }

  lemma {:induction false} GlobalsAre(rules: seq<Rule>, namespace: string, m: nat)
    ensures m in GlobalsOf(rules, namespace) <==>
            exists i :: 0 <= i < |rules| && rules[i].index == m && Global(rules[i]) && rules[i].namespace == namespace
  {
    if rules != [] {
      GlobalsAre(rules[..|rules| - 1], namespace, m);
    }
  }

  lemma {:induction false} MarkersDiffer(rules: seq<Rule>)
    requires forall i :: 0 <= i < |rules| ==> rules[i].index == i
    ensures forall i, k :: 0 <= i < k < |MarkersOf(rules)| ==> MarkersOf(rules)[i] < MarkersOf(rules)[k]
    ensures forall i :: 0 <= i < |MarkersOf(rules)| ==> MarkersOf(rules)[i] < |rules|
  {
    if rules != [] {
      MarkersDiffer(rules[..|rules| - 1]);
    }
  }

  /* ---------------------------------------------------------------- closure */

  /** Contains the markers, the references of its rules and the globals of the namespaces it reaches. */
  ghost predicate Closed(g: Graph, kept: set<nat>) {
    && (forall i :: 0 <= i < |g.rules| && Marker(g.rules[i]) ==> i in kept)
    && (forall i :: 0 <= i < |g.references| && g.references[i].0 in kept ==> g.references[i].1 in kept)
    && (forall i, k :: 0 <= i < |g.rules| && 0 <= k < |g.rules| && i in kept && Gates(g.rules[k], g.rules[i]) ==>
        k in kept)
  }

  ghost predicate LeastClosed(g: Graph, kept: set<nat>) {
    Closed(g, kept) && forall other :: Closed(g, other) ==> kept <= other
  }

  function SourcesIn(references: seq<Reference>, kept: set<nat>): nat {
    if references == [] then 0
    else SourcesIn(references[..|references| - 1], kept) + if references[|references| - 1].0 in kept then 1 else 0
  }

  function GlobalsIn(rules: seq<Rule>, namespaces: set<string>): nat {
    if rules == [] then 0
    else
      var last := rules[|rules| - 1];
      GlobalsIn(rules[..|rules| - 1], namespaces) + if Global(last) && last.namespace in namespaces then 1 else 0
  }

  lemma {:induction false} OneMoreSource(references: seq<Reference>, kept: set<nat>, source: nat)
    requires source !in kept
    ensures SourcesIn(references, kept + {source}) == SourcesIn(references, kept) + |Targets(references, source)|
    ensures SourcesIn(references, kept) <= |references|
  {
    if references != [] {
      OneMoreSource(references[..|references| - 1], kept, source);
    }
  }

  lemma {:induction false} OneMoreNamespace(rules: seq<Rule>, namespaces: set<string>, namespace: string)
    requires namespace !in namespaces
    ensures GlobalsIn(rules, namespaces + {namespace}) == GlobalsIn(rules, namespaces) + |GlobalsOf(rules, namespace)|
    ensures GlobalsIn(rules, namespaces) <= |rules|
  {
    if rules != [] {
      OneMoreNamespace(rules[..|rules| - 1], namespaces, namespace);
    }
  }

  function NamespacesOf(g: Graph, kept: set<nat>): set<string> {
    set i | i in kept && i < |g.rules| :: g.rules[i].namespace
  }

  /** How much work the closure did. */
  datatype Counts = Counts(rules: nat, edges: nat, namespaces: nat, globals: nat)

  /** A worklist: the retained rules in the order they were found, each once. */
  ghost predicate Worklist(g: Graph, todo: seq<nat>, retained: set<nat>) {
    && (forall i :: 0 <= i < |todo| ==> todo[i] < |g.rules|)
    && (forall i, k :: 0 <= i < k < |todo| ==> todo[i] != todo[k])
    && retained == set i | i in todo
  }

  /** Nothing was retained that a closed set could do without. */
  ghost predicate Necessary(g: Graph, retained: set<nat>) {
    forall other :: Closed(g, other) ==> retained <= other
  }

  lemma {:induction false} WorklistSize(g: Graph, todo: seq<nat>, retained: set<nat>)
    requires Worklist(g, todo, retained)
    ensures |todo| == |retained| <= |g.rules|
  {
    DistinctAreAsMany(todo, retained);
    Bounded(retained, |g.rules|);
  }

  lemma {:induction false} DistinctAreAsMany(todo: seq<nat>, elements: set<nat>)
    requires (forall i, k :: 0 <= i < k < |todo| ==> todo[i] != todo[k]) && elements == set i | i in todo
    ensures |todo| == |elements|
  {
    if todo != [] {
      var front, last := todo[..|todo| - 1], todo[|todo| - 1];
      assert elements - {last} == set i | i in front;
      DistinctAreAsMany(front, elements - {last});
    }
  }

  lemma {:induction false} Bounded(s: set<nat>, n: nat)
    requires forall x :: x in s ==> x < n
    ensures |s| <= n
  {
    if n > 0 {
      Bounded(s - {n - 1}, n - 1);
    } else {
      assert s == {};
    }
  }
}
