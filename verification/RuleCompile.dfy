/** The observed compiler: a whole compilation that calls the writer at each of its observation points, and
    the reader that gets the compilation back. */
module RuleCompile {
  import opened RuleCapture
  import opened RuleFrames
  import opened RuleGraph
  import opened RuleRoundTrip
  import opened RuleTrace

  /** The opcodes that are references. */
  function Edges(events: seq<Event>): nat {
    |ReferencesOf(OpsIn(events))|
  }

  function Ends(events: seq<Event>): nat {
    |CompletionsOf(OpsIn(events))|
  }

  lemma OneMoreEvent(root: Bytes, events: seq<Event>, i: nat)
    requires i < |events|
    ensures var e, front, more := events[i], events[..i], events[..i + 1];
            && EventFrames(root, more) == EventFrames(root, front) + [EventFrame(root, e)]
            && Edges(more) == Edges(front) + (if e.Emitted? && e.op.Refer? then 1 else 0)
            && Ends(more) == Ends(front) + (if e.Emitted? && e.op.Done? then 1 else 0)
  {
    hide EventFrame;
    var e, front, more := events[i], events[..i], events[..i + 1];
    assert more[..i] == front;
    if e.Emitted? {
      assert OpsIn(more)[..|OpsIn(front)|] == OpsIn(front);
    } else {
      assert OpsIn(more) == OpsIn(front);
    }
  }

  /** One event; only opcodes are counted. */
  method RecordEvent(p: Producer, root: Bytes, e: Event)
    requires p.Valid() && p.enabled && p.active
    modifies p
    ensures p.Valid() && p.active && p.frames == old(p.frames) + [EventFrame(root, e)]
    ensures p.edges == old(p.edges) + (if e.Emitted? && e.op.Refer? then 1 else 0)
    ensures p.completions == old(p.completions) + (if e.Emitted? && e.op.Done? then 1 else 0)
    ensures p.tags == old(p.tags)
  {
    hide Log, Little, CountKind;
    match e {
      case Chunk(bytes) => p.InputCapture(2, root, bytes);
      case Included(path, content) => p.InputCapture(4, path, content);
      case Emitted(op) =>
        ghost var since := p.since;
        p.RuleCapture(op);
        CountOneMore(since, OpFrame(op));
    }
  }

  /** Compiles one source file. */
  method CompileRoot(p: Producer, library: Bytes, r: RootLog)
    requires p.Valid() && p.enabled && p.active
    modifies p
    ensures p.Valid() && p.active && p.frames == old(p.frames) + RootFrames(library, r)
    ensures p.edges == old(p.edges) + Edges(r.events) && p.completions == old(p.completions) + Ends(r.events)
    ensures p.tags == old(p.tags)
  {
    hide Log, CountKind, EventFrame, EventFrames, Edges, Ends;
    p.InputCapture(8, library, []);
    p.InputCapture(1, r.path, r.namespace);
    ghost var begun := p.frames;
    NoEventsYet(r.path);
    for i := 0 to |r.events|
      invariant p.Valid() && p.active && p.frames == begun + EventFrames(r.path, r.events[..i])
      invariant p.edges == old(p.edges) + Edges(r.events[..i]) &&
                p.completions == old(p.completions) + Ends(r.events[..i])
      invariant p.tags == old(p.tags)
    {
      OneMoreEvent(r.path, r.events, i);
      RecordEvent(p, r.path, r.events[i]);
    }
    assert r.events[..|r.events|] == r.events;
    p.InputCapture(3, r.path, SUCCESS);
  }

  lemma NoEventsYet(root: Bytes)
    ensures EventFrames(root, []) == [] && Edges([]) == 0 && Ends([]) == 0
  {
  }

  /** Lists one rule and its tags. */
  method ListRule(p: Producer, r: Rule)
    requires p.Valid() && p.enabled && Writable(r)
    modifies p
    ensures p.Valid() && p.frames == old(p.frames) + ([RuleFrame(r)] + TagFrames(r.index, r.tags))
    ensures p.edges == old(p.edges) && p.completions == old(p.completions) && p.tags == old(p.tags) + |r.tags|
  {
    hide Log, Little, CountKind, RuleFrame, TagFrame;
    ghost var since := p.since;
    RuleKind(r);
    p.RuleInventory(r);
    CountOneMore(since, RuleFrame(r));
    ghost var listed := p.frames;
    for i := 0 to |r.tags|
      invariant p.Valid() && p.frames == listed + TagFrames(r.index, r.tags[..i])
      invariant p.edges == old(p.edges) && p.completions == old(p.completions) && p.tags == old(p.tags) + i
    {
      since := p.since;
      TagKind(r.index, r.tags[i]);
      p.RuleTag(r.index, r.tags[i]);
      CountOneMore(since, TagFrame(r.index, r.tags[i]));
      assert TagFrames(r.index, r.tags[..i + 1]) == TagFrames(r.index, r.tags[..i]) + [TagFrame(r.index, r.tags[i])];
    }
    assert r.tags[..|r.tags|] == r.tags;
  }

  lemma RuleKind(r: Rule)
    requires Writable(r)
    ensures IsText(r.namespace) && IsText(r.identifier) && RuleFrame(r).kind == 13
  {
  }

  lemma TagKind(index: nat, tag: string)
    requires IsText(tag)
    ensures TagFrame(index, tag).kind == 14
  {
  }

  /** Compiles all source files, in order. */
  method CompileRoots(p: Producer, library: Bytes, roots: seq<RootLog>)
    requires p.Valid() && p.enabled && p.active
    modifies p
    ensures p.Valid() && p.active && p.frames == old(p.frames) + AllRootFrames(library, roots)
    ensures p.edges == old(p.edges) + |ReferencesOf(OpsOf(roots))|
    ensures p.completions == old(p.completions) + |CompletionsOf(OpsOf(roots))|
    ensures p.tags == old(p.tags)
  {
    hide p.Valid, RootFrames, ReferencesOf, CompletionsOf, OpsIn;
    NoOps();
    for i := 0 to |roots|
      invariant p.Valid() && p.active && p.frames == old(p.frames) + AllRootFrames(library, roots[..i])
      invariant p.edges == old(p.edges) + |ReferencesOf(OpsOf(roots[..i]))|
      invariant p.completions == old(p.completions) + |CompletionsOf(OpsOf(roots[..i]))|
      invariant p.tags == old(p.tags)
    {
      assert roots[..i + 1][..i] == roots[..i];
      ReferencesAppend(OpsOf(roots[..i]), OpsIn(roots[i].events));
      CompileRoot(p, library, roots[i]);
    }
    assert roots[..|roots|] == roots;
  }

  lemma NoOps()
    ensures ReferencesOf(OpsOf([])) == [] && CompletionsOf(OpsOf([])) == []
  {
  }

  /** Lists all rules, in order. */
  method ListRules(p: Producer, rules: seq<Rule>)
    requires p.Valid() && p.enabled && Spelled(rules)
    modifies p
    ensures p.Valid() && p.frames == old(p.frames) + InventoryFrames(rules)
    ensures p.edges == old(p.edges) && p.completions == old(p.completions) && p.tags == old(p.tags) + TagCount(rules)
  {
    hide p.Valid, RuleFrame, TagFrames, Writable;
    for i := 0 to |rules|
      invariant p.Valid() && p.frames == old(p.frames) + InventoryFrames(rules[..i])
      invariant p.edges == old(p.edges) && p.completions == old(p.completions) &&
                p.tags == old(p.tags) + TagCount(rules[..i])
    {
      OneMoreRule(rules, i);
      ListRule(p, rules[i]);
    }
    assert rules[..|rules|] == rules;
  }

  lemma OneMoreRule(rules: seq<Rule>, i: nat)
    requires i < |rules| && Spelled(rules)
    ensures Writable(rules[i]) && TagCount(rules[..i + 1]) == TagCount(rules[..i]) + |rules[i].tags|
    ensures InventoryFrames(rules[..i + 1])
         == InventoryFrames(rules[..i]) + ([RuleFrame(rules[i])] + TagFrames(rules[i].index, rules[i].tags))
  {
    hide RuleFrame, TagFrames;
    assert rules[..i + 1][..i] == rules[..i];
  }

  lemma NothingCounted()
    ensures forall kind :: CountKind([], kind) == 0
  {
  }

  /** A whole compilation: what the log then holds, and that the reader gets the compilation back from it. */
  method Compile(p: Producer, b: Build)
    requires p.Valid() && p.enabled && p.frames == [] && Spelled(b.rules)
    modifies p
    ensures p.Valid() && p.frames == Invocation(b) && p.log == Log(Invocation(b))
    ensures Producible(b) && (forall i :: 0 <= i < |Invocation(b)| ==> Sized(Invocation(b)[i])) ==>
              Parse(p.log, 0) == Ok(ReportOf(b))
  {
    hide Log, Parse, AllRootFrames, InventoryFrames, ReferencesOf, CompletionsOf, OpsOf, TagCount, CountKind, Spelled,
         Producible, ReportOf, Sized;
    p.RuleBegin();
    NothingCounted();
    CompileRoots(p, b.library, b.roots);
    ListRules(p, b.rules);
    p.RuleSummary(|b.rules|);
    p.InputCapture(9, b.compiler, SUCCESS);
    if Producible(b) && forall i :: 0 <= i < |Invocation(b)| ==> Sized(Invocation(b)[i]) {
      ParseOfProduced(b);
    }
  }
}
