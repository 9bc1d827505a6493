/** What the producer writes, and why parsing gives it back. */
module RuleRoundTrip {
  import opened Basics
  import opened RuleFrames
  import opened RuleGraph
  import opened RuleTrace

  /** What the compiler emits while it compiles: a resolved reference, or the end of a rule. */
  datatype Op = Refer(source: nat, target: nat) | Done(rule: nat)

  /** What happens while a source file is compiled: the lexer reads some bytes of it, or none at its end; an
      opcode is emitted; an include is read in full. */
  datatype Event = Chunk(bytes: Bytes) | Emitted(op: Op) | Included(path: Bytes, content: Bytes)

  /** One source file, with its events in any order. */
  datatype RootLog = RootLog(path: Bytes, namespace: Bytes, events: seq<Event>)

  const SUCCESS: Bytes := [0, 0, 0, 0]

  /* ---------------------------------------------------------------- frames */

  lemma VersionIsText()
    ensures IsText(VERSION)
  {
  }

  /** The frame that begins a graph. */
  function VersionFrame(): Frame {
    VersionIsText();
    Frame(10, Raw(VERSION), [])
  }

  lemma VersionFrameIs()
    ensures VersionFrame().kind == 10 && VersionFrame().payload == [] && Text(VersionFrame().name) == VERSION
  {
    VersionIsText();
    TextOfRaw(VERSION);
  }

  function OpFrame(op: Op): Frame {
    match op
    case Refer(source, target) => Frame(11, [], Little(source, 8) + Little(target, 8))
    case Done(rule) => Frame(12, [], Little(rule, 8) + Little(rule, 8))
  }

  function RuleFrame(r: Rule): Frame
    requires IsText(r.namespace) && IsText(r.identifier)
  {
    Frame(13, Raw(r.namespace), Little(r.index, 8) + Little(r.flags, 4) + Raw(r.identifier))
  }

  function TagFrame(index: nat, tag: string): Frame
    requires IsText(tag)
  {
    Frame(14, Raw(tag), Little(index, 8))
  }

  function TagFrames(index: nat, tags: seq<string>): seq<Frame>
    requires forall i :: 0 <= i < |tags| ==> IsText(tags[i])
  {
    seq(|tags|, i requires 0 <= i < |tags| => TagFrame(index, tags[i]))
  }

  predicate Writable(r: Rule) {
    && IsText(r.namespace) && IsText(r.identifier) && r.identifier != "" && r.flags < 4 && r.index < Pow256(8)
    && (forall i :: 0 <= i < |r.tags| ==> IsText(r.tags[i]) && r.tags[i] != "")
    && (forall i, k :: 0 <= i < k < |r.tags| ==> r.tags[i] != r.tags[k])
  }

  function InventoryFrames(rules: seq<Rule>): seq<Frame>
    requires forall i :: 0 <= i < |rules| ==> Writable(rules[i])
  {
    if rules == [] then []
    else
      var last := rules[|rules| - 1];
      assert Writable(last);
      InventoryFrames(rules[..|rules| - 1]) + [RuleFrame(last)] + TagFrames(last.index, last.tags)
  }

  function SealFrame(rules: nat, references: nat, completions: nat, tags: nat): Frame {
    Frame(15, [], Little(rules, 8) + Little(references, 8) + Little(completions, 8) + Little(tags, 8))
  }

  function EventFrame(root: Bytes, e: Event): Frame {
    match e
    case Chunk(bytes) => Frame(2, root, bytes)
    case Emitted(op) => OpFrame(op)
    case Included(path, content) => Frame(4, path, content)
  }

  function EventFrames(root: Bytes, events: seq<Event>): seq<Frame> {
    seq(|events|, i requires 0 <= i < |events| => EventFrame(root, events[i]))
  }

  function BeginFrames(library: Bytes, r: RootLog): seq<Frame> {
    [Frame(8, library, []), Frame(1, r.path, r.namespace)]
  }

  function RootFrames(library: Bytes, r: RootLog): seq<Frame> {
    BeginFrames(library, r) + EventFrames(r.path, r.events) + [Frame(3, r.path, SUCCESS)]
  }

  function AllRootFrames(library: Bytes, roots: seq<RootLog>): seq<Frame> {
    if roots == [] then []
    else AllRootFrames(library, roots[..|roots| - 1]) + RootFrames(library, roots[|roots| - 1])
  }

  /* ---------------------------------------------------------------- what is expected back */

  function ReferencesOf(ops: seq<Op>): seq<Reference> {
    if ops == [] then []
    else
      var last := ops[|ops| - 1];
      ReferencesOf(ops[..|ops| - 1]) + if last.Refer? then [(last.source, last.target)] else []
  }

  function CompletionsOf(ops: seq<Op>): seq<nat> {
    if ops == [] then []
    else
      var last := ops[|ops| - 1];
      CompletionsOf(ops[..|ops| - 1]) + if last.Done? then [last.rule] else []
  }

  function ContentOf(events: seq<Event>): Bytes {
    if events == [] then []
    else
      var last := events[|events| - 1];
      ContentOf(events[..|events| - 1]) + if last.Chunk? then last.bytes else []
  }

  function OpsIn(events: seq<Event>): seq<Op> {
    if events == [] then []
    else
      var last := events[|events| - 1];
      OpsIn(events[..|events| - 1]) + if last.Emitted? then [last.op] else []
  }

  function IncludesIn(root: Bytes, events: seq<Event>): seq<Include> {
    if events == [] then []
    else
      var last := events[|events| - 1];
      IncludesIn(root, events[..|events| - 1]) + if last.Included? then [Include(last.path, root, last.content)] else []
  }

  /** Whether the end of the file has been seen. */
  predicate AtEnd(events: seq<Event>) {
    events != [] &&
    var last := events[|events| - 1];
    if last.Chunk? then last.bytes == [] else AtEnd(events[..|events| - 1])
  }

  /** Nothing is read behind the end of the file. */
  predicate WellRead(events: seq<Event>) {
    events == [] ||
    (WellRead(events[..|events| - 1]) && (events[|events| - 1].Chunk? ==> !AtEnd(events[..|events| - 1])))
  }

  function OpsOf(roots: seq<RootLog>): seq<Op> {
    if roots == [] then [] else OpsOf(roots[..|roots| - 1]) + OpsIn(roots[|roots| - 1].events)
  }

  function IncludesOf(roots: seq<RootLog>): seq<Include> {
    if roots == [] then []
    else IncludesOf(roots[..|roots| - 1]) + IncludesIn(roots[|roots| - 1].path, roots[|roots| - 1].events)
  }

  function SourceOf(r: RootLog): Source {
    Source(Root(r.path, r.namespace, ContentOf(r.events), true), Some(0))
  }

  function SourcesOf(roots: seq<RootLog>): seq<Source> {
    seq(|roots|, i requires 0 <= i < |roots| => SourceOf(roots[i]))
  }

  /* ---------------------------------------------------------------- consuming the pieces */

  lemma {:induction false} ConsumeAppend(s: State, a: seq<Frame>, b: seq<Frame>, code: int)
    ensures Consume(s, a + b, code) ==
            match Consume(s, a, code)
            case Rejected => Rejected
            case Ok(t) => Consume(t, b, code)
    decreases |a|
  {
    hide Advance;
    if a == [] {
      assert a + b == b;
    } else {
      assert (a + b)[1..] == a[1..] + b;
      var next := Advance(s, a[0], code);
      if next.Ok? {
        ConsumeAppend(next.value, a[1..], b, code);
      }
    }
  }

  lemma ConsumeOne(s: State, f: Frame, code: int)
    ensures Consume(s, [f], code) == Advance(s, f, code)
  {
    hide Advance;
    assert [f][1..] == [];
  }

  predicate InRange(op: Op) {
    match op
    case Refer(source, target) => source < Pow256(8) && target < Pow256(8)
    case Done(rule) => rule < Pow256(8)
  }

  lemma PairReads(a: nat, b: nat)
    requires a < Pow256(8) && b < Pow256(8)
    ensures var p := Little(a, 8) + Little(b, 8); |p| == 16 && Value(p[..8]) == a && Value(p[8..]) == b
  {
    var p := Little(a, 8) + Little(b, 8);
    ValueOfLittle(a, 8);
    ValueOfLittle(b, 8);
    assert p[..8] == Little(a, 8) && p[8..] == Little(b, 8);
  }

  /** A graph that is open for opcodes. */
  predicate Open(s: State) {
    s.graph.started && !s.graph.sealed && s.graph.inventory == [] && s.sources.compiler.None?
  }

  lemma OpTurn(s: State, op: Op)
    requires Open(s) && InRange(op)
    ensures Advance(s, OpFrame(op), 0) ==
            Ok(s.(graph := if op.Refer? then s.graph.(references := s.graph.references + [(op.source, op.target)])
                           else s.graph.(completions := s.graph.completions + [op.rule])))
  {
    hide Value, Little, Pow256;
    if op.Refer? {
      PairReads(op.source, op.target);
    } else {
      PairReads(op.rule, op.rule);
    }
  }

  lemma ConsumeNone(s: State)
    ensures Consume(s, [], 0) == Ok(s)
  {
  }

  /* ---------------------------------------------------------------- one source file */

  /** The graph after some more opcodes. */
  function WithOps(c: Collected, ops: seq<Op>): Collected {
    c.(references := c.references + ReferencesOf(ops), completions := c.completions + CompletionsOf(ops))
  }

  /** The active root and the includes after some events. */
  function WithReads(t: Sources, events: seq<Event>): Sources
    requires t.active.Some?
  {
    var root := t.active.value;
    t.(active := Some(root.(content := root.content + ContentOf(events), eof := AtEnd(events))),
       includes := t.includes + IncludesIn(root.path, events))
  }

  function WithEvents(s: State, events: seq<Event>): State
    requires s.sources.active.Some?
  {
    State(WithReads(s.sources, events), WithOps(s.graph, OpsIn(events)))
  }

  predicate EventOk(e: Event) {
    e.Emitted? ==> InRange(e.op)
  }

  lemma OneMoreOp(c: Collected, ops: seq<Op>, op: Op)
    ensures WithOps(c, ops + [op]) ==
            var d := WithOps(c, ops);
            if op.Refer? then d.(references := d.references + [(op.source, op.target)])
            else d.(completions := d.completions + [op.rule])
  {
    assert (ops + [op])[..|ops|] == ops;
    if op.Refer? {
      AppendsAssociate(c.references, ReferencesOf(ops), [(op.source, op.target)]);
      assert CompletionsOf(ops) + [] == CompletionsOf(ops);
    } else {
      AppendsAssociate(c.completions, CompletionsOf(ops), [op.rule]);
      assert ReferencesOf(ops) + [] == ReferencesOf(ops);
    }
  }

  lemma EmittedTurn(s: State, events: seq<Event>, op: Op)
    requires Open(s) && s.sources.active.Some? && InRange(op)
    ensures Advance(WithEvents(s, events), OpFrame(op), 0) == Ok(WithEvents(s, events + [Emitted(op)]))
  {
    hide Advance, OpFrame, InRange;
    var more := events + [Emitted(op)];
    assert more[..|events|] == events;
    OneMoreOp(s.graph, OpsIn(events), op);
    OpTurn(WithEvents(s, events), op);
    assert ContentOf(events) + [] == ContentOf(events);
    assert IncludesIn(s.sources.active.value.path, events) + [] == IncludesIn(s.sources.active.value.path, events);
  }

  lemma ChunkTurn(s: State, events: seq<Event>, bytes: Bytes)
    requires Open(s) && s.sources.active.Some? && !AtEnd(events)
    ensures Advance(WithEvents(s, events), Frame(2, s.sources.active.value.path, bytes), 0)
         == Ok(WithEvents(s, events + [Chunk(bytes)]))
  {
    var root, more := s.sources.active.value, events + [Chunk(bytes)];
    assert more[..|events|] == events;
    AppendsAssociate(root.content, ContentOf(events), bytes);
    assert OpsIn(events) + [] == OpsIn(events);
    assert IncludesIn(root.path, events) + [] == IncludesIn(root.path, events);
  }

  lemma IncludedTurn(s: State, events: seq<Event>, path: Bytes, content: Bytes)
    requires Open(s) && s.sources.active.Some?
    ensures Advance(WithEvents(s, events), Frame(4, path, content), 0)
            == Ok(WithEvents(s, events + [Included(path, content)]))
  {
    var root, more := s.sources.active.value, events + [Included(path, content)];
    assert more[..|events|] == events;
    AppendsAssociate(s.sources.includes, IncludesIn(root.path, events), [Include(path, root.path, content)]);
    assert OpsIn(events) + [] == OpsIn(events);
    assert ContentOf(events) + [] == ContentOf(events);
  }

  lemma EventTurn(s: State, events: seq<Event>, e: Event)
    requires Open(s) && s.sources.active.Some? && EventOk(e) && (e.Chunk? ==> !AtEnd(events))
    ensures Advance(WithEvents(s, events), EventFrame(s.sources.active.value.path, e), 0)
            == Ok(WithEvents(s, events + [e]))
  {
    hide Advance, WithEvents, AtEnd, InRange, OpFrame;
    match e
    case Chunk(bytes) => ChunkTurn(s, events, bytes);
    case Emitted(op) => EmittedTurn(s, events, op);
    case Included(path, content) => IncludedTurn(s, events, path, content);
  }

  lemma NoEvents(s: State)
    requires s.sources.active.Some? && !s.sources.active.value.eof
    ensures WithEvents(s, []) == s
  {
    assert s.sources.active.value.content + [] == s.sources.active.value.content;
    assert s.sources.includes + [] == s.sources.includes;
    assert s.graph.references + [] == s.graph.references && s.graph.completions + [] == s.graph.completions;
  }

  lemma {:induction false} ConsumeEvents(s: State, events: seq<Event>)
    requires Open(s) && s.sources.active.Some? && !s.sources.active.value.eof
    requires WellRead(events) && forall i :: 0 <= i < |events| ==> EventOk(events[i])
    ensures Consume(s, EventFrames(s.sources.active.value.path, events), 0) == Ok(WithEvents(s, events))
  {
    hide Advance, Consume, EventOk, EventFrame, WithEvents, AtEnd;
    var path := s.sources.active.value.path;
    if events == [] {
      assert EventFrames(path, events) == [];
      ConsumeNone(s);
      NoEvents(s);
    } else {
      var front, last := events[..|events| - 1], events[|events| - 1];
      ConsumeEvents(s, front);
      assert EventFrames(path, events) == EventFrames(path, front) + [EventFrame(path, last)];
      ConsumeAppend(s, EventFrames(path, front), [EventFrame(path, last)], 0);
      ConsumeOne(WithEvents(s, front), EventFrame(path, last), 0);
      EventTurn(s, front, last);
      assert front + [last] == events;
    }
  }

  predicate RootOk(r: RootLog) {
    WellRead(r.events) && AtEnd(r.events) && forall i :: 0 <= i < |r.events| ==> EventOk(r.events[i])
  }

  lemma SuccessIsZero()
    ensures Signed(SUCCESS) == 0
  {
    assert Value(SUCCESS[4..]) == 0;
    assert SUCCESS[1..][1..][1..] == SUCCESS[3..] && SUCCESS[1..][1..] == SUCCESS[2..] &&
           SUCCESS[3..][1..] == SUCCESS[4..];
  }

  function WithRoot(s: State, library: Bytes, r: RootLog): State {
    State(s.sources.(library := Some(library), finished := s.sources.finished + [SourceOf(r)],
                     includes := s.sources.includes + IncludesIn(r.path, r.events)),
          WithOps(s.graph, OpsIn(r.events)))
  }

  /** No root is being read, and no other version of the library was seen. */
  predicate Between(s: State, library: Bytes) {
    Open(s) && s.sources.active.None? && (s.sources.library.None? || s.sources.library == Some(library))
  }

  function Begun(s: State, library: Bytes, r: RootLog): State {
    s.(sources := s.sources.(library := Some(library), active := Some(Root(r.path, r.namespace, [], false))))
  }

  lemma ConsumeBegin(s: State, library: Bytes, r: RootLog)
    requires Between(s, library)
    ensures Consume(s, BeginFrames(library, r), 0) == Ok(Begun(s, library, r))
  {
    hide Consume;
    var version, begin := Frame(8, library, []), Frame(1, r.path, r.namespace);
    var t := s.(sources := s.sources.(library := Some(library)));
    assert Advance(s, version, 0) == Ok(t);
    assert Advance(t, begin, 0) == Ok(Begun(s, library, r));
    ConsumeOne(s, version, 0);
    ConsumeOne(t, begin, 0);
    assert BeginFrames(library, r) == [version] + [begin];
    ConsumeAppend(s, [version], [begin], 0);
  }

  lemma ConsumeRootEnd(s: State, library: Bytes, r: RootLog)
    requires Between(s, library) && AtEnd(r.events)
    ensures Advance(WithEvents(Begun(s, library, r), r.events), Frame(3, r.path, SUCCESS), 0)
            == Ok(WithRoot(s, library, r))
  {
    hide AtEnd, ContentOf, IncludesIn, WithOps;
    SuccessIsZero();
    assert [] + ContentOf(r.events) == ContentOf(r.events);
  }

  lemma ConsumeRoot(s: State, library: Bytes, r: RootLog)
    requires Between(s, library) && RootOk(r)
    ensures Consume(s, RootFrames(library, r), 0) == Ok(WithRoot(s, library, r)) &&
            Between(WithRoot(s, library, r), library)
  {
    hide Consume, Advance, EventFrames, BeginFrames, WithEvents, AtEnd, WellRead, EventOk;
    var end := Frame(3, r.path, SUCCESS);
    var begin, events := BeginFrames(library, r), EventFrames(r.path, r.events);
    ConsumeBegin(s, library, r);
    ConsumeEvents(Begun(s, library, r), r.events);
    ConsumeRootEnd(s, library, r);
    ConsumeOne(WithEvents(Begun(s, library, r), r.events), end, 0);
    ConsumeAppend(s, begin, events, 0);
    ConsumeAppend(s, begin + events, [end], 0);
  }

  function WithRoots(s: State, library: Bytes, roots: seq<RootLog>): State {
    if roots == [] then s else WithRoot(WithRoots(s, library, roots[..|roots| - 1]), library, roots[|roots| - 1])
  }

  lemma {:induction false} ConsumeRoots(s: State, library: Bytes, roots: seq<RootLog>)
    requires Between(s, library) && forall i :: 0 <= i < |roots| ==> RootOk(roots[i])
    ensures Consume(s, AllRootFrames(library, roots), 0) == Ok(WithRoots(s, library, roots))
    ensures Between(WithRoots(s, library, roots), library)
  {
    hide Consume, RootFrames, RootOk, WithRoot, Between;
    if roots == [] {
      ConsumeNone(s);
    } else {
      var front, last := roots[..|roots| - 1], roots[|roots| - 1];
      ConsumeRoots(s, library, front);
      ConsumeAppend(s, AllRootFrames(library, front), RootFrames(library, last), 0);
      ConsumeRoot(WithRoots(s, library, front), library, last);
    }
  }

  lemma {:induction false} ReferencesAppend(a: seq<Op>, b: seq<Op>)
    ensures ReferencesOf(a + b) == ReferencesOf(a) + ReferencesOf(b)
    ensures CompletionsOf(a + b) == CompletionsOf(a) + CompletionsOf(b)
  {
    if b == [] {
      assert a + b == a;
    } else {
      ReferencesAppend(a, b[..|b| - 1]);
      assert (a + b)[..|a + b| - 1] == a + b[..|b| - 1];
    }
  }

  lemma OpsAddUp(c: Collected, a: seq<Op>, b: seq<Op>)
    ensures WithOps(WithOps(c, a), b) == WithOps(c, a + b)
  {
    ReferencesAppend(a, b);
    AppendsAssociate(c.references, ReferencesOf(a), ReferencesOf(b));
    AppendsAssociate(c.completions, CompletionsOf(a), CompletionsOf(b));
  }

  /** All roots together: every source, include and opcode in order. */
  lemma {:induction false} RootsAddUp(s: State, library: Bytes, roots: seq<RootLog>)
    ensures var t := WithRoots(s, library, roots);
            && t.graph == WithOps(s.graph, OpsOf(roots))
            && t.sources == s.sources.(library := if roots == [] then s.sources.library else Some(library),
                                       finished := s.sources.finished + SourcesOf(roots),
                                       includes := s.sources.includes + IncludesOf(roots))
  {
    hide IncludesIn, OpsIn, SourceOf;
    if roots == [] {
      assert SourcesOf(roots) == [] && s.sources.finished + [] == s.sources.finished;
      assert s.sources.includes + [] == s.sources.includes;
      assert s.graph.references + [] == s.graph.references && s.graph.completions + [] == s.graph.completions;
    } else {
      var front, last := roots[..|roots| - 1], roots[|roots| - 1];
      RootsAddUp(s, library, front);
      OpsAddUp(s.graph, OpsOf(front), OpsIn(last.events));
      assert SourcesOf(roots) == SourcesOf(front) + [SourceOf(last)];
      AppendsAssociate(s.sources.finished, SourcesOf(front), [SourceOf(last)]);
      AppendsAssociate(s.sources.includes, IncludesOf(front), IncludesIn(last.path, last.events));
    }
  }

  lemma AppendsAssociate<T>(a: seq<T>, b: seq<T>, c: seq<T>)
    ensures a + (b + c) == a + b + c
  {
  }

  /* ---------------------------------------------------------------- the inventory */

  function WithInventory(s: State, inventory: seq<Rule>): State {
    s.(graph := s.graph.(inventory := inventory))
  }

  predicate Taking(s: State) {
    s.graph.started && !s.graph.sealed && s.sources.compiler.None? && s.sources.active.None?
  }

  lemma RulePayloadReads(r: Rule)
    requires Writable(r)
    ensures var p := RuleFrame(r).payload;
            && |p| > 12 && Value(p[..8]) == r.index && Value(p[8..12]) == r.flags && p[12..] == Raw(r.identifier)
  {
    var p := RuleFrame(r).payload;
    ValueOfLittle(r.index, 8);
    assert Pow256(4) >= 4;
    ValueOfLittle(r.flags, 4);
    assert p[..8] == Little(r.index, 8) && p[8..12] == Little(r.flags, 4) && p[12..] == Raw(r.identifier);
  }

  lemma RuleTurn(s: State, inventory: seq<Rule>, r: Rule)
    requires Taking(s) && Writable(r) && r.index == |inventory| && !Known(inventory, r.namespace, r.identifier)
    ensures Advance(WithInventory(s, inventory), RuleFrame(r), 0) == Ok(WithInventory(s, inventory + [r.(tags := [])]))
  {
    hide Value, Little, Pow256;
    RulePayloadReads(r);
    TextOfRaw(r.namespace);
    TextOfRaw(r.identifier);
  }

  lemma TagTurn(s: State, inventory: seq<Rule>, r: Rule, tags: seq<string>, tag: string)
    requires Taking(s) && r.index < Pow256(8) && IsText(tag) && tag != "" && tag !in tags
    ensures Advance(WithInventory(s, inventory + [r.(tags := tags)]), TagFrame(r.index, tag), 0)
         == Ok(WithInventory(s, inventory + [r.(tags := tags + [tag])]))
  {
    hide Value, Little, Pow256;
    ValueOfLittle(r.index, 8);
    TextOfRaw(tag);
    var all := inventory + [r.(tags := tags)];
    assert Tagged(all, tag) == inventory + [r.(tags := tags + [tag])];
  }

  lemma {:induction false} ConsumeTags(s: State, inventory: seq<Rule>, r: Rule, tags: seq<string>)
    requires Taking(s) && r.index < Pow256(8)
    requires forall i :: 0 <= i < |tags| ==> IsText(tags[i]) && tags[i] != ""
    requires forall i, k :: 0 <= i < k < |tags| ==> tags[i] != tags[k]
    ensures Consume(WithInventory(s, inventory + [r.(tags := [])]), TagFrames(r.index, tags), 0)
         == Ok(WithInventory(s, inventory + [r.(tags := tags)]))
  {
    hide Advance, Consume, Pow256;
    var start := WithInventory(s, inventory + [r.(tags := [])]);
    if tags == [] {
      assert TagFrames(r.index, tags) == [];
      ConsumeNone(start);
    } else {
      var front, last := tags[..|tags| - 1], tags[|tags| - 1];
      ConsumeTags(s, inventory, r, front);
      assert TagFrames(r.index, tags) == TagFrames(r.index, front) + [TagFrame(r.index, last)];
      ConsumeAppend(start, TagFrames(r.index, front), [TagFrame(r.index, last)], 0);
      ConsumeOne(WithInventory(s, inventory + [r.(tags := front)]), TagFrame(r.index, last), 0);
      TagTurn(s, inventory, r, front, last);
      assert front + [last] == tags;
    }
  }

  ghost predicate Writables(rules: seq<Rule>) {
    && (forall i :: 0 <= i < |rules| ==> Writable(rules[i]) && rules[i].index == i)
    && (forall i, k :: 0 <= i < k < |rules| ==>
          (rules[i].namespace, rules[i].identifier) != (rules[k].namespace, rules[k].identifier))
  }

  lemma {:induction false} ConsumeInventory(s: State, rules: seq<Rule>)
    requires Taking(s) && Writables(rules)
    ensures Consume(WithInventory(s, []), InventoryFrames(rules), 0) == Ok(WithInventory(s, rules))
  {
    hide Advance, Consume, TagFrames, RuleFrame;
    var start := WithInventory(s, []);
    if rules == [] {
      ConsumeNone(start);
    } else {
      var front, last := rules[..|rules| - 1], rules[|rules| - 1];
      assert Writable(last);
      ConsumeInventory(s, front);
      RuleTurn(s, front, last);
      ConsumeOne(WithInventory(s, front), RuleFrame(last), 0);
      ConsumeTags(s, front, last, last.tags);
      ConsumeAppend(start, InventoryFrames(front), [RuleFrame(last)], 0);
      ConsumeAppend(start, InventoryFrames(front) + [RuleFrame(last)], TagFrames(last.index, last.tags), 0);
      assert front + [last] == rules && last.(tags := last.tags) == last;
    }
  }

  /* ---------------------------------------------------------------- the whole invocation */

  /** One successful compilation: its versions, its source files and the rules that came out. */
  datatype Build = Build(library: Bytes, compiler: Bytes, roots: seq<RootLog>, rules: seq<Rule>) {
    function Ops(): seq<Op> { OpsOf(roots) }
    function References(): seq<Reference> { ReferencesOf(Ops()) }
    function Completions(): seq<nat> { CompletionsOf(Ops()) }
    function Counts(): seq<nat> { [|rules|, |References()|, |Completions()|, TagCount(rules)] }
  }

  predicate Spelled(rules: seq<Rule>) {
    forall i :: 0 <= i < |rules| ==> Writable(rules[i])
  }

  function Body(b: Build): seq<Frame>
    requires Spelled(b.rules)
  {
    [VersionFrame()] + AllRootFrames(b.library, b.roots) + InventoryFrames(b.rules)
  }

  function SealOf(counts: seq<nat>): Frame
    requires |counts| == 4
  {
    SealFrame(counts[0], counts[1], counts[2], counts[3])
  }

  /** The frames of one successful compilation. */
  function Invocation(b: Build): seq<Frame>
    requires Spelled(b.rules)
  {
    Body(b) + [SealOf(b.Counts())] + [Frame(9, b.compiler, SUCCESS)]
  }

  /** What a compiler can produce: source files that are read to their ends, rules that are completed in order
      and refer within their namespaces. */
  ghost predicate Producible(b: Build) {
    && Writables(b.rules) && b.roots != [] && (forall i :: 0 <= i < |b.roots| ==> RootOk(b.roots[i]))
    && b.Completions() == seq(|b.rules|, i => i)
    && (forall i :: 0 <= i < |b.References()| ==> InOneNamespace(Graph(b.rules, b.References()), b.References()[i]))
    && |b.rules| < Pow256(8) && |b.References()| < Pow256(8) && TagCount(b.rules) < Pow256(8)
  }

  lemma SealReads(a: nat, b: nat, c: nat, d: nat)
    requires a < Pow256(8) && b < Pow256(8) && c < Pow256(8) && d < Pow256(8)
    ensures var p := SealFrame(a, b, c, d).payload;
            && |p| == 32 && Value(p[..8]) == a && Value(p[8..16]) == b && Value(p[16..24]) == c && Value(p[24..]) == d
  {
    var p := SealFrame(a, b, c, d).payload;
    ValueOfLittle(a, 8);
    ValueOfLittle(b, 8);
    ValueOfLittle(c, 8);
    ValueOfLittle(d, 8);
    assert p[..8] == Little(a, 8) && p[8..16] == Little(b, 8) && p[16..24] == Little(c, 8) && p[24..] == Little(d, 8);
  }

  /** The state once everything but the seal and the exit status has been read. */
  function Gathered(b: Build, rules: seq<Rule>): State {
    State(Sources(None, SourcesOf(b.roots), IncludesOf(b.roots), Some(b.library), None),
          Collected(true, false, b.References(), b.Completions(), rules, None))
  }

  lemma Begins()
    ensures Advance(State(NO_SOURCES, NOTHING), VersionFrame(), 0) == Ok(State(NO_SOURCES, NOTHING.(started := true)))
  {
    hide VersionFrame, Text;
    VersionFrameIs();
  }

  lemma RootsGather(b: Build)
    requires b.roots != []
    ensures WithRoots(State(NO_SOURCES, NOTHING.(started := true)), b.library, b.roots) == Gathered(b, [])
  {
    hide SourcesOf, ReferencesOf, CompletionsOf, OpsOf, IncludesOf, WithRoots;
    RootsAddUp(State(NO_SOURCES, NOTHING.(started := true)), b.library, b.roots);
    assert [] + SourcesOf(b.roots) == SourcesOf(b.roots) && [] + IncludesOf(b.roots) == IncludesOf(b.roots);
    assert [] + b.References() == b.References() && [] + b.Completions() == b.Completions();
  }

  lemma ConsumeBody(b: Build)
    requires Producible(b)
    ensures Consume(State(NO_SOURCES, NOTHING), Body(b), 0) == Ok(Gathered(b, b.rules))
  {
    hide Consume, Advance, VersionFrame, SourcesOf, ReferencesOf, CompletionsOf, OpsOf, IncludesOf, InventoryFrames,
         AllRootFrames, WithRoots;
    var start, version, roots := State(NO_SOURCES, NOTHING), VersionFrame(), AllRootFrames(b.library, b.roots);
    var s := start.(graph := NOTHING.(started := true));
    Begins();
    ConsumeOne(start, version, 0);
    ConsumeRoots(s, b.library, b.roots);
    RootsGather(b);
    ConsumeInventory(Gathered(b, []), b.rules);
    ConsumeAppend(start, [version], roots, 0);
    ConsumeAppend(start, [version] + roots, InventoryFrames(b.rules), 0);
  }

  lemma ConsumeEnd(b: Build)
    requires Producible(b)
    ensures var s := Gathered(b, b.rules);
            Consume(s, [SealOf(b.Counts())] + [Frame(9, b.compiler, SUCCESS)], 0)
            == Ok(State(s.sources.(compiler := Some(b.compiler)),
                        s.graph.(sealed := true, summary := Some(b.Counts()))))
  {
    hide Value, Little, Pow256, ReferencesOf, CompletionsOf, TagCount, SourcesOf, IncludesOf;
    var s, n := Gathered(b, b.rules), b.Counts();
    SealReads(n[0], n[1], n[2], n[3]);
    var seal, status := SealOf(n), Frame(9, b.compiler, SUCCESS);
    var t := s.(graph := s.graph.(sealed := true, summary := Some(n)));
    assert Advance(s, seal, 0) == Ok(t);
    SuccessIsZero();
    assert Advance(t, status, 0) == Ok(t.(sources := t.sources.(compiler := Some(b.compiler))));
    ConsumeOne(s, seal, 0);
    ConsumeOne(t, status, 0);
    ConsumeAppend(s, [seal], [status], 0);
  }

  /** What comes back: the versions, the source files, the includes with the roots that asked for them, and the
      rule graph. */
  function ReportOf(b: Build): Report {
    Report(SourcesOf(b.roots), IncludesOf(b.roots), Some(b.library), b.compiler,
           Graph(b.rules, b.References()), b.Completions(), Some(b.Counts()))
  }

  /** Parsing the bytes that the producer wrote for a compilation gives the compilation back. */
  lemma ParseOfProduced(b: Build)
    requires Producible(b) && forall i :: 0 <= i < |Invocation(b)| ==> Sized(Invocation(b)[i])
    ensures Parse(Log(Invocation(b)), 0) == Ok(ReportOf(b))
  {
    hide Events, Log, Consume, Body, Value, Pow256, TagCount, ReferencesOf, CompletionsOf, OpsOf, IncludesOf;
    EventsOfLog(Invocation(b));
    ConsumeBody(b);
    ConsumeEnd(b);
    var tail := [SealOf(b.Counts())] + [Frame(9, b.compiler, SUCCESS)];
    assert Invocation(b) == Body(b) + tail;
    ConsumeAppend(State(NO_SOURCES, NOTHING), Body(b), tail, 0);
  }
}
