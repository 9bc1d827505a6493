/** What a compiler trace says about the rule graph, frame by frame. */
module RuleTrace {
  import opened Basics
  import opened RuleFrames
  import opened RuleGraph

  /** Names are byte strings; decoding is one `char` a byte. */
  function Text(b: Bytes): string {
    seq(|b|, i requires 0 <= i < |b| => b[i] as char)
  }

  predicate IsText(s: string) {
    forall i :: 0 <= i < |s| ==> '\0' < s[i] < 256 as char
  }

  function Raw(s: string): Bytes
    requires IsText(s)
  {
    seq(|s|, i requires 0 <= i < |s| => s[i] as int)
  }

  lemma TextOfRaw(s: string)
    requires IsText(s)
    ensures Text(Raw(s)) == s && 0 !in Raw(s) && |Raw(s)| == |s|
  {
  }

  const VERSION: string := "mailstrix-rule-graph/1"

  datatype Outcome<+T> = Ok(value: T) | Rejected

  /* ---------------------------------------------------------------- graph frames */

  datatype Collected = Collected(
    started: bool, sealed: bool, references: seq<Reference>, completions: seq<nat>, inventory: seq<Rule>,
    summary: Option<seq<nat>>)

  const NOTHING: Collected := Collected(false, false, [], [], [], None)

  predicate Known(inventory: seq<Rule>, namespace: string, identifier: string) {
    exists i :: 0 <= i < |inventory| && inventory[i].namespace == namespace && inventory[i].identifier == identifier
  }

  function ObserveOpcode(c: Collected, f: Frame): Outcome<Collected> {
    if f.name != [] || |f.payload| != 16 || c.inventory != [] then Rejected
    else
      var source, target := Value(f.payload[..8]), Value(f.payload[8..]);
      if f.kind == 11 then Ok(c.(references := c.references + [(source, target)]))
      else if source != target then Rejected
      else Ok(c.(completions := c.completions + [source]))
  }

  function ObserveRule(c: Collected, f: Frame): Outcome<Collected> {
    if |f.payload| <= 12 || 0 in f.name then Rejected
    else
      var index, flags, id := Value(f.payload[..8]), Value(f.payload[8..12]), f.payload[12..];
      if index != |c.inventory| || flags >= 4 || 0 in id || Known(c.inventory, Text(f.name), Text(id)) then Rejected
      else Ok(c.(inventory := c.inventory + [Rule(index, Text(f.name), Text(id), flags, [])]))
  }

  function Tagged(inventory: seq<Rule>, tag: string): seq<Rule>
    requires inventory != []
  {
    var last := |inventory| - 1;
    inventory[last := inventory[last].(tags := inventory[last].tags + [tag])]
  }

  function ObserveTag(c: Collected, f: Frame): Outcome<Collected> {
    if |f.payload| != 8 || f.name == [] || 0 in f.name || c.inventory == [] then Rejected
    else
      var rule := c.inventory[|c.inventory| - 1];
      if Value(f.payload) != rule.index || Text(f.name) in rule.tags then Rejected
      else Ok(c.(inventory := Tagged(c.inventory, Text(f.name))))
  }

  function ObserveSeal(c: Collected, f: Frame): Outcome<Collected> {
    if f.name != [] || |f.payload| != 32 then Rejected
    else
      var counts := [Value(f.payload[..8]), Value(f.payload[8..16]), Value(f.payload[16..24]), Value(f.payload[24..])];
      Ok(c.(summary := Some(counts), sealed := true))
  }

  function Observe(c: Collected, f: Frame): Outcome<Collected> {
    if f.kind == 10 then
      if c.started || Text(f.name) != VERSION || f.payload != [] then Rejected else Ok(c.(started := true))
    else if !c.started || c.sealed then Rejected
    else if f.kind == 11 || f.kind == 12 then ObserveOpcode(c, f)
    else if f.kind == 13 then ObserveRule(c, f)
    else if f.kind == 14 then ObserveTag(c, f)
    else if f.kind == 15 then ObserveSeal(c, f)
    else Rejected
  }

  function TagCount(rules: seq<Rule>): nat {
    if rules == [] then 0 else TagCount(rules[..|rules| - 1]) + |rules[|rules| - 1].tags|
  }

  /** The checks that certify the graph of a successful compilation. */
  predicate Certified(c: Collected) {
    && c.started && c.sealed
    && c.summary == Some([|c.inventory|, |c.references|, |c.completions|, TagCount(c.inventory)])
    && c.completions == seq(|c.inventory|, i => i)
    && forall i :: 0 <= i < |c.references| ==> InOneNamespace(Graph(c.inventory, c.references), c.references[i])
  }

  /* ---------------------------------------------------------------- what acceptance guarantees */

  /** What every prefix of an accepted trace keeps about its inventory. */
  ghost predicate Sound(c: Collected) {
    && (forall i :: 0 <= i < |c.inventory| ==> RuleOk(c.inventory[i], i))
    && (forall i, k :: 0 <= i < k < |c.inventory| ==>
          (c.inventory[i].namespace, c.inventory[i].identifier)
          != (c.inventory[k].namespace, c.inventory[k].identifier))
  }

  ghost predicate RuleOk(r: Rule, i: nat) {
    && r.index == i && r.identifier != "" && r.flags < 4
    && (forall k, m :: 0 <= k < m < |r.tags| ==> r.tags[k] != r.tags[m])
    && (forall k :: 0 <= k < |r.tags| ==> r.tags[k] != "")
  }

  lemma ObserveKeepsSound(c: Collected, f: Frame)
    requires Sound(c) && Observe(c, f).Ok?
    ensures Sound(Observe(c, f).value)
  {
    hide Value;
    if f.kind == 14 && c.started && !c.sealed {
      TagKeepsSound(c, f);
    } else if f.kind == 13 && c.started && !c.sealed {
      RuleKeepsSound(c, f);
    }
  }

  lemma TagKeepsSound(c: Collected, f: Frame)
    requires Sound(c) && ObserveTag(c, f).Ok?
    ensures Sound(ObserveTag(c, f).value)
  {
    hide Value;
    var d := ObserveTag(c, f).value;
    var last := |c.inventory| - 1;
    var tag := Text(f.name);
    assert |tag| == |f.name|;
    assert RuleOk(c.inventory[last], last);
    assert RuleOk(d.inventory[last], last);
    forall i | 0 <= i < |d.inventory| ensures RuleOk(d.inventory[i], i) {
      if i < last {
        assert d.inventory[i] == c.inventory[i];
      }
    }
  }

  lemma RuleKeepsSound(c: Collected, f: Frame)
    requires Sound(c) && ObserveRule(c, f).Ok?
    ensures Sound(ObserveRule(c, f).value)
  {
    hide Value;
    var d := ObserveRule(c, f).value;
    assert |Text(f.payload[12..])| == |f.payload| - 12;
    assert RuleOk(d.inventory[|c.inventory|], |c.inventory|);
  }

  /** A certified graph is dense, has distinct identities and refers only within namespaces. */
  lemma CertifiedIsAccepted(c: Collected)
    requires Sound(c) && Certified(c)
    ensures Accepted(Graph(c.inventory, c.references))
  {
    forall i | 0 <= i < |c.inventory| ensures c.inventory[i].index == i {
      assert RuleOk(c.inventory[i], i);
    }
  }

  /* ---------------------------------------------------------------- source frames */

  datatype Root = Root(path: Bytes, namespace: Bytes, content: Bytes, eof: bool)

  /** `errors` is unknown for a root that a fatal error left unfinished. */
  datatype Source = Source(root: Root, errors: Option<int>)

  datatype Include = Include(path: Bytes, root: Bytes, content: Bytes)

  datatype Sources = Sources(
    active: Option<Root>, finished: seq<Source>, includes: seq<Include>,
    library: Option<Bytes>, compiler: Option<Bytes>)

  const NO_SOURCES: Sources := Sources(None, [], [], None, None)

  /** A four-byte two's complement number. */
  function Signed(b: Bytes): int {
    if Value(b) < 0x8000_0000 then Value(b) else Value(b) - 0x1_0000_0000
  }

  function Finish(t: Sources, errors: Option<int>): Sources
    requires t.active.Some?
  {
    t.(finished := t.finished + [Source(t.active.value, errors)], active := None)
  }

  function HandleRead(t: Sources, f: Frame): Outcome<Sources> {
    if t.active.None? || t.active.value.path != f.name || t.active.value.eof then Rejected
    else
      var root := t.active.value;
      Ok(t.(active := Some(root.(content := root.content + f.payload, eof := f.payload == []))))
  }

  function HandleEnd(t: Sources, f: Frame): Outcome<Sources> {
    if t.active.None? || t.active.value.path != f.name || |f.payload| != 4 then Rejected
    else if Signed(f.payload) == 0 && !t.active.value.eof then Rejected
    else Ok(Finish(t, Some(Signed(f.payload))))
  }

  function HandleStatus(t: Sources, f: Frame, code: int): Outcome<Sources> {
    if |f.payload| != 4 || (t.active.Some? && code == 0) || Signed(f.payload) != code then Rejected
    else Ok((if t.active.Some? then Finish(t, None) else t).(compiler := Some(f.name)))
  }

  function Handle(t: Sources, f: Frame, code: int): Outcome<Sources> {
    match f.kind
    case 1 => if t.active.Some? then Rejected else Ok(t.(active := Some(Root(f.name, f.payload, [], false))))
    case 2 => HandleRead(t, f)
    case 3 => HandleEnd(t, f)
    case 4 =>
      if t.active.None? then Rejected
      else Ok(t.(includes := t.includes + [Include(f.name, t.active.value.path, f.payload)]))
    case 8 =>
      if f.payload != [] || (t.library.Some? && t.library.value != f.name) then Rejected
      else Ok(t.(library := Some(f.name)))
    case 9 => HandleStatus(t, f, code)
    case _ => Rejected
  }

  /* ---------------------------------------------------------------- the whole trace */

  datatype State = State(sources: Sources, graph: Collected)

  predicate IsGraphFrame(f: Frame) {
    10 <= f.kind <= 15
  }

  function Advance(s: State, f: Frame, code: int): Outcome<State> {
    if s.sources.compiler.Some? then Rejected
    else if IsGraphFrame(f) then
      if f.kind >= 13 && s.sources.active.Some? then Rejected
      else
        match Observe(s.graph, f)
        case Rejected => Rejected
        case Ok(graph) => Ok(s.(graph := graph))
    else
      match Handle(s.sources, f, code)
      case Rejected => Rejected
      case Ok(sources) => Ok(s.(sources := sources))
  }

  function Consume(s: State, frames: seq<Frame>, code: int): Outcome<State>
    decreases |frames|
  {
    if frames == [] then Ok(s)
    else
      match Advance(s, frames[0], code)
      case Rejected => Rejected
      case Ok(next) => Consume(next, frames[1..], code)
  }

  datatype Report = Report(
    sources: seq<Source>, includes: seq<Include>, library: Option<Bytes>, compiler: Bytes,
    graph: Graph, completions: seq<nat>, summary: Option<seq<nat>>)

  function ReportFrom(s: State): Report
    requires s.sources.compiler.Some?
  {
    Report(s.sources.finished, s.sources.includes, s.sources.library, s.sources.compiler.value,
           Graph(s.graph.inventory, s.graph.references), s.graph.completions, s.graph.summary)
  }

  predicate Complete(t: Sources, code: int) {
    && t.compiler.Some?
    && (code == 0 ==> t.finished != [] && forall i :: 0 <= i < |t.finished| ==> t.finished[i].errors == Some(0))
  }

  function Parse(data: Bytes, code: int): Outcome<Report> {
    match Events(data)
    case None => Rejected
    case Some(frames) =>
      match Consume(State(NO_SOURCES, NOTHING), frames, code)
      case Rejected => Rejected
      case Ok(s) =>
        if !Complete(s.sources, code) || !s.graph.started || (code == 0 && !Certified(s.graph)) then Rejected
        else Ok(ReportFrom(s))
  }

  /** A root that ended without errors was read to its end. */
  ghost predicate ReadOut(t: Sources) {
    forall i :: 0 <= i < |t.finished| && t.finished[i].errors == Some(0) ==> t.finished[i].root.eof
  }

  lemma AdvanceKeeps(s: State, f: Frame, code: int)
    requires Sound(s.graph) && ReadOut(s.sources) && Advance(s, f, code).Ok?
    ensures var t := Advance(s, f, code).value; Sound(t.graph) && ReadOut(t.sources)
  {
    hide Observe, Sound, Value;
    if IsGraphFrame(f) {
      ObserveKeepsSound(s.graph, f);
    }
  }

  lemma {:induction false} ConsumeKeeps(s: State, frames: seq<Frame>, code: int)
    requires Sound(s.graph) && ReadOut(s.sources) && Consume(s, frames, code).Ok?
    ensures var t := Consume(s, frames, code).value; Sound(t.graph) && ReadOut(t.sources)
    decreases |frames|
  {
    hide Advance, Sound, ReadOut;
    if frames != [] {
      AdvanceKeeps(s, frames[0], code);
      ConsumeKeeps(Advance(s, frames[0], code).value, frames[1..], code);
    }
  }

  /* ---------------------------------------------------------------- the graph and its frames */

  function OfKind(frames: seq<Frame>, kind: byte): seq<Frame> {
    if frames == [] then []
    else
      var last := frames[|frames| - 1];
      OfKind(frames[..|frames| - 1], kind) + if last.kind == kind then [last] else []
  }

  /** The names of the tag frames for one rule. */
  function TagsFor(frames: seq<Frame>, index: nat): seq<string> {
    if frames == [] then []
    else
      var last := frames[|frames| - 1];
      TagsFor(frames[..|frames| - 1], index)
      + if last.kind == 14 && Value(last.payload) == index then [Text(last.name)] else []
  }

  ghost predicate Pairs(f: Frame, source: nat, target: nat) {
    |f.payload| == 16 && Value(f.payload[..8]) == source && Value(f.payload[8..]) == target
  }

  ghost predicate Lists(f: Frame, r: Rule) {
    && |f.payload| > 12 && Value(f.payload[..8]) == r.index && Value(f.payload[8..12]) == r.flags
    && r.namespace == Text(f.name) && r.identifier == Text(f.payload[12..])
  }

  ghost predicate Counts(f: Frame, counts: seq<nat>) {
    && |f.payload| == 32
    && counts == [Value(f.payload[..8]), Value(f.payload[8..16]), Value(f.payload[16..24]), Value(f.payload[24..])]
  }

  ghost predicate ReferencesShown(fs: seq<Frame>, references: seq<Reference>) {
    |fs| == |references| && forall i :: 0 <= i < |fs| ==> Pairs(fs[i], references[i].0, references[i].1)
  }

  ghost predicate CompletionsShown(fs: seq<Frame>, completions: seq<nat>) {
    |fs| == |completions| && forall i :: 0 <= i < |fs| ==> Pairs(fs[i], completions[i], completions[i])
  }

  ghost predicate RulesShown(fs: seq<Frame>, rules: seq<Rule>) {
    |fs| == |rules| && forall i :: 0 <= i < |fs| ==> Lists(fs[i], rules[i])
  }

  ghost predicate TagsShown(frames: seq<Frame>, rules: seq<Rule>) {
    && |OfKind(frames, 14)| == TagCount(rules)
    && (forall i :: 0 <= i < |rules| ==> rules[i].tags == TagsFor(frames, i))
    && (forall i :: i >= |rules| ==> TagsFor(frames, i) == [])
  }

  ghost predicate SealShown(fs: seq<Frame>, sealed: bool, summary: Option<seq<nat>>) {
    if sealed then |fs| == 1 && summary.Some? && Counts(fs[0], summary.value) else fs == []
  }

  /** What was collected is exactly what the frames say. */
  ghost predicate Reflects(frames: seq<Frame>, c: Collected) {
    && |OfKind(frames, 10)| == (if c.started then 1 else 0)
    && ReferencesShown(OfKind(frames, 11), c.references)
    && CompletionsShown(OfKind(frames, 12), c.completions)
    && RulesShown(OfKind(frames, 13), c.inventory)
    && TagsShown(frames, c.inventory)
    && SealShown(OfKind(frames, 15), c.sealed, c.summary)
  }

  lemma OneMoreOfKind(frames: seq<Frame>, f: Frame)
    ensures forall kind :: OfKind(frames + [f], kind) == OfKind(frames, kind) + if f.kind == kind then [f] else []
    ensures forall i :: TagsFor(frames + [f], i)
                     == TagsFor(frames, i) + if f.kind == 14 && Value(f.payload) == i then [Text(f.name)] else []
  {
    hide Value, Text;
    assert (frames + [f])[..|frames|] == frames;
  }

  /** A frame that carries no tag leaves the tags alone. */
  lemma TagsStay(frames: seq<Frame>, f: Frame, rules: seq<Rule>)
    requires f.kind != 14 && TagsShown(frames, rules)
    ensures TagsShown(frames + [f], rules)
  {
    hide Value, Text, OfKind, TagsFor, TagCount;
    OneMoreOfKind(frames, f);
    assert OfKind(frames, 14) + [] == OfKind(frames, 14);
    assert forall i: nat :: TagsFor(frames, i) + [] == TagsFor(frames, i);
  }

  lemma OtherFrameReflects(frames: seq<Frame>, f: Frame, c: Collected)
    requires !(10 <= f.kind <= 15) && Reflects(frames, c)
    ensures Reflects(frames + [f], c)
  {
    hide OfKind, ReferencesShown, CompletionsShown, RulesShown, TagsShown, SealShown, TagsFor;
    OneMoreOfKind(frames, f);
    TagsStay(frames, f, c.inventory);
    assert forall kind: byte :: OfKind(frames, kind) + [] == OfKind(frames, kind);
  }

  lemma OpcodeReflects(frames: seq<Frame>, f: Frame, c: Collected)
    requires f.kind == 10 || f.kind == 11 || f.kind == 12 || f.kind == 15
    requires Reflects(frames, c) && Observe(c, f).Ok?
    ensures Reflects(frames + [f], Observe(c, f).value)
  {
    hide OfKind, RulesShown, TagsShown, TagsFor, Value;
    OneMoreOfKind(frames, f);
    TagsStay(frames, f, c.inventory);
    assert forall kind: byte :: OfKind(frames, kind) + [] == OfKind(frames, kind);
  }

  lemma RuleReflects(frames: seq<Frame>, f: Frame, c: Collected)
    requires f.kind == 13 && Reflects(frames, c) && ObserveRule(c, f).Ok?
    ensures Reflects(frames + [f], ObserveRule(c, f).value)
  {
    hide OfKind, ReferencesShown, CompletionsShown, SealShown, TagsFor, Value, Known;
    OneMoreOfKind(frames, f);
    TagsStay(frames, f, c.inventory);
    assert forall kind: byte :: OfKind(frames, kind) + [] == OfKind(frames, kind);
    var rules := ObserveRule(c, f).value.inventory;
    assert rules[..|c.inventory|] == c.inventory;
  }

  lemma TagReflects(frames: seq<Frame>, f: Frame, c: Collected)
    requires f.kind == 14 && Sound(c) && Reflects(frames, c) && ObserveTag(c, f).Ok?
    ensures Reflects(frames + [f], ObserveTag(c, f).value)
  {
    hide OfKind, ReferencesShown, CompletionsShown, SealShown, TagsFor, Value, Text;
    OneMoreOfKind(frames, f);
    assert forall kind: byte :: OfKind(frames, kind) + [] == OfKind(frames, kind);
    var last, d := |c.inventory| - 1, ObserveTag(c, f).value;
    assert RuleOk(c.inventory[last], last);
    assert d.inventory[..last] == c.inventory[..last];
    forall i: nat ensures i != last ==> TagsFor(frames + [f], i) == TagsFor(frames, i) {
      assert TagsFor(frames, i) + [] == TagsFor(frames, i);
    }
  }

  lemma AdvanceReflects(frames: seq<Frame>, s: State, f: Frame, code: int)
    requires Sound(s.graph) && Reflects(frames, s.graph) && Advance(s, f, code).Ok?
    ensures Reflects(frames + [f], Advance(s, f, code).value.graph)
  {
    hide Reflects, Sound, ObserveOpcode, ObserveRule, ObserveTag, ObserveSeal;
    if !IsGraphFrame(f) {
      OtherFrameReflects(frames, f, s.graph);
    } else if f.kind == 13 {
      RuleReflects(frames, f, s.graph);
    } else if f.kind == 14 {
      TagReflects(frames, f, s.graph);
    } else {
      OpcodeReflects(frames, f, s.graph);
    }
  }

  lemma {:induction false} ConsumeReflects(seen: seq<Frame>, s: State, frames: seq<Frame>, code: int)
    requires Sound(s.graph) && ReadOut(s.sources) && Reflects(seen, s.graph) && Consume(s, frames, code).Ok?
    ensures Reflects(seen + frames, Consume(s, frames, code).value.graph)
    decreases |frames|
  {
    hide Advance, Sound, ReadOut, Reflects;
    if frames == [] {
      assert seen + frames == seen;
    } else {
      AdvanceKeeps(s, frames[0], code);
      AdvanceReflects(seen, s, frames[0], code);
      ConsumeReflects(seen + [frames[0]], Advance(s, frames[0], code).value, frames[1..], code);
      assert seen + [frames[0]] + frames[1..] == seen + frames;
    }
  }

  /** The graph of a report is what the frames say, completely: one completion a rule, in order, and one seal
      whose counts are the numbers of frames of each kind. */
  ghost predicate Exact(frames: seq<Frame>, g: Graph) {
    && |OfKind(frames, 10)| == 1
    && ReferencesShown(OfKind(frames, 11), g.references)
    && CompletionsShown(OfKind(frames, 12), seq(|g.rules|, i => i))
    && RulesShown(OfKind(frames, 13), g.rules)
    && TagsShown(frames, g.rules)
    && |OfKind(frames, 15)| == 1
    && Counts(OfKind(frames, 15)[0],
              [|OfKind(frames, 13)|, |OfKind(frames, 11)|, |OfKind(frames, 12)|, |OfKind(frames, 14)|])
  }

  lemma CertifiedIsExact(frames: seq<Frame>, c: Collected)
    requires Certified(c) && Reflects(frames, c)
    ensures Exact(frames, Graph(c.inventory, c.references))
  {
    hide OfKind, TagsFor, TagCount, Pairs, Lists, Counts;
  }

  /** Any trace accepted with exit status 0 certifies its graph, which is exactly what its frames say, and every
      root in it was read to its end without errors. */
  lemma AcceptedTraceIsSound(data: Bytes)
    requires Parse(data, 0).Ok?
    ensures var r := Parse(data, 0).value;
            && Accepted(r.graph) && (forall i :: 0 <= i < |r.graph.rules| ==> RuleOk(r.graph.rules[i], i))
            && Exact(Events(data).value, r.graph)
            && r.sources != []
            && forall i :: 0 <= i < |r.sources| ==> r.sources[i].errors == Some(0) && r.sources[i].root.eof
  {
    hide Consume, Events, Exact, Reflects;
    var frames, start := Events(data).value, State(NO_SOURCES, NOTHING);
    ConsumeKeeps(start, frames, 0);
    var s := Consume(start, frames, 0).value;
    CertifiedIsAccepted(s.graph);
    NothingReflects();
    ConsumeReflects([], start, frames, 0);
    assert [] + frames == frames;
    CertifiedIsExact(frames, s.graph);
  }

  lemma NothingReflects()
    ensures Reflects([], NOTHING)
  {
  }
}
