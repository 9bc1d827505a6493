/** The trace's writer and its reader as they run. */
module RuleCapture {
  import opened Basics
  import opened RuleFrames
  import opened RuleGraph
  import opened RuleTrace
  import opened RuleRoundTrip

  /* ---------------------------------------------------------------- writer */

  /** The low `width` bytes of `value`, least significant first, one shift at a time. */
  method PutLittle(value: nat, width: nat) returns (b: Bytes)
    ensures b == Little(value, width)
  {
    b := [];
    var shifted := value;
    for i := 0 to width
      invariant b + Little(shifted, width - i) == Little(value, width)
    {
      assert b + Little(shifted, width - i) == b + [shifted % 256] + Little(shifted / 256, width - i - 1);
      b := b + [shifted % 256];
      shifted := shifted / 256;
    }
  }

  function CountKind(frames: seq<Frame>, kind: byte): nat {
    if frames == [] then 0
    else CountKind(frames[..|frames| - 1], kind) + if frames[|frames| - 1].kind == kind then 1 else 0
  }

  /** The writer linked into the compiler: a log and three counters. */
  class Producer {
    const enabled: bool
    var log: Bytes
    var edges: nat
    var completions: nat
    var tags: nat
    var active: bool
    /** The frames written so far, and the observations made since the graph began. */
    ghost var frames: seq<Frame>
    ghost var since: seq<Frame>

    /** What an observation writes: nothing unless a log was asked for. */
    function Written(f: Frame): seq<Frame> {
      if enabled then [f] else []
    }

    /** The log is exactly its frames, and the counters count the observations of the graph. */
    ghost predicate Valid()
      reads this
    {
      && log == Log(frames)
      && edges == CountKind(since, 11) && completions == CountKind(since, 12) && tags == CountKind(since, 14)
      && (forall i :: 0 <= i < |since| ==> 10 < since[i].kind)
    }

    constructor (enabled: bool)
      ensures Valid() && frames == [] && since == [] && !active && this.enabled == enabled
    {
      this.enabled, active, log, frames, since := enabled, false, [], [], [];
      edges, completions, tags := 0, 0, 0;
    }

    method InputCapture(kind: byte, name: Bytes, payload: Bytes)
      requires log == Log(frames)
      modifies this`log, this`frames
      ensures log == Log(frames) && frames == old(frames) + Written(Frame(kind, name, payload))
    {
      hide Log, FrameBytes, Little;
      if enabled {
        var nameSize := PutLittle(|name|, 8);
        var size := PutLittle(|payload|, 8);
        ghost var f := Frame(kind, name, payload);
        FrameWrites(log, f);
        LogAppends(frames, f);
        log := log + ([kind] + nameSize + size);
        log := log + name;
        log := log + payload;
        frames := frames + [f];
      } else {
        assert frames + [] == frames;
      }
    }

    method RuleBegin()
      requires Valid()
      modifies this
      ensures Valid() && active && frames == old(frames) + Written(VersionFrame()) && since == []
    {
      hide Log, VersionFrame;
      VersionFrameIs();
      active := true;
      edges, completions, tags := 0, 0, 0;
      InputCapture(10, VersionFrame().name, []);
      since := [];
    }

    /** Nothing is written before the graph begins. */
    method RuleCapture(op: Op)
      requires Valid()
      modifies this
      ensures Valid() && active == old(active)
      ensures active ==> frames == old(frames) + Written(OpFrame(op)) && since == old(since) + [OpFrame(op)]
      ensures !active ==> frames == old(frames) && since == old(since)
    {
      hide Log, Little, CountKind;
      if !active {
        return;
      }
      var kind, source, target := 12, [], [];
      if op.Refer? {
        kind := 11;
        source := PutLittle(op.source, 8);
        target := PutLittle(op.target, 8);
        edges := edges + 1;
      } else {
        source := PutLittle(op.rule, 8);
        target := source;
        completions := completions + 1;
      }
      InputCapture(kind, [], source + target);
      ghost var f := Frame(kind, [], source + target);
      since := since + [f];
      CountOneMore(old(since), f);
    }

    method RuleInventory(r: Rule)
      requires Valid() && Writable(r)
      modifies this
      ensures Valid() && active == old(active)
      ensures frames == old(frames) + Written(RuleFrame(r)) && since == old(since) + [RuleFrame(r)]
    {
      hide Log, Little, Writable, CountKind;
      WritableNames(r);
      var index := PutLittle(r.index, 8);
      var flags := PutLittle(r.flags, 4);
      ghost var f := Frame(13, Raw(r.namespace), index + flags + Raw(r.identifier));
      InputCapture(13, Raw(r.namespace), index + flags + Raw(r.identifier));
      since := since + [f];
      CountOneMore(old(since), f);
    }

    method RuleTag(index: nat, tag: string)
      requires Valid() && IsText(tag)
      modifies this
      ensures Valid() && active == old(active)
      ensures frames == old(frames) + Written(TagFrame(index, tag)) && since == old(since) + [TagFrame(index, tag)]
    {
      hide Log, Little;
      tags := tags + 1;
      var bytes := PutLittle(index, 8);
      InputCapture(14, Raw(tag), bytes);
      since := since + [TagFrame(index, tag)];
      CountOneMore(old(since), TagFrame(index, tag));
    }

    /** The seal states how many frames of each kind the graph has. */
    method RuleSummary(count: nat)
      requires Valid()
      modifies this
      ensures Valid() && active == old(active)
      ensures var seal := SealFrame(count, CountKind(old(since), 11), CountKind(old(since), 12),
                                    CountKind(old(since), 14));
              frames == old(frames) + Written(seal) && since == old(since) + [seal]
    {
      hide Log, Little;
      var a := PutLittle(count, 8);
      var b := PutLittle(edges, 8);
      var c := PutLittle(completions, 8);
      var d := PutLittle(tags, 8);
      InputCapture(15, [], a + b + c + d);
      ghost var seal := SealFrame(count, edges, completions, tags);
      since := since + [seal];
      CountOneMore(old(since), seal);
    }
  }

  lemma FrameWrites(log: Bytes, f: Frame)
    ensures log + ([f.kind] + Little(|f.name|, 8) + Little(|f.payload|, 8)) + f.name + f.payload == log + FrameBytes(f)
  {
    hide Little;
  }

  lemma WritableNames(r: Rule)
    requires Writable(r)
    ensures IsText(r.namespace) && IsText(r.identifier)
  {
  }

  lemma CountOneMore(frames: seq<Frame>, f: Frame)
    ensures forall kind :: CountKind(frames + [f], kind) == CountKind(frames, kind) + if f.kind == kind then 1 else 0
  {
    assert (frames + [f])[..|frames|] == frames;
  }

  /* ---------------------------------------------------------------- reader */

  /** The reader of graph frames. */
  class Collector {
    var started: bool
    var sealed: bool
    var references: seq<Reference>
    var completions: seq<nat>
    var inventory: seq<Rule>
    var summary: Option<seq<nat>>
    var identities: set<(string, string)>

    function View(): Collected
      reads this
    {
      Collected(started, sealed, references, completions, inventory, summary)
    }

    /** The identity set mirrors the inventory. */
    ghost predicate Valid()
      reads this
    {
      forall n, i :: (n, i) in identities <==> Known(inventory, n, i)
    }

    constructor ()
      ensures Valid() && View() == NOTHING
    {
      started, sealed, references, completions, inventory, summary, identities := false, false, [], [], [], None, {};
    }

    method TakeOpcode(f: Frame) returns (ok: bool)
      requires Valid()
      modifies this`references, this`completions
      ensures Valid() && ObserveOpcode(old(View()), f) == if ok then Ok(View()) else Rejected
      ensures !ok ==> View() == old(View())
    {
      hide Value;
      if f.name != [] || |f.payload| != 16 || inventory != [] {
        return false;
      }
      var source, target := Value(f.payload[..8]), Value(f.payload[8..]);
      if f.kind == 11 {
        references := references + [(source, target)];
      } else {
        if source != target {
          return false;
        }
        completions := completions + [source];
      }
      return true;
    }

    method TakeRule(f: Frame) returns (ok: bool)
      requires Valid()
      modifies this`inventory, this`identities
      ensures Valid() && ObserveRule(old(View()), f) == if ok then Ok(View()) else Rejected
      ensures !ok ==> View() == old(View())
    {
      hide Value;
      if |f.payload| <= 12 || 0 in f.name {
        return false;
      }
      var index, flags := Value(f.payload[..8]), Value(f.payload[8..12]);
      var name, id := Text(f.name), Text(f.payload[12..]);
      if index != |inventory| || flags >= 4 || 0 in f.payload[12..] || (name, id) in identities {
        return false;
      }
      identities := identities + {(name, id)};
      ghost var before := inventory;
      inventory := inventory + [Rule(index, name, id, flags, [])];
      KnownGrows(before, inventory[|before|]);
      return true;
    }

    method TakeTag(f: Frame) returns (ok: bool)
      requires Valid()
      modifies this`inventory
      ensures Valid() && ObserveTag(old(View()), f) == if ok then Ok(View()) else Rejected
      ensures !ok ==> View() == old(View())
    {
      hide Value;
      if |f.payload| != 8 || f.name == [] || 0 in f.name || inventory == [] {
        return false;
      }
      var last := |inventory| - 1;
      if Value(f.payload) != inventory[last].index || Text(f.name) in inventory[last].tags {
        return false;
      }
      ghost var before := inventory;
      inventory := inventory[last := inventory[last].(tags := inventory[last].tags + [Text(f.name)])];
      TagsKeepKnown(before, Text(f.name));
      return true;
    }

    /** One graph frame; a rejected frame changes nothing. */
    method Take(f: Frame) returns (ok: bool)
      requires Valid()
      modifies this
      ensures Valid() && Observe(old(View()), f) == if ok then Ok(View()) else Rejected
      ensures !ok ==> View() == old(View())
    {
      hide Value, Text, ObserveOpcode, ObserveRule, ObserveTag;
      if f.kind == 10 {
        if started || Text(f.name) != VERSION || f.payload != [] {
          return false;
        }
        started := true;
        return true;
      }
      if !started || sealed {
        return false;
      }
      if f.kind == 11 || f.kind == 12 {
        ok := TakeOpcode(f);
      } else if f.kind == 13 {
        ok := TakeRule(f);
      } else if f.kind == 14 {
        ok := TakeTag(f);
      } else if f.kind == 15 {
        if f.name != [] || |f.payload| != 32 {
          return false;
        }
        summary := Some([Value(f.payload[..8]), Value(f.payload[8..16]), Value(f.payload[16..24]),
                         Value(f.payload[24..])]);
        sealed := true;
        return true;
      } else {
        return false;
      }
    }
  }

  lemma KnownGrows(inventory: seq<Rule>, r: Rule)
    ensures forall n, i :: Known(inventory + [r], n, i) <==>
            Known(inventory, n, i) || (n == r.namespace && i == r.identifier)
  {
    var all := inventory + [r];
    forall n, i ensures Known(all, n, i) <==> Known(inventory, n, i) || (n == r.namespace && i == r.identifier) {
      if Known(inventory, n, i) {
        var k :| 0 <= k < |inventory| && inventory[k].namespace == n && inventory[k].identifier == i;
        assert all[k].namespace == n && all[k].identifier == i;
      }
      assert all[|inventory|] == r;
    }
  }

  lemma TagsKeepKnown(inventory: seq<Rule>, tag: string)
    requires inventory != []
    ensures forall n, i :: Known(Tagged(inventory, tag), n, i) <==> Known(inventory, n, i)
  {
    var after := Tagged(inventory, tag);
    forall n, i ensures Known(after, n, i) <==> Known(inventory, n, i) {
      if Known(inventory, n, i) {
        var k :| 0 <= k < |inventory| && inventory[k].namespace == n && inventory[k].identifier == i;
        assert after[k].namespace == n && after[k].identifier == i;
      }
    }
  }

  /** What is still to come: the outcome of parsing and consuming `data` from `s`. */
  function Continued(s: State, data: Bytes, code: int): Outcome<State> {
    match Events(data)
    case None => Rejected
    case Some(frames) => Consume(s, frames, code)
  }

  lemma ContinueOne(s: State, data: Bytes, code: int)
    requires data != []
    ensures FirstFrame(data).None? ==> Continued(s, data, code) == Rejected
    ensures FirstFrame(data).Some? ==>
              var f := FirstFrame(data).value;
              && FrameSize(f) <= |data|
              && Continued(s, data, code) == match Advance(s, f, code)
                                             case Rejected => Rejected
                                             case Ok(next) => Continued(next, data[FrameSize(f)..], code)
  {
    hide Advance, FirstFrame;
    FirstFrameFits(data);
    if FirstFrame(data).Some? && Events(data).Some? {
      var f := FirstFrame(data).value;
      assert Events(data).value[1..] == Events(data[FrameSize(f)..]).value;
    }
  }

  /** Reads the frame at `offset`, as the source's framing does. */
  method ReadFrame(data: Bytes, offset: nat) returns (f: Option<Frame>)
    requires offset < |data|
    ensures f == FirstFrame(data[offset..])
  {
    if |data| - offset < HEADER {
      return None;
    }
    var at := offset + HEADER;
    assert data[offset + 1..offset + 9] == data[offset..][1..9] &&
           data[offset + 9..offset + 17] == data[offset..][9..17];
    var nameSize, size := Value(data[offset + 1..offset + 9]), Value(data[offset + 9..offset + 17]);
    if nameSize + size > |data| - at {
      return None;
    }
    assert data[at..at + nameSize] == data[offset..][17..17 + nameSize];
    assert data[at + nameSize..at + nameSize + size] == data[offset..][17 + nameSize..17 + nameSize + size];
    return Some(Frame(data[offset], data[at..at + nameSize], data[at + nameSize..at + nameSize + size]));
  }

  /** Reads a whole trace. */
  method ParseTrace(data: Bytes, code: int) returns (r: Outcome<Report>)
    ensures r == Parse(data, code)
  {
    hide Advance, Events, Consume, FirstFrame, FrameSize;
    var graph := new Collector();
    var sources := NO_SOURCES;
    var offset := 0;
    while offset < |data|
      invariant 0 <= offset <= |data| && graph.Valid() && fresh(graph)
      invariant Continued(State(sources, graph.View()), data[offset..], code)
                == Continued(State(NO_SOURCES, NOTHING), data, code)
      decreases |data| - offset
    {
      ghost var s := State(sources, graph.View());
      ContinueOne(s, data[offset..], code);
      var f := ReadFrame(data, offset);
      if f.None? || sources.compiler.Some? {
        AdvanceCases(s, f, code);
        return Rejected;
      }
      AdvanceCases(s, f, code);
      FrameTakesSpace(f.value);
      if IsGraphFrame(f.value) {
        if f.value.kind >= 13 && sources.active.Some? {
          return Rejected;
        }
        var ok := graph.Take(f.value);
        if !ok {
          return Rejected;
        }
      } else {
        var next := Handle(sources, f.value, code);
        if next.Rejected? {
          return Rejected;
        }
        sources := next.value;
      }
      assert data[offset..][FrameSize(f.value)..] == data[offset + FrameSize(f.value)..];
      offset := offset + FrameSize(f.value);
    }
    NothingLeft(State(sources, graph.View()), code);
    assert data[offset..] == [];
    if !Complete(sources, code) || !graph.started || (code == 0 && !Certified(graph.View())) {
      return Rejected;
    }
    return Ok(ReportFrom(State(sources, graph.View())));
  }

  lemma NothingLeft(s: State, code: int)
    ensures Continued(s, [], code) == Ok(s)
  {
  }

  lemma FrameTakesSpace(f: Frame)
    ensures FrameSize(f) > 0
  {
  }

  lemma AdvanceCases(s: State, frame: Option<Frame>, code: int)
    ensures frame.Some? ==>
      var f := frame.value;
      && (s.sources.compiler.Some? ==> Advance(s, f, code) == Rejected)
      && (s.sources.compiler.None? && IsGraphFrame(f) ==>
            Advance(s, f, code) ==
            if f.kind >= 13 && s.sources.active.Some? then Rejected
            else match Observe(s.graph, f)
                 case Rejected => Rejected
                 case Ok(g) => Ok(State(s.sources, g)))
      && (s.sources.compiler.None? && !IsGraphFrame(f) ==>
            Advance(s, f, code) == match Handle(s.sources, f, code)
                                   case Rejected => Rejected
                                   case Ok(t) => Ok(State(t, s.graph)))
  {
    hide Observe, Handle;
  }
}
