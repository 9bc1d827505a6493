/** The decode walk and its duplicate filter as they run. */
module DecodeRun {
  import opened Basics
  import opened DecodeWalk
  import opened DecodeMarkers

  /** A set of blobs found by hash.  The hash only picks a slot: blobs that collide are both kept. */
  class BlobSet {
    const hash: Blob -> nat
    var first: map<nat, Blob>
    var overflow: seq<(nat, Blob)>
    ghost var Contents: set<Blob>

    ghost predicate Valid()
      reads this
    {
      && (forall h :: h in first ==> hash(first[h]) == h && first[h] in Contents)
      && (forall i :: 0 <= i < |overflow| ==>
            hash(overflow[i].1) == overflow[i].0 && overflow[i].0 in first && overflow[i].1 in Contents)
      && (forall b :: b in Contents ==>
            hash(b) in first && (first[hash(b)] == b || exists i :: 0 <= i < |overflow| && overflow[i] == (hash(b), b)))
    }

    constructor (hash: Blob -> nat)
      ensures Valid() && Contents == {} && this.hash == hash
    {
      this.hash := hash;
      first, overflow, Contents := map[], [], {};
    }

    method Has(h: nat, b: Blob) returns (found: bool)
      requires Valid() && h == hash(b)
      ensures found <==> b in Contents
    {
      if h !in first {
        return false;
      }
      if first[h] == b {
        return true;
      }
      for i := 0 to |overflow|
        invariant forall k :: 0 <= k < i ==> overflow[k] != (h, b)
      {
        if overflow[i].0 == h && overflow[i].1 == b {
          return true;
        }
      }
      return false;
    }

    method Add(h: nat, b: Blob)
      requires Valid() && h == hash(b) && b !in Contents
      modifies this
      ensures Valid() && Contents == old(Contents) + {b}
    {
      ghost var n := |overflow|;
      if h in first {
        overflow := overflow + [(h, b)];
        assert overflow[n] == (hash(b), b);
      } else {
        first := first[h := b];
      }
      Contents := Contents + {b};
      forall c | c in old(Contents)
        ensures hash(c) in first &&
                (first[hash(c)] == c || exists i :: 0 <= i < |overflow| && overflow[i] == (hash(c), c))
      {
        if old(first[hash(c)]) != c {
          var i :| 0 <= i < n && old(overflow)[i] == (hash(c), c);
          assert overflow[i] == (hash(c), c);
        }
      }
    }
  }

  /** What the walk has spent on one source, updated in place. */
  class SourceState {
    var blobs: nat
    var cum: nat
    var iters: nat
    var maxLayer: nat
    const seen: BlobSet

    ghost function View(): Tree
      reads this, seen
    {
      Tree(blobs, cum, iters, maxLayer, seen.Contents)
    }

    constructor (hash: Blob -> nat)
      ensures View() == FRESH && seen.Valid() && fresh(seen)
    {
      blobs, cum, iters, maxLayer := 0, 0, 0, 0;
      seen := new BlobSet(hash);
    }

    /** Takes one decoded blob, unless it is too short, already seen or over a budget; only a budget stops the
        decoders. */
    method Emit(env: Decoders, streams: seq<Blob>, found: Blob, layer: nat) returns (taken: seq<Blob>, more: bool)
      requires seen.Valid()
      modifies this, seen
      ensures seen.Valid() && iters == old(iters)
      ensures var e := DecodeWalk.Emit(env, Emission(old(View()), streams, [], true), found, layer);
              e == Emission(View(), streams + taken, taken, more)
    {
      hide BlobSet.Valid;
      EmitCases(env, View(), streams, found, layer);
      if |found| < MIN_DECODED {
        return [], true;
      }
      hide DecodeWalk.Emit;
      var b := found;
      if |b| > MAX_BLOB {
        b := b[..MAX_BLOB];
      }
      var h := seen.hash(b);
      var known := seen.Has(h, b);
      if known {
        return [], true;
      }
      if blobs >= MAX_BLOBS || |streams| >= env.maxStreams || cum + |b| > MAX_DECODED || !env.admits(streams, b) {
        return [], false;
      }
      seen.Add(h, b);
      blobs, cum := blobs + 1, cum + |b|;
      if layer > maxLayer {
        maxLayer := layer;
      }
      return [b], true;
    }
  }

  lemma EmitCases(env: Decoders, t: Tree, streams: seq<Blob>, found: Blob, layer: nat)
    ensures streams + [] == streams
    ensures var e := Emit(env, Emission(t, streams, [], true), found, layer);
            var b := Clamped(found, MAX_BLOB);
            if |found| < MIN_DECODED || b in t.seen then e == Emission(t, streams, [], true)
            else if || t.blobs >= MAX_BLOBS || |streams| >= env.maxStreams || t.cum + |b| > MAX_DECODED
                    || !env.admits(streams, b)
            then e == Emission(t, streams, [], false)
            else e == Emission(Tree(t.blobs + 1, t.cum + |b|, t.iters,
                                    if layer > t.maxLayer then layer else t.maxLayer, t.seen + {b}),
                               streams + [b], [b], true)
  {
    assert [] + [Clamped(found, MAX_BLOB)] == [Clamped(found, MAX_BLOB)];
  }

  lemma EmitShifts(env: Decoders, t: Tree, streams: seq<Blob>, children: seq<Blob>, found: Blob, layer: nat)
    ensures var e := Emit(env, Emission(t, streams, [], true), found, layer);
            Emit(env, Emission(t, streams, children, true), found, layer) == e.(children := children + e.children)
  {
    assert children + [] == children;
  }

  /** Runs the decoder chain over one item; the first blob that a budget turns away stops it. */
  method EmitFound(env: Decoders, st: SourceState, before: seq<Blob>, found: seq<Blob>, layer: nat)
    returns (streams: seq<Blob>, children: seq<Blob>, more: bool)
    requires st.seen.Valid()
    modifies st, st.seen
    ensures st.seen.Valid()
    ensures Emission(st.View(), streams, children, more)
            == EmitAll(env, Emission(old(st.View()), before, [], true), found, layer)
  {
    hide Emit;
    streams, children, more := before, [], true;
    ghost var start := Emission(st.View(), before, [], true);
    var i := 0;
    while i < |found| && more
      invariant 0 <= i <= |found| && st.seen.Valid()
      invariant Emission(st.View(), streams, children, more) == EmitAll(env, start, found[..i], layer)
      invariant !more ==> EmitAll(env, start, found[..i], layer) == EmitAll(env, start, found, layer)
    {
      assert found[..i + 1][..i] == found[..i];
      EmitShifts(env, st.View(), streams, children, found[i], layer);
      var taken;
      taken, more := st.Emit(env, streams, found[i], layer);
      streams, children := streams + taken, children + taken;
      i := i + 1;
      if !more {
        StoppedStays(env, start, found, layer, i);
      }
    }
    assert i == |found| ==> found[..i] == found;
  }

  lemma {:induction false} StoppedStays(env: Decoders, e: Emission, found: seq<Blob>, layer: nat, i: nat)
    requires i <= |found| && !EmitAll(env, e, found[..i], layer).more
    ensures EmitAll(env, e, found, layer) == EmitAll(env, e, found[..i], layer)
    decreases |found|
  {
    if i == |found| {
      assert found[..i] == found;
    } else {
      assert found[..|found| - 1][..i] == found[..i];
      StoppedStays(env, e, found[..|found| - 1], layer, i);
    }
  }

  /* ---------------------------------------------------------------- the walk */

  ghost predicate Separate(states: seq<SourceState>) {
    && (forall i, k :: 0 <= i < k < |states| ==> states[i] != states[k] && states[i].seen != states[k].seen)
    && (forall i, k :: 0 <= i < |states| && 0 <= k < |states| ==> states[i] as object != states[k].seen)
  }

  ghost predicate AllValid(states: seq<SourceState>)
    reads set i | 0 <= i < |states| :: states[i].seen
  {
    forall i :: 0 <= i < |states| ==> states[i].seen.Valid()
  }

  ghost function Views(states: seq<SourceState>): (v: seq<Tree>)
    reads states, set i | 0 <= i < |states| :: states[i].seen
    ensures |v| == |states| && forall i :: 0 <= i < |states| ==> v[i] == states[i].View()
  {
    if states == [] then [] else Views(states[..|states| - 1]) + [states[|states| - 1].View()]
  }

  /** Decodes one item of source `k`. */
  method DecodeItem(env: Decoders, states: seq<SourceState>, k: nat, before: seq<Blob>, data: Blob, layer: nat)
    returns (streams: seq<Blob>, children: seq<Blob>)
    requires k < |states| && Separate(states) && AllValid(states)
    modifies states, set i | 0 <= i < |states| :: states[i].seen
    ensures AllValid(states)
    ensures var t := old(states[k].View());
            var e := EmitAll(env, Emission(t.(iters := t.iters + 1), before, [], true), env.candidates(data), layer);
            streams == e.streams && children == e.children && Views(states) == old(Views(states))[k := e.tree]
  {
    hide EmitAll, BlobSet.Valid;
    ghost var trees := Views(states);
    var st := states[k];
    st.iters := st.iters + 1;
    var more;
    streams, children, more := EmitFound(env, st, before, env.candidates(data), layer);
    forall i | 0 <= i < |states| ensures Views(states)[i] == trees[k := st.View()][i] {
      if i != k {
        assert states[i].View() == old(states[i].View());
      }
    }
    assert Views(states) == trees[k := st.View()];
  }

  /** A turn, by whether its item is decoded. */
  lemma TurnIs(env: Decoders, w: Walk, depth: nat, iterations: nat)
    requires w.queue != [] && w.queue[0].src < |w.trees|
    ensures var cur, t := w.queue[0], w.trees[w.queue[0].src];
            var e := EmitAll(env, Emission(t.(iters := t.iters + 1), w.streams, [], true), env.candidates(cur.data),
                             cur.depth + 1);
            Turn(env, w, depth, iterations) ==
            if Skipped(env, w, iterations) then Walk(w.queue[1..], w.trees, w.streams)
            else Walk(if cur.depth + 1 < depth
                      then w.queue[1..] + Children(env, e.children, cur.depth + 1, cur.src) else w.queue[1..],
                      w.trees[cur.src := e.tree], e.streams)
  {
    hide EmitAll, Children;
    assert w.queue[1..] + [] == w.queue[1..];
  }

  /** Takes the first item off the queue, decodes it and queues what is worth another look. */
  method ProcessItem(env: Decoders, items: seq<Item>, states: seq<SourceState>, before: seq<Blob>, depth: nat,
                     iterations: nat)
    returns (queue: seq<Item>, streams: seq<Blob>)
    requires items != [] && items[0].src < |states| && Separate(states) && AllValid(states)
    modifies states, set i | 0 <= i < |states| :: states[i].seen
    ensures AllValid(states)
    ensures Walk(queue, Views(states), streams) == Turn(env, Walk(items, old(Views(states)), before), depth, iterations)
  {
    hide EmitAll, BlobSet.Valid, Children, AllValid, Separate, Turn, Views;
    ghost var w := Walk(items, Views(states), before);
    TurnIs(env, w, depth, iterations);
    var cur := items[0];
    queue, streams := items[1..], before;
    var st := states[cur.src];
    if st.iters >= iterations || st.blobs >= MAX_BLOBS || st.cum >= MAX_DECODED {
      return;
    }
    if cur.depth > 0 && !env.mostlyText(cur.data) {
      return;
    }
    if cur.depth > 0 && !env.mayBeEncoded(cur.data) {
      return;
    }
    var children;
    streams, children := DecodeItem(env, states, cur.src, before, cur.data, cur.depth + 1);
    if cur.depth + 1 < depth {
      var next := QueueChildren(env, children, cur.depth + 1, cur.src);
      queue := queue + next;
    }
  }

  /** The children worth another look. */
  method QueueChildren(env: Decoders, children: seq<Blob>, depth: nat, src: nat) returns (next: seq<Item>)
    ensures next == Children(env, children, depth, src)
  {
    next := [];
    for i := 0 to |children|
      invariant next == Children(env, children[..i], depth, src)
    {
      assert children[..i + 1][..i] == children[..i];
      if env.looksEncoded(children[i]) {
        next := next + [Item(children[i], depth, src)];
      }
    }
    assert children[..|children|] == children;
  }

  /** A state and an item for each source. */
  method SeedSources(hash: Blob -> nat, sources: seq<Blob>) returns (states: seq<SourceState>, queue: seq<Item>)
    ensures |states| == |sources| && Separate(states) && AllValid(states)
    ensures forall i :: 0 <= i < |states| ==> fresh(states[i]) && fresh(states[i].seen) && states[i].View() == FRESH
    ensures |queue| == |sources| && forall i :: 0 <= i < |queue| ==> queue[i] == Item(sources[i], 0, i)
  {
    hide BlobSet.Valid;
    states, queue := [], [];
    for i := 0 to |sources|
      invariant |states| == i && Separate(states) && AllValid(states)
      invariant forall k :: 0 <= k < i ==> fresh(states[k]) && fresh(states[k].seen) && states[k].View() == FRESH
      invariant |queue| == i && forall k :: 0 <= k < i ==> queue[k] == Item(sources[k], 0, k)
    {
      var st := new SourceState(hash);
      states := states + [st];
      queue := queue + [Item(sources[i], 0, i)];
    }
  }

  /** One marker a source that reached the deep layer, in order, while there is room. */
  method MarkDeepTrees(env: Decoders, states: seq<SourceState>, before: seq<Blob>) returns (streams: seq<Blob>)
    ensures streams == MarkedUpTo(env, Views(states), before, |states|)
  {
    hide Marker;
    ghost var trees := Views(states);
    streams := before;
    var i := 0;
    while i < |states| && |streams| < env.maxStreams
      invariant 0 <= i <= |states| && streams == MarkedUpTo(env, trees, before, i)
    {
      var st := states[i];
      if st.maxLayer >= DEEP_LAYER && env.admits(streams, Marker(st.maxLayer)) {
        streams := streams + [Marker(st.maxLayer)];
      }
      i := i + 1;
    }
    FullStaysFull(env, trees, before, i);
  }

  lemma {:induction false} FullStaysFull(env: Decoders, trees: seq<Tree>, before: seq<Blob>, i: nat)
    requires i <= |trees| && (i < |trees| ==> |MarkedUpTo(env, trees, before, i)| >= env.maxStreams)
    ensures MarkedUpTo(env, trees, before, |trees|) == MarkedUpTo(env, trees, before, i)
    decreases |trees| - i
  {
    if i < |trees| {
      FullStaysFull(env, trees, before, i + 1);
    }
  }

  /** The global walk over all sources at once, and the markers behind it. */
  method WalkSources(env: Decoders, hash: Blob -> nat, sources: seq<Blob>, before: seq<Blob>, depthOption: int,
                     iterationsOption: int)
    returns (blobs: seq<Blob>, streams: seq<Blob>)
    ensures blobs == Decoded(env, sources, before, depthOption, iterationsOption)
    ensures streams == DecodedMarked(env, sources, before, depthOption, iterationsOption)
  {
    hide Turn, Room, EmitAll, Emit, BlobSet.Valid, MarkedUpTo, Views;
    var depth, iterations := Floor(depthOption), Floor(iterationsOption);
    var states, queue := SeedSources(hash, sources);
    streams := before;
    ghost var start := Seed(sources, before);
    SeedIsSound(sources, before, iterations);
    assert Walk(queue, Views(states), streams) == start;
    while queue != [] && |streams| < env.maxStreams
      invariant Separate(states) && AllValid(states)
      invariant forall i :: 0 <= i < |states| ==> fresh(states[i]) && fresh(states[i].seen)
      invariant Sound(Walk(queue, Views(states), streams), iterations) && Sound(start, iterations)
      invariant Run(env, Walk(queue, Views(states), streams), depth, iterations) == Run(env, start, depth, iterations)
      decreases |queue| + Room(Views(states))
    {
      TurnKeeps(env, Walk(queue, Views(states), streams), depth, iterations);
      queue, streams := ProcessItem(env, queue, states, streams, depth, iterations);
    }
    blobs := streams;
    streams := MarkDeepTrees(env, states, blobs);
  }
}
