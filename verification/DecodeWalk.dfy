/** The multi-source, breadth-first decode walk: its budgets, and why a greater depth only adds. */
module DecodeWalk {
  import opened Basics

  /** Bytes, one `char` a byte. */
  type Blob = string

  const MIN_DECODED: nat := 8
  const MAX_BLOBS: nat := 32
  const MAX_BLOB: nat := 1048576
  const MAX_DECODED: nat := 4194304

  /** The deterministic parts the walk is built from: the blobs that the decoder chain finds in a buffer, in
      order; the two gates before it and the one behind it; and whether the result takes another stream. */
  datatype Decoders = Decoders(
    candidates: Blob -> seq<Blob>, mostlyText: Blob -> bool, mayBeEncoded: Blob -> bool, looksEncoded: Blob -> bool,
    admits: (seq<Blob>, Blob) -> bool, maxStreams: nat)

  /** What the walk has spent on one source. */
  datatype Tree = Tree(blobs: nat, cum: nat, iters: nat, maxLayer: nat, seen: set<Blob>)

  const FRESH: Tree := Tree(0, 0, 0, 0, {})

  datatype Item = Item(data: Blob, depth: nat, src: nat)

  datatype Walk = Walk(queue: seq<Item>, trees: seq<Tree>, streams: seq<Blob>)

  /* ---------------------------------------------------------------- emission */

  /** `more` is false once a budget has stopped the decoder chain. */
  datatype Emission = Emission(tree: Tree, streams: seq<Blob>, children: seq<Blob>, more: bool)

  function Emit(env: Decoders, e: Emission, found: Blob, layer: nat): Emission {
    if |found| < MIN_DECODED || Clamped(found, MAX_BLOB) in e.tree.seen then e
    else
      var b, t := Clamped(found, MAX_BLOB), e.tree;
      if t.blobs >= MAX_BLOBS || |e.streams| >= env.maxStreams || t.cum + |b| > MAX_DECODED || !env.admits(e.streams, b)
      then e.(more := false)
      else
        Emission(Tree(t.blobs + 1, t.cum + |b|, t.iters,
                      if layer > t.maxLayer then layer else t.maxLayer, t.seen + {b}),
                 e.streams + [b], e.children + [b], true)
  }

  function EmitAll(env: Decoders, e: Emission, found: seq<Blob>, layer: nat): Emission {
    if found == [] then e
    else
      var before := EmitAll(env, e, found[..|found| - 1], layer);
      if before.more then Emit(env, before, found[|found| - 1], layer) else before
  }

  /* ---------------------------------------------------------------- one item */

  predicate Skipped(env: Decoders, w: Walk, iterations: nat)
    requires w.queue != [] && w.queue[0].src < |w.trees|
  {
    var cur, t := w.queue[0], w.trees[w.queue[0].src];
    || t.iters >= iterations || t.blobs >= MAX_BLOBS || t.cum >= MAX_DECODED
    || (cur.depth > 0 && (!env.mostlyText(cur.data) || !env.mayBeEncoded(cur.data)))
  }

  function Emitted(env: Decoders, w: Walk): Emission
    requires w.queue != [] && w.queue[0].src < |w.trees|
  {
    var cur := w.queue[0];
    var t := w.trees[cur.src];
    EmitAll(env, Emission(t.(iters := t.iters + 1), w.streams, [], true), env.candidates(cur.data), cur.depth + 1)
  }

  /** The children worth another look, at the next depth. */
  function Children(env: Decoders, children: seq<Blob>, depth: nat, src: nat): seq<Item> {
    if children == [] then []
    else
      var last := children[|children| - 1];
      Children(env, children[..|children| - 1], depth, src)
      + if env.looksEncoded(last) then [Item(last, depth, src)] else []
  }

  function Turn(env: Decoders, w: Walk, depth: nat, iterations: nat): Walk
    requires w.queue != [] && w.queue[0].src < |w.trees|
  {
    var cur := w.queue[0];
    if Skipped(env, w, iterations) then w.(queue := w.queue[1..])
    else
      var e := Emitted(env, w);
      var next := if cur.depth + 1 < depth then Children(env, e.children, cur.depth + 1, cur.src) else [];
      Walk(w.queue[1..] + next, w.trees[cur.src := e.tree], e.streams)
  }

  /* ---------------------------------------------------------------- budgets */

  /** What one source may cost. */
  ghost predicate Budgeted(t: Tree, iterations: nat) {
    t.blobs <= MAX_BLOBS && t.cum <= MAX_DECODED && t.iters <= iterations && |t.seen| == t.blobs
  }

  ghost predicate Sound(w: Walk, iterations: nat) {
    && (forall i :: 0 <= i < |w.queue| ==> w.queue[i].src < |w.trees|)
    && (forall i :: 0 <= i < |w.trees| ==> Budgeted(w.trees[i], iterations))
  }

  /** Blobs that may still be emitted. */
  function Room(trees: seq<Tree>): nat {
    if trees == [] then 0
    else
      var last := trees[|trees| - 1];
      Room(trees[..|trees| - 1]) + if last.blobs < MAX_BLOBS then MAX_BLOBS - last.blobs else 0
  }

  /** Every emitted blob is new to its source, paid for, of allowed size, and admitted. */
  ghost predicate Grown(e: Emission, f: Emission, iterations: nat, maxStreams: nat) {
    && Budgeted(f.tree, iterations) && f.tree.iters == e.tree.iters
    && |f.children| == |e.children| + (f.tree.blobs - e.tree.blobs) && f.tree.blobs >= e.tree.blobs
    && e.streams <= f.streams && |f.streams| == |e.streams| + (f.tree.blobs - e.tree.blobs)
    && (|e.streams| <= maxStreams ==> |f.streams| <= maxStreams)
    && (forall i :: |e.streams| <= i < |f.streams| ==>
        MIN_DECODED <= |f.streams[i]| <= MAX_BLOB && f.streams[i] !in e.tree.seen)
    && e.tree.seen <= f.tree.seen && (forall i :: |e.streams| <= i < |f.streams| ==> f.streams[i] in f.tree.seen)
  }

  lemma EmitGrows(env: Decoders, e: Emission, found: Blob, layer: nat, iterations: nat)
    requires Budgeted(e.tree, iterations)
    ensures Grown(e, Emit(env, e, found, layer), iterations, env.maxStreams)
  {
  }

  lemma GrowthAdds(e: Emission, f: Emission, g: Emission, iterations: nat, maxStreams: nat)
    requires Grown(e, f, iterations, maxStreams) && Grown(f, g, iterations, maxStreams)
    ensures Grown(e, g, iterations, maxStreams)
  {
    forall i | |e.streams| <= i < |g.streams|
      ensures MIN_DECODED <= |g.streams[i]| <= MAX_BLOB && g.streams[i] !in e.tree.seen && g.streams[i] in g.tree.seen
    {
      if i < |f.streams| {
        assert g.streams[i] == f.streams[i];
      }
    }
  }

  lemma {:induction false} EmitAllGrows(env: Decoders, e: Emission, found: seq<Blob>, layer: nat, iterations: nat)
    requires Budgeted(e.tree, iterations)
    ensures Grown(e, EmitAll(env, e, found, layer), iterations, env.maxStreams)
  {
    hide Grown, Emit;
    if found == [] {
      NothingGrows(e, iterations, env.maxStreams);
    } else {
      var before := EmitAll(env, e, found[..|found| - 1], layer);
      EmitAllGrows(env, e, found[..|found| - 1], layer, iterations);
      if before.more {
        GrownIsBudgeted(e, before, iterations, env.maxStreams);
        EmitGrows(env, before, found[|found| - 1], layer, iterations);
        GrowthAdds(e, before, Emit(env, before, found[|found| - 1], layer), iterations, env.maxStreams);
      }
    }
  }

  lemma NothingGrows(e: Emission, iterations: nat, maxStreams: nat)
    requires Budgeted(e.tree, iterations)
    ensures Grown(e, e, iterations, maxStreams)
  {
  }

  lemma GrownIsBudgeted(e: Emission, f: Emission, iterations: nat, maxStreams: nat)
    requires Grown(e, f, iterations, maxStreams)
    ensures Budgeted(f.tree, iterations)
  {
  }

  lemma {:induction false} ChildrenAre(env: Decoders, children: seq<Blob>, depth: nat, src: nat)
    ensures |Children(env, children, depth, src)| <= |children|
    ensures forall i :: 0 <= i < |Children(env, children, depth, src)| ==>
              Children(env, children, depth, src)[i].depth == depth && Children(env, children, depth, src)[i].src == src
  {
    if children != [] {
      ChildrenAre(env, children[..|children| - 1], depth, src);
    }
  }

  lemma {:induction false} RoomOf(trees: seq<Tree>, i: nat, t: Tree)
    requires i < |trees| && trees[i].blobs <= t.blobs <= MAX_BLOBS
    ensures Room(trees[i := t]) == Room(trees) - (t.blobs - trees[i].blobs)
  {
    var last := |trees| - 1;
    if i < last {
      RoomOf(trees[..last], i, t);
      assert trees[i := t][..last] == trees[..last][i := t];
    } else {
      assert trees[i := t][..last] == trees[..last];
    }
  }

  /** One item keeps the budgets, only appends streams, and brings the walk nearer to its end. */
  lemma TurnKeeps(env: Decoders, w: Walk, depth: nat, iterations: nat)
    requires w.queue != [] && Sound(w, iterations)
    ensures var v := Turn(env, w, depth, iterations);
            && Sound(v, iterations) && |v.trees| == |w.trees| && w.streams <= v.streams
            && (|w.streams| <= env.maxStreams ==> |v.streams| <= env.maxStreams)
            && |v.queue| + Room(v.trees) < |w.queue| + Room(w.trees)
  {
    if !Skipped(env, w, iterations) {
      hide EmitAll, Room;
      var cur := w.queue[0];
      var t := w.trees[cur.src];
      var start := Emission(t.(iters := t.iters + 1), w.streams, [], true);
      EmitAllGrows(env, start, env.candidates(cur.data), cur.depth + 1, iterations);
      var e := Emitted(env, w);
      ChildrenAre(env, e.children, cur.depth + 1, cur.src);
      RoomOf(w.trees, cur.src, e.tree);
    }
  }

  /* ---------------------------------------------------------------- the walk */

  /** Processes the queue until it is empty or the result is full. */
  ghost function Run(env: Decoders, w: Walk, depth: nat, iterations: nat): Walk
    requires Sound(w, iterations)
    decreases |w.queue| + Room(w.trees)
  {
    if w.queue == [] || |w.streams| >= env.maxStreams then w
    else
      TurnKeeps(env, w, depth, iterations);
      Run(env, Turn(env, w, depth, iterations), depth, iterations)
  }

  function Seed(sources: seq<Blob>, streams: seq<Blob>): Walk {
    Walk(seq(|sources|, i requires 0 <= i < |sources| => Item(sources[i], 0, i)), seq(|sources|, _ => FRESH), streams)
  }

  lemma SeedIsSound(sources: seq<Blob>, streams: seq<Blob>, iterations: nat)
    ensures Sound(Seed(sources, streams), iterations)
  {
  }

  lemma {:induction false} RunKeeps(env: Decoders, w: Walk, depth: nat, iterations: nat)
    requires Sound(w, iterations)
    ensures var v := Run(env, w, depth, iterations);
            && Sound(v, iterations) && |v.trees| == |w.trees| && w.streams <= v.streams
            && (|w.streams| <= env.maxStreams ==> |v.streams| <= env.maxStreams)
    decreases |w.queue| + Room(w.trees)
  {
    hide Turn, Sound, Room;
    if w.queue != [] && |w.streams| < env.maxStreams {
      SourceExists(w, iterations);
      TurnKeeps(env, w, depth, iterations);
      RunKeeps(env, Turn(env, w, depth, iterations), depth, iterations);
    }
  }

  /** No source ever costs more than its budgets, whatever the decoders find, and the result never overflows. */
  lemma BudgetsHold(env: Decoders, sources: seq<Blob>, streams: seq<Blob>, depth: nat, iterations: nat, i: nat)
    requires i < |sources|
    ensures Sound(Seed(sources, streams), iterations)
    ensures var v := Run(env, Seed(sources, streams), depth, iterations);
            && |v.trees| == |sources| && Budgeted(v.trees[i], iterations) && streams <= v.streams
            && (|streams| <= env.maxStreams ==> |v.streams| <= env.maxStreams)
  {
    hide Run;
    SeedIsSound(sources, streams, iterations);
    RunKeeps(env, Seed(sources, streams), depth, iterations);
  }

  /* ---------------------------------------------------------------- depth only adds */

  /** Breadth first: the queue is sorted by depth and spans at most two depths. */
  ghost predicate Layered(queue: seq<Item>) {
    && (forall i, k :: 0 <= i < k < |queue| ==> queue[i].depth <= queue[k].depth)
    && (forall i :: 0 <= i < |queue| ==> queue[i].depth <= queue[0].depth + 1)
  }

  /** `v` is `w` with more items behind it, all of them too deep for `depth`; and once there are such items,
      everything that `w` still has to do is at the last depth. */
  ghost predicate Deeper(w: Walk, v: Walk, depth: nat) {
    && v.trees == w.trees && v.streams == w.streams && w.queue <= v.queue && Layered(w.queue)
    && (forall i :: 0 <= i < |w.queue| ==> w.queue[i].depth < depth)
    && (|v.queue| > |w.queue| ==> forall i :: 0 <= i < |w.queue| ==> w.queue[i].depth + 1 >= depth)
  }

  lemma TurnLayers(env: Decoders, w: Walk, depth: nat, iterations: nat)
    requires w.queue != [] && w.queue[0].src < |w.trees| && Layered(w.queue)
    requires forall i :: 0 <= i < |w.queue| ==> w.queue[i].depth < depth
    ensures var v := Turn(env, w, depth, iterations);
            Layered(v.queue) && forall i :: 0 <= i < |v.queue| ==> v.queue[i].depth < depth
  {
    var cur := w.queue[0];
    ChildrenAre(env, Emitted(env, w).children, cur.depth + 1, cur.src);
  }

  lemma TurnStaysDeeper(env: Decoders, w: Walk, v: Walk, depth: nat, deep: nat, iterations: nat)
    requires w.queue != [] && w.queue[0].src < |w.trees| && Deeper(w, v, depth) && depth <= deep
    ensures Deeper(Turn(env, w, depth, iterations), Turn(env, v, deep, iterations), depth)
  {
    hide EmitAll;
    assert v.queue[0] == w.queue[0];
    TurnLayers(env, w, depth, iterations);
    var cur := w.queue[0];
    assert Skipped(env, w, iterations) == Skipped(env, v, iterations) && Emitted(env, w) == Emitted(env, v);
    var w', v' := Turn(env, w, depth, iterations), Turn(env, v, deep, iterations);
    if cur.depth + 1 < depth {
      assert v.queue == w.queue;
    } else {
      assert w'.queue == w.queue[1..];
      assert w.queue[1..] <= v.queue[1..];
      assert w'.queue <= v'.queue;
    }
  }

  /** For fixed sources and a fixed iteration cap, the streams of a walk to depth `depth` are a prefix of the
      streams of a walk to any greater depth. */
  lemma {:induction false} DepthOnlyAdds(env: Decoders, w: Walk, v: Walk, depth: nat, deep: nat, iterations: nat)
    requires Sound(w, iterations) && Sound(v, iterations) && Deeper(w, v, depth) && depth <= deep
    ensures Run(env, w, depth, iterations).streams <= Run(env, v, deep, iterations).streams
    decreases |w.queue| + Room(w.trees)
  {
    hide Sound, Turn, Room;
    RunKeeps(env, v, deep, iterations);
    if w.queue != [] && |w.streams| < env.maxStreams {
      SourceExists(w, iterations);
      TurnKeeps(env, w, depth, iterations);
      TurnKeeps(env, v, deep, iterations);
      TurnStaysDeeper(env, w, v, depth, deep, iterations);
      DepthOnlyAdds(env, Turn(env, w, depth, iterations), Turn(env, v, deep, iterations), depth, deep, iterations);
    }
  }

  lemma SourceExists(w: Walk, iterations: nat)
    requires Sound(w, iterations) && w.queue != []
    ensures w.queue[0].src < |w.trees|
  {
  }

  /** An option below one counts as one. */
  function Floor(option: int): nat {
    if option < 1 then 1 else option
  }

  /** The streams after the walk over `sources`, behind the ones already there. */
  ghost function Decoded(env: Decoders, sources: seq<Blob>, streams: seq<Blob>, depth: int,
                         iterations: int): seq<Blob> {
    SeedIsSound(sources, streams, Floor(iterations));
    Run(env, Seed(sources, streams), Floor(depth), Floor(iterations)).streams
  }

  /** Raising the depth never loses or reorders a stream; it only appends. */
  lemma StreamsGrowWithDepth(env: Decoders, sources: seq<Blob>, streams: seq<Blob>, depth: int, deep: int,
                             iterations: int)
    requires depth <= deep
    ensures Decoded(env, sources, streams, depth, iterations) <= Decoded(env, sources, streams, deep, iterations)
  {
    hide Run;
    SeedIsSound(sources, streams, Floor(iterations));
    DepthOnlyAdds(env, Seed(sources, streams), Seed(sources, streams), Floor(depth), Floor(deep), Floor(iterations));
  }
}
