/** The markers for deeply stacked encodings that follow the decode walk, and what a greater depth does to them. */
module DecodeMarkers {
  import opened Basics
  import opened DecodeWalk

  const DEEP_LAYER: nat := 3

  function Marker(layer: nat): Blob {
    "MSD-DEEPDECODE depth=" + Numeral(layer, 10)
  }

  /** Whether source `i` gets a marker, when `streams` are the streams at its turn. */
  predicate Marks(env: Decoders, t: Tree, streams: seq<Blob>) {
    |streams| < env.maxStreams && t.maxLayer >= DEEP_LAYER && env.admits(streams, Marker(t.maxLayer))
  }

  /** The streams after the turns of the first `n` sources. */
  function MarkedUpTo(env: Decoders, trees: seq<Tree>, streams: seq<Blob>, n: nat): seq<Blob>
    requires n <= |trees|
  {
    if n == 0 then streams
    else
      var before := MarkedUpTo(env, trees, streams, n - 1);
      if Marks(env, trees[n - 1], before) then before + [Marker(trees[n - 1].maxLayer)] else before
  }

  /** Whether source `i` is marked after a walk. */
  predicate IsMarked(env: Decoders, w: Walk, i: nat)
    requires i < |w.trees|
  {
    Marks(env, w.trees[i], MarkedUpTo(env, w.trees, w.streams, i))
  }

  /** The walk over all sources. */
  ghost function Walked(env: Decoders, sources: seq<Blob>, streams: seq<Blob>, depth: int, iterations: int): (w: Walk)
    ensures |w.trees| == |sources| && w.streams == Decoded(env, sources, streams, depth, iterations)
  {
    SeedIsSound(sources, streams, Floor(iterations));
    RunKeeps(env, Seed(sources, streams), Floor(depth), Floor(iterations));
    Run(env, Seed(sources, streams), Floor(depth), Floor(iterations))
  }

  /** All streams, with the markers behind them. */
  ghost function DecodedMarked(env: Decoders, sources: seq<Blob>, streams: seq<Blob>, depth: int,
                               iterations: int): seq<Blob> {
    var w := Walked(env, sources, streams, depth, iterations);
    MarkedUpTo(env, w.trees, w.streams, |w.trees|)
  }

  /* ---------------------------------------------------------------- layers only grow */

  ghost predicate NoShallower(a: seq<Tree>, b: seq<Tree>) {
    |a| == |b| && forall i :: 0 <= i < |a| ==> a[i].maxLayer <= b[i].maxLayer
  }

  lemma {:induction false} EmitAllDeepens(env: Decoders, e: Emission, found: seq<Blob>, layer: nat)
    ensures e.tree.maxLayer <= EmitAll(env, e, found, layer).tree.maxLayer
  {
    if found != [] {
      EmitAllDeepens(env, e, found[..|found| - 1], layer);
    }
  }

  lemma TurnDeepens(env: Decoders, w: Walk, depth: nat, iterations: nat)
    requires w.queue != [] && w.queue[0].src < |w.trees|
    ensures NoShallower(w.trees, Turn(env, w, depth, iterations).trees)
  {
    hide EmitAll;
    var cur, t := w.queue[0], w.trees[w.queue[0].src];
    var start := Emission(t.(iters := t.iters + 1), w.streams, [], true);
    EmitAllDeepens(env, start, env.candidates(cur.data), cur.depth + 1);
  }

  lemma {:induction false} RunDeepens(env: Decoders, w: Walk, depth: nat, iterations: nat)
    requires Sound(w, iterations)
    ensures NoShallower(w.trees, Run(env, w, depth, iterations).trees)
    decreases |w.queue| + Room(w.trees)
  {
    hide Turn, Sound, Room;
    if w.queue != [] && |w.streams| < env.maxStreams {
      SourceExists(w, iterations);
      TurnKeeps(env, w, depth, iterations);
      TurnDeepens(env, w, depth, iterations);
      RunDeepens(env, Turn(env, w, depth, iterations), depth, iterations);
    }
  }

  lemma {:induction false} DepthOnlyDeepens(env: Decoders, w: Walk, v: Walk, depth: nat, deep: nat, iterations: nat)
    requires Sound(w, iterations) && Sound(v, iterations) && Deeper(w, v, depth) && depth <= deep
    ensures NoShallower(Run(env, w, depth, iterations).trees, Run(env, v, deep, iterations).trees)
    decreases |w.queue| + Room(w.trees)
  {
    hide Sound, Turn, Room;
    RunDeepens(env, v, deep, iterations);
    if w.queue != [] && |w.streams| < env.maxStreams {
      SourceExists(w, iterations);
      TurnKeeps(env, w, depth, iterations);
      TurnKeeps(env, v, deep, iterations);
      TurnStaysDeeper(env, w, v, depth, deep, iterations);
      DepthOnlyDeepens(env, Turn(env, w, depth, iterations), Turn(env, v, deep, iterations), depth, deep, iterations);
    }
  }

  /** A source that is marked at one depth is marked at a greater one exactly when there is still room for the marker
      at its turn: the deeper walk and the markers before it have not filled the result. */
  lemma MarkerKeptExactly(env: Decoders, sources: seq<Blob>, streams: seq<Blob>, depth: int, deep: int,
                          iterations: int, i: nat)
    requires depth <= deep && i < |sources| && IsMarked(env, Walked(env, sources, streams, depth, iterations), i)
    ensures var v := Walked(env, sources, streams, deep, iterations);
            var before := MarkedUpTo(env, v.trees, v.streams, i);
            IsMarked(env, v, i) <==> |before| < env.maxStreams && env.admits(before, Marker(v.trees[i].maxLayer))
  {
    hide Run, Marker;
    SeedIsSound(sources, streams, Floor(iterations));
    var seed := Seed(sources, streams);
    DepthOnlyDeepens(env, seed, seed, Floor(depth), Floor(deep), Floor(iterations));
  }

  /** How many of the first `n` sources are due a marker. */
  function Due(trees: seq<Tree>, n: nat): nat
    requires n <= |trees|
  {
    if n == 0 then 0 else Due(trees, n - 1) + if trees[n - 1].maxLayer >= DEEP_LAYER then 1 else 0
  }

  /** When the byte budget turns no marker away, the streams at a source's turn are the walk's and the markers due
      before it, up to the cap; so a marker is lost exactly when those fill the result. */
  lemma {:induction false} RoomExactly(env: Decoders, trees: seq<Tree>, streams: seq<Blob>, n: nat)
    requires n <= |trees| && |streams| <= env.maxStreams
    requires forall s, layer: nat :: env.admits(s, Marker(layer))
    ensures var all := |streams| + Due(trees, n);
            |MarkedUpTo(env, trees, streams, n)| == if all < env.maxStreams then all else env.maxStreams
  {
    hide Marker;
    if n > 0 {
      RoomExactly(env, trees, streams, n - 1);
    }
  }

  /* ---------------------------------------------------------------- a marker that is lost */

  /** Every blob decodes to a blob that is one byte longer, and four streams fill the result. */
  const CHAIN: Decoders := Decoders(b => ["x" + b], _ => true, _ => true, _ => true, (_, _) => true, 4)

  function Link(n: nat): Blob {
    seq(8 + n, _ => 'x')
  }

  function ChainTree(n: nat): Tree {
    if n == 0 then FRESH
    else Tree(n, ChainTree(n - 1).cum + 8 + n, n, n, ChainTree(n - 1).seen + {Link(n)})
  }

  function ChainStreams(n: nat): seq<Blob> {
    if n == 0 then [] else ChainStreams(n - 1) + [Link(n)]
  }

  /** The walk after `n` links, with or without the last one still to decode. */
  function ChainWalk(n: nat, more: bool): Walk {
    Walk(if more then [Item(Link(n), n, 0)] else [], [ChainTree(n)], ChainStreams(n))
  }

  lemma {:induction false} ChainIs(n: nat)
    requires n <= 4
    ensures |ChainStreams(n)| == n && ChainTree(n).blobs == ChainTree(n).iters == ChainTree(n).maxLayer == n
    ensures ChainTree(n).cum <= 12 * n && forall b :: b in ChainTree(n).seen ==> |b| <= 8 + n
  {
    if n > 0 {
      ChainIs(n - 1);
    }
  }

  lemma ChainEmits(n: nat)
    requires n < 4
    ensures var t := ChainTree(n);
            EmitAll(CHAIN, Emission(t.(iters := t.iters + 1), ChainStreams(n), [], true), ["x" + Link(n)], n + 1)
            == Emission(ChainTree(n + 1), ChainStreams(n + 1), [Link(n + 1)], true)
  {
    ChainIs(n);
    var t, found := ChainTree(n), "x" + Link(n);
    var e := Emission(t.(iters := t.iters + 1), ChainStreams(n), [], true);
    assert found == Link(n + 1) && found !in t.seen;
    assert [found][..0] == [];
    assert EmitAll(CHAIN, e, [], n + 1) == e;
    assert [] + [found] == [found];
  }

  lemma ChainTurn(n: nat, depth: nat, iterations: nat)
    requires n < 4 && n < iterations
    ensures Turn(CHAIN, ChainWalk(n, true), depth, iterations) == ChainWalk(n + 1, n + 1 < depth)
  {
    hide EmitAll, ChainTree, ChainStreams;
    ChainIs(n);
    ChainEmits(n);
    var w := ChainWalk(n, true);
    assert Children(CHAIN, [Link(n + 1)], n + 1, 0) == [Item(Link(n + 1), n + 1, 0)] by {
      assert [Link(n + 1)][..0] == [];
    }
    assert [ChainTree(n)][0 := ChainTree(n + 1)] == [ChainTree(n + 1)];
    assert w.queue[1..] == [];
  }

  lemma {:induction false} ChainRuns(n: nat, depth: nat, iterations: nat)
    requires n <= depth <= 4 && depth <= iterations
    ensures Sound(ChainWalk(n, n < depth), iterations)
    ensures Run(CHAIN, ChainWalk(n, n < depth), depth, iterations) == ChainWalk(depth, false)
    decreases depth - n
  {
    hide Turn;
    ChainIsSound(n, n < depth, iterations);
    if n < depth {
      ChainIs(n);
      ChainTurn(n, depth, iterations);
      ChainRuns(n + 1, depth, iterations);
    }
  }

  lemma {:induction false} ChainIsSound(n: nat, more: bool, iterations: nat)
    requires n <= 4 && n <= iterations
    ensures Sound(ChainWalk(n, more), iterations)
  {
    ChainIs(n);
    ChainSees(n);
  }

  lemma {:induction false} ChainSees(n: nat)
    requires n <= 4
    ensures |ChainTree(n).seen| == n
  {
    if n > 0 {
      ChainSees(n - 1);
      ChainIs(n - 1);
    }
  }

  lemma ChainWalked(depth: nat)
    requires 1 <= depth <= 4
    ensures Walked(CHAIN, [Link(0)], [], depth, 256) == ChainWalk(depth, false)
  {
    hide Run;
    assert Seed([Link(0)], []) == ChainWalk(0, true);
    ChainRuns(0, depth, 256);
  }

  /** Raising the depth can lose a marker: stacked layers are marked at depth three and not before, and at depth four
      the fourth layer takes the place of the marker. */
  lemma MarkerIsLost()
    ensures !IsMarked(CHAIN, Walked(CHAIN, [Link(0)], [], 2, 256), 0)
    ensures IsMarked(CHAIN, Walked(CHAIN, [Link(0)], [], 3, 256), 0)
    ensures !IsMarked(CHAIN, Walked(CHAIN, [Link(0)], [], 4, 256), 0)
    ensures Marker(3) in DecodedMarked(CHAIN, [Link(0)], [], 3, 256)
    ensures DecodedMarked(CHAIN, [Link(0)], [], 4, 256) == ChainStreams(4)
  {
    hide Walked, Marker, ChainTree, ChainStreams;
    ChainWalked(2);
    ChainWalked(3);
    ChainWalked(4);
    ChainIs(2);
    ChainIs(3);
    ChainIs(4);
    var three := ChainWalk(3, false);
    assert MarkedUpTo(CHAIN, three.trees, three.streams, 0) == three.streams;
    assert MarkedUpTo(CHAIN, three.trees, three.streams, 1) == three.streams + [Marker(3)];
    var four := ChainWalk(4, false);
    assert MarkedUpTo(CHAIN, four.trees, four.streams, 0) == four.streams;
    assert MarkedUpTo(CHAIN, four.trees, four.streams, 1) == four.streams;
  }
}
