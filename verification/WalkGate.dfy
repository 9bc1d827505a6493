/** The gates of the decode walk: the one before every child never decides anything, and the one before every source
    costs nothing but what it hides itself. */
module WalkGate {
  import opened DecodeWalk
  import EncodingGate
  import DecodeChain
  import GateStrict
  import WholeRuns

  /* ---------------------------------------------------------------- children */

  /** The walk without the gate before its children. */
  function Ungated(env: Decoders): Decoders {
    env.(mayBeEncoded := _ => true)
  }

  /** The re-decode test asks the gate first. */
  ghost predicate TestAsksGate(env: Decoders) {
    forall b :: env.looksEncoded(b) ==> env.mayBeEncoded(b)
  }

  /** Children are queued only if the test wants them. */
  ghost predicate Wanted(env: Decoders, queue: seq<Item>) {
    forall i :: 0 <= i < |queue| && queue[i].depth > 0 ==> env.looksEncoded(queue[i].data)
  }

  lemma {:induction false} EmitAllUngated(env: Decoders, e: Emission, found: seq<Blob>, layer: nat)
    ensures EmitAll(Ungated(env), e, found, layer) == EmitAll(env, e, found, layer)
  {
    if found != [] {
      EmitAllUngated(env, e, found[..|found| - 1], layer);
    }
  }

  lemma {:induction false} ChildrenUngated(env: Decoders, children: seq<Blob>, depth: nat, src: nat)
    ensures Children(Ungated(env), children, depth, src) == Children(env, children, depth, src)
    ensures Wanted(env, Children(env, children, depth, src))
  {
    if children != [] {
      ChildrenUngated(env, children[..|children| - 1], depth, src);
    }
  }

  lemma TurnUngated(env: Decoders, w: Walk, depth: nat, iterations: nat)
    requires w.queue != [] && w.queue[0].src < |w.trees| && TestAsksGate(env) && Wanted(env, w.queue)
    ensures Turn(Ungated(env), w, depth, iterations) == Turn(env, w, depth, iterations)
    ensures Wanted(env, Turn(env, w, depth, iterations).queue)
  {
    hide EmitAll;
    var cur, t := w.queue[0], w.trees[w.queue[0].src];
    var start := Emission(t.(iters := t.iters + 1), w.streams, [], true);
    EmitAllUngated(env, start, env.candidates(cur.data), cur.depth + 1);
    ChildrenUngated(env, Emitted(env, w).children, cur.depth + 1, cur.src);
  }

  lemma {:induction false} RunUngated(env: Decoders, w: Walk, depth: nat, iterations: nat)
    requires Sound(w, iterations) && TestAsksGate(env) && Wanted(env, w.queue)
    ensures Run(Ungated(env), w, depth, iterations) == Run(env, w, depth, iterations)
    decreases |w.queue| + Room(w.trees)
  {
    hide Turn, Sound, Room, Wanted, TestAsksGate;
    if w.queue != [] && |w.streams| < env.maxStreams {
      SourceExists(w, iterations);
      TurnKeeps(env, w, depth, iterations);
      TurnUngated(env, w, depth, iterations);
      RunUngated(env, Turn(env, w, depth, iterations), depth, iterations);
    }
  }

  /** Removing the gate before the children changes no stream, for any sources and any options. */
  lemma ChildGateIsIdle(env: Decoders, sources: seq<Blob>, streams: seq<Blob>, depth: int, iterations: int)
    requires TestAsksGate(env)
    ensures Decoded(Ungated(env), sources, streams, depth, iterations)
            == Decoded(env, sources, streams, depth, iterations)
  {
    hide Run;
    SeedIsSound(sources, streams, Floor(iterations));
    RunUngated(env, Seed(sources, streams), Floor(depth), Floor(iterations));
  }

  /* ---------------------------------------------------------------- sources */

  function Renumbered(src: nat, j: nat): nat {
    if src > j then src - 1 else src
  }

  /** The queue without the items of source `j`, for a walk without that source. */
  function WithoutItems(queue: seq<Item>, j: nat): seq<Item> {
    if queue == [] then []
    else
      var last := queue[|queue| - 1];
      WithoutItems(queue[..|queue| - 1], j) + if last.src == j then [] else [last.(src := Renumbered(last.src, j))]
  }

  function WithoutAt<T>(xs: seq<T>, j: nat): seq<T>
    requires j < |xs|
  {
    xs[..j] + xs[j + 1..]
  }

  function WithoutSource(w: Walk, j: nat): Walk
    requires j < |w.trees|
  {
    Walk(WithoutItems(w.queue, j), WithoutAt(w.trees, j), w.streams)
  }

  lemma {:induction false} WithoutAppend(a: seq<Item>, b: seq<Item>, j: nat)
    ensures WithoutItems(a + b, j) == WithoutItems(a, j) + WithoutItems(b, j)
  {
    if b == [] {
      assert a + b == a;
    } else {
      WithoutAppend(a, b[..|b| - 1], j);
      assert (a + b)[..|a + b| - 1] == a + b[..|b| - 1];
    }
  }

  lemma WithoutOne(x: Item, j: nat)
    ensures WithoutItems([x], j) == if x.src == j then [] else [x.(src := Renumbered(x.src, j))]
  {
    assert [x][..0] == [];
  }

  lemma {:induction false} WithoutChildren(env: Decoders, children: seq<Blob>, depth: nat, src: nat, j: nat)
    requires src != j
    ensures WithoutItems(Children(env, children, depth, src), j) == Children(env, children, depth, Renumbered(src, j))
  {
    if children != [] {
      var front, last := children[..|children| - 1], children[|children| - 1];
      WithoutChildren(env, front, depth, src, j);
      if env.looksEncoded(last) {
        WithoutAppend(Children(env, front, depth, src), [Item(last, depth, src)], j);
        WithoutOne(Item(last, depth, src), j);
      } else {
        assert Children(env, front, depth, src) + [] == Children(env, front, depth, src);
      }
    }
  }

  /** Whatever is queued for source `j` gives the decoders nothing. */
  ghost predicate Silent(env: Decoders, w: Walk, j: nat) {
    j < |w.trees| && forall i :: 0 <= i < |w.queue| && w.queue[i].src == j ==> env.candidates(w.queue[i].data) == []
  }

  lemma HeadAndTail(queue: seq<Item>, j: nat)
    requires queue != []
    ensures WithoutItems(queue, j) == WithoutItems([queue[0]], j) + WithoutItems(queue[1..], j)
  {
    assert queue == [queue[0]] + queue[1..];
    WithoutAppend([queue[0]], queue[1..], j);
  }

  /** A turn for the silent source is no turn at all for the others. */
  lemma SilentTurn(env: Decoders, w: Walk, j: nat, depth: nat, iterations: nat)
    requires w.queue != [] && Silent(env, w, j) && w.queue[0].src == j
    ensures var v := Turn(env, w, depth, iterations);
            Silent(env, v, j) && |v.trees| == |w.trees| && WithoutSource(v, j) == WithoutSource(w, j)
  {
    HeadAndTail(w.queue, j);
    WithoutOne(w.queue[0], j);
    var v := Turn(env, w, depth, iterations);
    assert v.queue == w.queue[1..];
    assert WithoutAt(v.trees, j) == WithoutAt(w.trees, j);
  }

  /** A turn for another source is the same turn without the silent one. */
  lemma OtherTurn(env: Decoders, w: Walk, j: nat, depth: nat, iterations: nat)
    requires w.queue != [] && w.queue[0].src < |w.trees| && Silent(env, w, j) && w.queue[0].src != j
    ensures var v, u := Turn(env, w, depth, iterations), WithoutSource(w, j);
            && Silent(env, v, j) && |v.trees| == |w.trees|
            && u.queue != [] && u.queue[0].src < |u.trees| && WithoutSource(v, j) == Turn(env, u, depth, iterations)
  {
    hide EmitAll, WithoutItems;
    var cur := w.queue[0];
    var u := WithoutSource(w, j);
    HeadAndTail(w.queue, j);
    WithoutOne(cur, j);
    var src := Renumbered(cur.src, j);
    assert u.queue == [cur.(src := src)] + WithoutItems(w.queue[1..], j);
    assert u.queue[1..] == WithoutItems(w.queue[1..], j);
    assert u.trees[src] == w.trees[cur.src];
    assert Skipped(env, w, iterations) == Skipped(env, u, iterations) && Emitted(env, w) == Emitted(env, u);
    if !Skipped(env, w, iterations) {
      var e := Emitted(env, w);
      assert WithoutAt(w.trees[cur.src := e.tree], j) == WithoutAt(w.trees, j)[src := e.tree];
      ChildrenAre(env, e.children, cur.depth + 1, cur.src);
      WithoutChildren(env, e.children, cur.depth + 1, cur.src, j);
      WithoutAppend(w.queue[1..], Children(env, e.children, cur.depth + 1, cur.src), j);
      assert w.queue[1..] + [] == w.queue[1..] && u.queue[1..] + [] == u.queue[1..];
    }
  }

  lemma WithoutIsSound(w: Walk, j: nat, iterations: nat)
    requires Sound(w, iterations) && j < |w.trees|
    ensures Sound(WithoutSource(w, j), iterations)
  {
    ItemsRenumbered(w.queue, j, |w.trees|);
  }

  lemma {:induction false} ItemsRenumbered(queue: seq<Item>, j: nat, n: nat)
    requires j < n && forall i :: 0 <= i < |queue| ==> queue[i].src < n
    ensures forall i :: 0 <= i < |WithoutItems(queue, j)| ==> WithoutItems(queue, j)[i].src < n - 1
  {
    if queue != [] {
      ItemsRenumbered(queue[..|queue| - 1], j, n);
    }
  }

  lemma {:induction false} SilentSourceIsFree(env: Decoders, w: Walk, j: nat, depth: nat, iterations: nat)
    requires Sound(w, iterations) && Silent(env, w, j) && Sound(WithoutSource(w, j), iterations)
    ensures Run(env, w, depth, iterations).streams == Run(env, WithoutSource(w, j), depth, iterations).streams
    decreases |w.queue| + Room(w.trees)
  {
    hide Turn, Sound, Room, WithoutItems, WithoutAt;
    if w.queue == [] {
      NothingWithout(j);
    } else if |w.streams| < env.maxStreams {
      SourceExists(w, iterations);
      TurnKeeps(env, w, depth, iterations);
      var v := Turn(env, w, depth, iterations);
      if w.queue[0].src == j {
        SilentTurn(env, w, j, depth, iterations);
        SilentSourceIsFree(env, v, j, depth, iterations);
      } else {
        OtherTurn(env, w, j, depth, iterations);
        WithoutIsSound(v, j, iterations);
        SilentSourceIsFree(env, v, j, depth, iterations);
      }
    }
  }

  lemma NothingWithout(j: nat)
    ensures WithoutItems([], j) == []
  {
  }

  lemma {:induction false} SeedWithout(sources: seq<Blob>, j: nat, n: nat)
    requires j < |sources| && n <= |sources|
    ensures WithoutItems(Seed(sources, []).queue[..n], j)
         == Seed(WithoutAt(sources, j), []).queue[..if n > j then n - 1 else n]
  {
    if n > 0 {
      SeedWithout(sources, j, n - 1);
      var items := Seed(sources, []).queue;
      assert items[..n][..n - 1] == items[..n - 1];
    }
  }

  /** Leaving out a source that gives the decoders nothing changes no stream. */
  lemma IdleSourceIsFree(env: Decoders, sources: seq<Blob>, streams: seq<Blob>, depth: int, iterations: int, j: nat)
    requires j < |sources| && env.candidates(sources[j]) == []
    ensures Decoded(env, sources, streams, depth, iterations)
         == Decoded(env, WithoutAt(sources, j), streams, depth, iterations)
  {
    hide Run, WithoutItems;
    var w, v := Seed(sources, streams), Seed(WithoutAt(sources, j), streams);
    SeedWithout(sources, j, |sources|);
    assert w.queue[..|sources|] == w.queue == Seed(sources, []).queue;
    assert v.queue[..|sources| - 1] == v.queue == Seed(WithoutAt(sources, j), []).queue;
    assert WithoutAt(w.trees, j) == v.trees;
    SeedIsSound(sources, streams, Floor(iterations));
    SeedIsSound(WithoutAt(sources, j), streams, Floor(iterations));
    SilentSourceIsFree(env, w, j, Floor(depth), Floor(iterations));
  }

  /** The sources that pass the gate. */
  function Passed(env: Decoders, sources: seq<Blob>): seq<Blob> {
    if sources == [] then []
    else
      var last := sources[|sources| - 1];
      Passed(env, sources[..|sources| - 1]) + if env.mayBeEncoded(last) then [last] else []
  }

  lemma {:induction false} PassingIsFree(env: Decoders, sources: seq<Blob>, streams: seq<Blob>, depth: int,
                                         iterations: int, n: nat)
    requires n <= |sources|
    requires forall i :: 0 <= i < |sources| && !env.mayBeEncoded(sources[i]) ==> env.candidates(sources[i]) == []
    ensures Decoded(env, Passed(env, sources[..n]) + sources[n..], streams, depth, iterations)
         == Decoded(env, sources, streams, depth, iterations)
  {
    hide Decoded;
    if n == 0 {
      assert Passed(env, sources[..0]) + sources[0..] == sources;
    } else {
      PassingIsFree(env, sources, streams, depth, iterations, n - 1);
      assert sources[..n][..n - 1] == sources[..n - 1];
      var done, last := Passed(env, sources[..n - 1]), sources[n - 1];
      var before := done + sources[n - 1..];
      if env.mayBeEncoded(last) {
        assert done + [last] + sources[n..] == before;
      } else {
        assert before[|done|] == last;
        IdleSourceIsFree(env, before, streams, depth, iterations, |done|);
        assert WithoutAt(before, |done|) == done + [] + sources[n..];
      }
    }
  }

  /* ---------------------------------------------------------------- the gate that there is */

  /** The walk's parts are the gate, the test behind it and the ten decoders. */
  ghost predicate Built(env: Decoders, re: DecodeChain.Engine) {
    && DecodeChain.Sound(re)
    && (forall b :: env.mayBeEncoded(b) <==> EncodingGate.MayBeEncoded(b))
    && (forall b :: env.looksEncoded(b) <==> EncodingGate.MayBeEncoded(b) && GateStrict.LooksUngated(b))
    && (forall b :: env.candidates(b) != [] ==> Offered(b, re))
  }

  ghost predicate Offered(b: Blob, re: DecodeChain.Engine) {
    exists bound :: GateStrict.Offers(b, re, bound)
  }

  /** A run that a decoder takes reaches behind the gate's window. */
  ghost predicate ReachesBehind(b: Blob) {
    exists k: DecodeChain.Decoder, s: nat, e: nat :: e > EncodingGate.MAX_WINDOW && WholeRuns.Taken(k, b, s, e)
  }

  /** Both gates together change no stream, unless a source that they turn away has a run that its decoder takes and
      that reaches behind the window. */
  lemma GatesAreFree(env: Decoders, re: DecodeChain.Engine, sources: seq<Blob>, streams: seq<Blob>, depth: int,
                     iterations: int)
    requires Built(env, re)
    requires forall i :: 0 <= i < |sources| && !env.mayBeEncoded(sources[i]) ==> !ReachesBehind(sources[i])
    ensures Decoded(env, Passed(env, sources), streams, depth, iterations)
         == Decoded(Ungated(env), sources, streams, depth, iterations)
  {
    hide Decoded, EncodingGate.MayBeEncoded, GateStrict.LooksUngated, GateStrict.Offers, WholeRuns.Taken,
         DecodeChain.Sound;
    forall i | 0 <= i < |sources| && !env.mayBeEncoded(sources[i]) ensures env.candidates(sources[i]) == [] {
      var b := sources[i];
      if Offered(b, re) {
        var bound :| GateStrict.Offers(b, re, bound);
        GateStrict.MissedExactly(b, re, bound);
      }
    }
    PassingIsFree(env, sources, streams, depth, iterations, |sources|);
    assert sources[..|sources|] == sources && Passed(env, sources) + [] == Passed(env, sources);
    assert sources[|sources|..] == [];
    ChildGateIsIdle(env, sources, streams, depth, iterations);
  }
}
