/** The walk finds exactly what can be reached by decoding again and again. */
module WalkComplete {
  import opened Basics
  import opened MapSum
  import opened Places
  import opened DecodeWalk
  import DecodeMarkers

  /* ---------------------------------------------------------------- what can be reached */

  /** `b` is what one decoder makes of `a`: long enough, and cut to size. */
  ghost predicate Product(env: Decoders, a: Blob, b: Blob) {
    exists i :: 0 <= i < |env.candidates(a)| && MadeFrom(env.candidates(a)[i], b)
  }

  predicate MadeFrom(found: Blob, b: Blob) {
    |found| >= MIN_DECODED && b == Cut(found)
  }

  function Cut(found: Blob): Blob {
    if |found| > MAX_BLOB then found[..MAX_BLOB] else found
  }

  /** A decoded blob is worth decoding again. */
  predicate Inviting(env: Decoders, b: Blob) {
    env.looksEncoded(b) && env.mostlyText(b) && env.mayBeEncoded(b)
  }

  /** `b` lies `n` layers under the source. */
  ghost predicate Reach(env: Decoders, source: Blob, n: nat, b: Blob) {
    if n == 0 then b == source
    else exists a :: Reach(env, source, n - 1, a) && (n == 1 || Inviting(env, a)) && Product(env, a, b)
  }

  ghost predicate Within(env: Decoders, source: Blob, depth: nat, b: Blob) {
    exists n :: 1 <= n <= depth && Reach(env, source, n, b)
  }

  ghost predicate UnderSome(env: Decoders, sources: seq<Blob>, depth: nat, b: Blob) {
    exists i :: 0 <= i < |sources| && Within(env, sources[i], depth, b)
  }

  /* ---------------------------------------------------------------- bytes */

  function Lengths(blobs: set<Blob>): map<Blob, nat> {
    map b | b in blobs :: |b|
  }

  /** The bytes of all blobs together. */
  ghost function Bytes(blobs: set<Blob>): nat {
    Sum(Lengths(blobs))
  }

  lemma BytesOfOneMore(blobs: set<Blob>, b: Blob)
    requires b !in blobs
    ensures Bytes(blobs + {b}) == Bytes(blobs) + |b|
  {
    SumPut(Lengths(blobs), b, |b|);
    assert Lengths(blobs)[b := |b|] == Lengths(blobs + {b});
    assert Lengths(blobs) - {b} == Lengths(blobs);
  }

  lemma NoBytes()
    ensures Bytes({}) == 0
  {
  }

  lemma {:induction false} BytesOfFewer(fewer: set<Blob>, more: set<Blob>)
    requires fewer <= more
    ensures Bytes(fewer) <= Bytes(more) && |fewer| <= |more|
    decreases |more - fewer|
  {
    if fewer == more {
    } else {
      var b :| b in more && b !in fewer;
      assert more - (fewer + {b}) < more - fewer;
      BytesOfFewer(fewer + {b}, more);
      BytesOfOneMore(fewer, b);
    }
  }

  /* ---------------------------------------------------------------- emission */

  /** `f` is `e` with its children emitted. */
  ghost predicate Gained(e: Emission, f: Emission) {
    && f.streams == e.streams + f.children && f.tree.iters == e.tree.iters
    && (forall x :: x in f.tree.seen <==> x in e.tree.seen || x in f.children)
    && f.tree.cum == Bytes(f.tree.seen) && f.tree.blobs == |f.tree.seen|
  }

  lemma EmitGains(env: Decoders, e: Emission, f: Emission, found: Blob, layer: nat)
    requires Gained(e, f)
    ensures Gained(e, Emit(env, f, found, layer))
  {
    var b := Clamped(found, MAX_BLOB);
    if b !in f.tree.seen {
      BytesOfOneMore(f.tree.seen, b);
    }
    hide Bytes;
    var g := Emit(env, f, found, layer);
    if g.children != f.children {
      assert g.streams == e.streams + g.children;
    }
  }

  lemma {:induction false} EmitAllGains(env: Decoders, e: Emission, found: seq<Blob>, layer: nat)
    requires Gained(e, e)
    ensures Gained(e, EmitAll(env, e, found, layer))
  {
    hide Gained, Emit;
    if found != [] {
      EmitAllGains(env, e, found[..|found| - 1], layer);
      EmitGains(env, e, EmitAll(env, e, found[..|found| - 1], layer), found[|found| - 1], layer);
    }
  }

  /** Everything emitted is made from something found. */
  lemma {:induction false} EmittedIsFound(env: Decoders, e: Emission, found: seq<Blob>, layer: nat)
    ensures forall x :: x in EmitAll(env, e, found, layer).children && x !in e.children ==>
              exists i :: 0 <= i < |found| && MadeFrom(found[i], x)
  {
    if found != [] {
      var front, last := found[..|found| - 1], found[|found| - 1];
      EmittedIsFound(env, e, front, layer);
      var f := EmitAll(env, e, front, layer);
      forall x | x in EmitAll(env, e, found, layer).children && x !in e.children
        ensures exists i :: 0 <= i < |found| && MadeFrom(found[i], x)
      {
        if x in f.children {
          var i :| 0 <= i < |front| && MadeFrom(front[i], x);
          assert found[i] == front[i];
        } else {
          assert MadeFrom(found[|found| - 1], x);
        }
      }
    }
  }

  /** The budgets of the source suffice for all of `reach`. */
  ghost predicate Affords(reach: set<Blob>, iterations: nat) {
    |reach| < MAX_BLOBS && |reach| < iterations && Bytes(reach) < MAX_DECODED
  }

  ghost predicate AdmitsAll(env: Decoders) {
    forall s, b :: env.admits(s, b)
  }

  lemma EmitIsNotStopped(env: Decoders, e: Emission, found: Blob, layer: nat, reach: set<Blob>)
    requires e.more && e.tree.blobs == |e.tree.seen| && e.tree.cum == Bytes(e.tree.seen) && e.tree.seen <= reach
    requires |reach| < MAX_BLOBS && Bytes(reach) < MAX_DECODED && AdmitsAll(env) && |e.streams| < env.maxStreams
    requires forall b :: MadeFrom(found, b) ==> b in reach
    ensures var f := Emit(env, e, found, layer); f.more && forall b :: MadeFrom(found, b) ==> b in f.tree.seen
  {
    var b := Clamped(found, MAX_BLOB);
    if |found| >= MIN_DECODED && b !in e.tree.seen {
      assert MadeFrom(found, b);
      BytesOfOneMore(e.tree.seen, b);
      BytesOfFewer(e.tree.seen + {b}, reach);
    }
  }

  /** When the budgets suffice, the decoder chain is not stopped and everything it finds is seen. */
  lemma {:induction false} EmitAllIsNotStopped(env: Decoders, e: Emission, found: seq<Blob>, layer: nat,
                                               reach: set<Blob>)
    requires Gained(e, e) && e.more && AdmitsAll(env) && |reach| < MAX_BLOBS && Bytes(reach) < MAX_DECODED
    requires e.tree.seen <= reach && forall i, b :: 0 <= i < |found| && MadeFrom(found[i], b) ==> b in reach
    requires |EmitAll(env, e, found, layer).streams| < env.maxStreams
    ensures var f := EmitAll(env, e, found, layer);
            && f.more && f.tree.seen <= reach
            && forall i, b :: 0 <= i < |found| && MadeFrom(found[i], b) ==> b in f.tree.seen
  {
    hide Bytes, Emit;
    if found != [] {
      var front, last := found[..|found| - 1], found[|found| - 1];
      var f := EmitAll(env, e, front, layer);
      EmitOnlyAdds(env, f, last, layer);
      EmitAllIsNotStopped(env, e, front, layer, reach);
      EmitAllGains(env, e, front, layer);
      EmitIsNotStopped(env, f, last, layer, reach);
      var g := EmitAll(env, e, found, layer);
      assert g == Emit(env, f, last, layer);
      forall i, b | 0 <= i < |found| && MadeFrom(found[i], b) ensures b in g.tree.seen {
        if i < |front| {
          assert front[i] == found[i];
        }
      }
    }
  }

  /** What is found at a place is new: long enough, not seen before, and not found earlier. */
  ghost function NewAt(seen: set<Blob>, found: seq<Blob>): nat -> bool {
    (i: nat) => i < |found| && |found[i]| >= MIN_DECODED && Cut(found[i]) !in seen
                && forall k :: 0 <= k < i && |found[k]| >= MIN_DECODED ==> Cut(found[k]) != Cut(found[i])
  }

  /** A budget has no room for the blob. */
  predicate NoRoomFor(env: Decoders, tree: Tree, streams: seq<Blob>, b: Blob) {
    || tree.blobs >= MAX_BLOBS || tree.cum + |b| > MAX_DECODED
    || |streams| >= env.maxStreams || !env.admits(streams, b)
  }

  /** `f` has emitted what is new among the first `n` found, in order, and was stopped there if anywhere. */
  ghost predicate EmittedUpTo(env: Decoders, e: Emission, f: Emission, found: seq<Blob>, n: nat) {
    && n <= |found| && (f.more <==> n == |found|)
    && (n < |found| ==> NewAt(e.tree.seen, found)(n) && NoRoomFor(env, f.tree, f.streams, Cut(found[n])))
    && var places := Picked(n, NewAt(e.tree.seen, found));
    && |f.children| == |places|
    && forall k :: 0 <= k < |places| ==> places[k] < n && f.children[k] == Cut(found[places[k]])
  }

  ghost predicate SeenUpTo(e: Emission, f: Emission, found: seq<Blob>, n: nat)
    requires n <= |found|
  {
    forall x :: x in f.tree.seen <==>
      x in e.tree.seen || exists k :: 0 <= k < n && |found[k]| >= MIN_DECODED && x == Cut(found[k])
  }

  lemma NewInFront(seen: set<Blob>, found: seq<Blob>, n: nat)
    requires n <= |found| - 1
    ensures Picked(n, NewAt(seen, found)) == Picked(n, NewAt(seen, found[..|found| - 1]))
    ensures n < |found| - 1 ==> (NewAt(seen, found)(n) <==> NewAt(seen, found[..|found| - 1])(n))
  {
    var front := found[..|found| - 1];
    forall i: nat | i < |front| ensures NewAt(seen, found)(i) <==> NewAt(seen, front)(i) {
      assert forall k :: 0 <= k <= i ==> front[k] == found[k];
    }
    PickedAlike(n, NewAt(seen, found), NewAt(seen, front));
  }

  /** The decoder chain emits what is new, in the order in which it is found, up to the first new blob for which a
      budget has no room; then it stops. */
  lemma {:induction false} EmitsInOrder(env: Decoders, e: Emission, found: seq<Blob>, layer: nat) returns (n: nat)
    requires e.more && e.children == []
    ensures EmittedUpTo(env, e, EmitAll(env, e, found, layer), found, n)
    ensures EmitAll(env, e, found, layer).more ==> SeenUpTo(e, EmitAll(env, e, found, layer), found, |found|)
  {
    if found == [] {
      n := 0;
    } else {
      var front, last := found[..|found| - 1], found[|found| - 1];
      n := EmitsInOrder(env, e, front, layer);
      var f := EmitAll(env, e, front, layer);
      NewInFront(e.tree.seen, found, n);
      EmittedInFront(env, e, f, found, n);
      if f.more {
        NewIsUnseen(e, f, found);
        n := EmitOneMore(env, e, f, found, layer);
      }
    }
  }

  lemma EmittedInFront(env: Decoders, e: Emission, f: Emission, found: seq<Blob>, n: nat)
    requires found != [] && EmittedUpTo(env, e, f, found[..|found| - 1], n)
    ensures !f.more ==> EmittedUpTo(env, e, f, found, n)
    ensures f.more ==> n == |found| - 1
  {
    NewInFront(e.tree.seen, found, n);
    hide NewAt, Picked;
  }

  /** At the last place, being new means not being seen yet. */
  lemma NewIsUnseen(e: Emission, f: Emission, found: seq<Blob>)
    requires found != [] && SeenUpTo(e, f, found[..|found| - 1], |found| - 1)
    ensures var i := |found| - 1;
            NewAt(e.tree.seen, found)(i) <==> |found[i]| >= MIN_DECODED && Cut(found[i]) !in f.tree.seen
    ensures SeenUpTo(e, f, found, |found| - 1)
  {
    var front := found[..|found| - 1];
    assert forall k :: 0 <= k < |front| ==> front[k] == found[k];
  }

  lemma EmitOneMore(env: Decoders, e: Emission, f: Emission, found: seq<Blob>, layer: nat) returns (n: nat)
    requires found != [] && f.more && EmittedUpTo(env, e, f, found[..|found| - 1], |found| - 1)
    requires SeenUpTo(e, f, found, |found| - 1)
    requires var i := |found| - 1;
             NewAt(e.tree.seen, found)(i) <==> |found[i]| >= MIN_DECODED && Cut(found[i]) !in f.tree.seen
    ensures var g := Emit(env, f, found[|found| - 1], layer);
            EmittedUpTo(env, e, g, found, n) && (g.more ==> SeenUpTo(e, g, found, |found|))
  {
    var i := |found| - 1;
    var g := Emit(env, f, found[i], layer);
    NewInFront(e.tree.seen, found, i);
    assert Clamped(found[i], MAX_BLOB) == Cut(found[i]);
    hide NewAt;
    n := if g.more then |found| else i;
    assert Picked(|found|, NewAt(e.tree.seen, found))
        == Picked(i, NewAt(e.tree.seen, found)) + if NewAt(e.tree.seen, found)(i) then [i] else [];
  }

  lemma EmitOnlyAdds(env: Decoders, e: Emission, found: Blob, layer: nat)
    ensures var f := Emit(env, e, found, layer);
            && e.streams <= f.streams && e.tree.seen <= f.tree.seen
            && forall x :: x in f.tree.seen ==> x in e.tree.seen || MadeFrom(found, x)
  {
  }

  /* ---------------------------------------------------------------- children */

  /** The queued children are exactly the ones that look encoded, in order of emission. */
  lemma {:induction false} ChildrenExactly(env: Decoders, children: seq<Blob>, depth: nat, src: nat)
    ensures var items := Children(env, children, depth, src);
            exists places ::
              && Picks(places, |children|, LooksAt(env, children)) && |items| == |places|
              && forall k :: 0 <= k < |places| ==>
                   places[k] < |children| && items[k] == Item(children[places[k]], depth, src)
  {
    var keep := LooksAt(env, children);
    var places := Picked(|children|, keep);
    PickedPicks(|children|, keep);
    ChildrenOfPrefix(env, children, depth, src, |children|);
    assert children[..|children|] == children;
  }

  ghost function LooksAt(env: Decoders, children: seq<Blob>): nat -> bool {
    (i: nat) => i < |children| && env.looksEncoded(children[i])
  }

  lemma {:induction false} ChildrenOfPrefix(env: Decoders, children: seq<Blob>, depth: nat, src: nat, n: nat)
    requires n <= |children|
    ensures var p := Picked(n, LooksAt(env, children));
            var items := Children(env, children[..n], depth, src);
            && |items| == |p|
            && forall k :: 0 <= k < |p| ==> p[k] < n && items[k] == Item(children[p[k]], depth, src)
  {
    if n > 0 {
      ChildrenOfPrefix(env, children, depth, src, n - 1);
      assert children[..n][..n - 1] == children[..n - 1];
    }
  }

  /** A child is queued exactly when it looks encoded. */
  lemma QueuedExactly(env: Decoders, children: seq<Blob>, depth: nat, src: nat, item: Item)
    ensures item in Children(env, children, depth, src) <==>
            item.depth == depth && item.src == src && item.data in children && env.looksEncoded(item.data)
  {
    ChildrenExactly(env, children, depth, src);
    var items := Children(env, children, depth, src);
    var places :|
      && Picks(places, |children|, LooksAt(env, children)) && |items| == |places|
      && forall k :: 0 <= k < |places| ==> places[k] < |children| && items[k] == Item(children[places[k]], depth, src);
    if item in items {
      var k :| 0 <= k < |items| && items[k] == item;
      assert places[k] in places;
    }
    if item.depth == depth && item.src == src && item.data in children && env.looksEncoded(item.data) {
      var i :| 0 <= i < |children| && children[i] == item.data;
      assert LooksAt(env, children)(i);
      assert i in places;
      var k :| 0 <= k < |places| && places[k] == i;
      assert items[k] == item;
    }
  }

  /* ---------------------------------------------------------------- one turn, from outside */

  /** Every source's books are right. */
  ghost predicate Booked(w: Walk) {
    forall i :: 0 <= i < |w.trees| ==> BookedTree(w.trees[i])
  }

  ghost predicate BookedTree(t: Tree) {
    t.cum == Bytes(t.seen) && t.blobs == |t.seen|
  }

  lemma EmittedGains(env: Decoders, w: Walk)
    requires w.queue != [] && w.queue[0].src < |w.trees| && Booked(w)
    ensures var t, e := w.trees[w.queue[0].src], Emitted(env, w);
            && BookedTree(e.tree) && e.streams == w.streams + e.children && e.tree.iters == t.iters + 1
            && (forall x :: x in e.tree.seen <==> x in t.seen || x in e.children)
            && (forall x :: x in e.children ==> Product(env, w.queue[0].data, x))
            && e.tree.maxLayer == (if e.children == [] || w.queue[0].depth + 1 <= t.maxLayer then t.maxLayer
                                   else w.queue[0].depth + 1)
  {
    hide Bytes;
    var cur, t := w.queue[0], w.trees[w.queue[0].src];
    var start := Emission(t.(iters := t.iters + 1), w.streams, [], true);
    assert Gained(start, start);
    EmitAllGains(env, start, env.candidates(cur.data), cur.depth + 1);
    EmittedIsFound(env, start, env.candidates(cur.data), cur.depth + 1);
    LayerIsNoted(env, start, env.candidates(cur.data), cur.depth + 1);
  }

  lemma {:induction false} LayerIsNoted(env: Decoders, e: Emission, found: seq<Blob>, layer: nat)
    requires e.children == []
    ensures var f := EmitAll(env, e, found, layer);
            f.tree.maxLayer == if f.children == [] || layer <= e.tree.maxLayer then e.tree.maxLayer else layer
  {
    if found != [] {
      LayerIsNoted(env, e, found[..|found| - 1], layer);
    }
  }

  lemma TurnIsBooked(env: Decoders, w: Walk, depth: nat, iterations: nat)
    requires w.queue != [] && w.queue[0].src < |w.trees| && Booked(w)
    ensures Booked(Turn(env, w, depth, iterations))
  {
    hide BookedTree, Emitted;
    EmittedGains(env, w);
  }

  /** The new streams are the blobs that the sources have seen. */
  ghost predicate Streamed(w: Walk, streams: seq<Blob>) {
    && streams <= w.streams
    && forall x :: x in w.streams[|streams|..] <==> SeenBySome(w.trees, x)
  }

  ghost predicate SeenBySome(trees: seq<Tree>, x: Blob) {
    exists i :: 0 <= i < |trees| && x in trees[i].seen
  }

  lemma TurnIsStreamed(env: Decoders, w: Walk, streams: seq<Blob>, depth: nat, iterations: nat)
    requires w.queue != [] && w.queue[0].src < |w.trees| && Booked(w) && Streamed(w, streams)
    ensures Streamed(Turn(env, w, depth, iterations), streams)
  {
    hide BookedTree, Emitted;
    EmittedGains(env, w);
    var v := Turn(env, w, depth, iterations);
    if !Skipped(env, w, iterations) {
      var src, e := w.queue[0].src, Emitted(env, w);
      assert v.streams[|streams|..] == w.streams[|streams|..] + e.children;
      forall x ensures SeenBySome(v.trees, x) <==> SeenBySome(w.trees, x) || x in e.children {
        if SeenBySome(w.trees, x) {
          var i :| 0 <= i < |w.trees| && x in w.trees[i].seen;
          assert x in v.trees[i].seen;
        }
        if x in e.children {
          assert x in v.trees[src].seen;
        }
        if SeenBySome(v.trees, x) {
          var i :| 0 <= i < |v.trees| && x in v.trees[i].seen;
          assert i == src || x in w.trees[i].seen;
          assert i == src ==> x in w.trees[src].seen || x in e.children;
        }
      }
    }
  }

  /* ---------------------------------------------------------------- nothing else is found */

  ghost predicate FromSource(env: Decoders, source: Blob, depth: nat, item: Item) {
    && item.depth < depth && Reach(env, source, item.depth, item.data)
    && (item.depth > 0 ==> env.looksEncoded(item.data))
  }

  /** What the walk has seen for a source lies under it, down to the noted layer and no deeper. */
  ghost predicate TracedTree(env: Decoders, t: Tree, source: Blob, depth: nat) {
    && t.maxLayer <= depth
    && (forall b :: b in t.seen ==> Within(env, source, t.maxLayer, b))
    && (t.maxLayer > 0 ==> exists b :: b in t.seen && Reach(env, source, t.maxLayer, b))
  }

  /** What the walk does for source `i` can be traced back to it. */
  ghost predicate Traced(env: Decoders, w: Walk, source: Blob, i: nat, depth: nat) {
    && i < |w.trees| && TracedTree(env, w.trees[i], source, depth)
    && forall k :: 0 <= k < |w.queue| && w.queue[k].src == i ==> FromSource(env, source, depth, w.queue[k])
  }

  lemma OneLayerMore(env: Decoders, source: Blob, n: nat, a: Blob, b: Blob)
    requires Reach(env, source, n, a) && (n == 0 || Inviting(env, a)) && Product(env, a, b)
    ensures Reach(env, source, n + 1, b)
  {
  }

  lemma EmittedIsTraced(env: Decoders, w: Walk, source: Blob, depth: nat)
    requires w.queue != [] && w.queue[0].src < |w.trees| && Booked(w)
    requires TracedTree(env, w.trees[w.queue[0].src], source, depth) && FromSource(env, source, depth, w.queue[0])
    requires w.queue[0].depth == 0 || Inviting(env, w.queue[0].data)
    ensures TracedTree(env, Emitted(env, w).tree, source, depth)
    ensures forall b :: b in Emitted(env, w).children ==> Reach(env, source, w.queue[0].depth + 1, b)
  {
    hide BookedTree, Emitted, Reach, Product;
    EmittedGains(env, w);
    var cur, t, e := w.queue[0], w.trees[w.queue[0].src], Emitted(env, w);
    forall b | b in e.children ensures Reach(env, source, cur.depth + 1, b) {
      OneLayerMore(env, source, cur.depth, cur.data, b);
    }
    forall b | b in e.tree.seen ensures Within(env, source, e.tree.maxLayer, b) {
      if b in t.seen {
        var n :| 1 <= n <= t.maxLayer && Reach(env, source, n, b);
      }
    }
    if e.tree.maxLayer != t.maxLayer {
      var b := e.children[0];
      assert b in e.children;
      assert b in e.tree.seen && Reach(env, source, e.tree.maxLayer, b);
    } else if t.maxLayer > 0 {
      var b :| b in t.seen && Reach(env, source, t.maxLayer, b);
      assert b in e.tree.seen;
    }
  }

  lemma TurnIsTraced(env: Decoders, w: Walk, source: Blob, i: nat, depth: nat, iterations: nat)
    requires w.queue != [] && w.queue[0].src < |w.trees| && Booked(w) && Traced(env, w, source, i, depth)
    ensures Traced(env, Turn(env, w, depth, iterations), source, i, depth)
  {
    hide Booked, Emitted, Reach, Children, TracedTree;
    var cur, v, e := w.queue[0], Turn(env, w, depth, iterations), Emitted(env, w);
    if !Skipped(env, w, iterations) {
      if cur.src == i {
        EmittedIsTraced(env, w, source, depth);
      }
      forall k | 0 <= k < |v.queue| && v.queue[k].src == i ensures FromSource(env, source, depth, v.queue[k]) {
        if k < |w.queue| - 1 {
          assert v.queue[k] == w.queue[k + 1];
        } else {
          QueuedExactly(env, e.children, cur.depth + 1, cur.src, v.queue[k]);
        }
      }
    }
  }

  /* ---------------------------------------------------------------- nothing is missed */

  ghost predicate Queued(queue: seq<Item>, i: nat, n: nat, a: Blob) {
    exists k :: 0 <= k < |queue| && queue[k].src == i && queue[k].data == a && queue[k].depth <= n
  }

  ghost predicate Expanded(env: Decoders, seen: set<Blob>, a: Blob) {
    forall b :: Product(env, a, b) ==> b in seen
  }

  /** Whatever is to be decoded again is still in the queue, early enough, or has been decoded. */
  ghost predicate Covered(env: Decoders, w: Walk, source: Blob, i: nat, depth: nat)
    requires i < |w.trees|
  {
    forall n: nat, a :: n < depth && Reach(env, source, n, a) && (n == 0 || (a in w.trees[i].seen && Inviting(env, a)))
      ==> Queued(w.queue, i, n, a) || Expanded(env, w.trees[i].seen, a)
  }

  /** While the queue starts at layer `least`, everything up to that layer has been seen. */
  lemma {:induction false} ShallowIsSeen(env: Decoders, w: Walk, source: Blob, i: nat, depth: nat, least: nat, n: nat,
                                         b: Blob)
    requires i < |w.trees| && Covered(env, w, source, i, depth)
    requires forall k :: 0 <= k < |w.queue| ==> w.queue[k].depth >= least
    requires 1 <= n <= least && n <= depth && Reach(env, source, n, b)
    ensures b in w.trees[i].seen
    decreases n
  {
    hide Product, Inviting;
    var a :| Reach(env, source, n - 1, a) && (n == 1 || Inviting(env, a)) && Product(env, a, b);
    if n > 1 {
      ShallowIsSeen(env, w, source, i, depth, least, n - 1, a);
    }
    assert !Queued(w.queue, i, n - 1, a);
  }

  /** Items of source `i` in the queue. */
  function Waiting(queue: seq<Item>, i: nat): nat {
    if queue == [] then 0
    else Waiting(queue[..|queue| - 1], i) + if queue[|queue| - 1].src == i then 1 else 0
  }

  lemma {:induction false} WaitingAppends(a: seq<Item>, b: seq<Item>, i: nat)
    ensures Waiting(a + b, i) == Waiting(a, i) + Waiting(b, i) && Waiting(b, i) <= |b|
  {
    if b == [] {
      assert a + b == a;
    } else {
      WaitingAppends(a, b[..|b| - 1], i);
      assert (a + b)[..|a + b| - 1] == a + b[..|b| - 1];
    }
  }

  lemma WaitingPops(queue: seq<Item>, i: nat)
    requires queue != []
    ensures Waiting(queue, i) == Waiting(queue[1..], i) + if queue[0].src == i then 1 else 0
  {
    assert queue == [queue[0]] + queue[1..];
    WaitingAppends([queue[0]], queue[1..], i);
    assert [queue[0]][..0] == [];
  }

  /** No item waits for its turn in vain: a source takes no more turns than it has seen blobs, and one. */
  ghost predicate InTime(w: Walk, i: nat)
    requires i < |w.trees|
  {
    w.trees[i].iters + Waiting(w.queue, i) <= 1 + w.trees[i].blobs
  }

  /** `reach` has everything that lies at most `depth` layers under the source. */
  ghost predicate Spans(env: Decoders, source: Blob, depth: nat, reach: set<Blob>) {
    forall n, b :: 1 <= n <= depth && Reach(env, source, n, b) ==> b in reach
  }

  /** Where the walk stands with source `i`. */
  ghost predicate OnCourse(env: Decoders, w: Walk, source: Blob, i: nat, depth: nat) {
    && i < |w.trees|
    && Booked(w) && Traced(env, w, source, i, depth) && Covered(env, w, source, i, depth) && InTime(w, i)
    && Layered(w.queue) && forall k :: 0 <= k < |w.queue| ==> w.queue[k].depth < depth
  }

  lemma SeenIsReached(env: Decoders, w: Walk, source: Blob, i: nat, depth: nat, reach: set<Blob>)
    requires Traced(env, w, source, i, depth) && Spans(env, source, depth, reach)
    ensures w.trees[i].seen <= reach
  {
    hide Reach, FromSource;
    forall b | b in w.trees[i].seen ensures b in reach {
      assert Within(env, source, w.trees[i].maxLayer, b);
    }
  }

  /** A turn of source `i` whose budgets suffice is skipped only when its item is not worth it. */
  lemma SkippedExactly(env: Decoders, w: Walk, source: Blob, i: nat, depth: nat, iterations: nat, reach: set<Blob>)
    requires w.queue != [] && w.queue[0].src == i && OnCourse(env, w, source, i, depth)
    requires Spans(env, source, depth, reach) && Affords(reach, iterations)
    ensures Skipped(env, w, iterations) ==> w.queue[0].depth > 0 && !Inviting(env, w.queue[0].data)
  {
    hide Reach, FromSource, Covered, Layered, Spans;
    SeenIsReached(env, w, source, i, depth, reach);
    BytesOfFewer(w.trees[i].seen, reach);
    WaitingPops(w.queue, i);
    hide Bytes, Waiting;
    assert BookedTree(w.trees[i]);
  }

  /** A turn of source `i` whose budgets suffice sees everything that its item decodes to. */
  lemma TurnExpands(env: Decoders, w: Walk, source: Blob, i: nat, depth: nat, iterations: nat, reach: set<Blob>)
    requires w.queue != [] && w.queue[0].src == i && OnCourse(env, w, source, i, depth)
    requires Spans(env, source, depth, reach) && Affords(reach, iterations) && AdmitsAll(env)
    requires !Skipped(env, w, iterations) && |Emitted(env, w).streams| < env.maxStreams
    ensures Expanded(env, Emitted(env, w).tree.seen, w.queue[0].data)
  {
    hide Reach, Covered, Layered, Bytes, Waiting;
    var cur, t := w.queue[0], w.trees[i];
    var start := Emission(t.(iters := t.iters + 1), w.streams, [], true);
    assert BookedTree(t);
    SeenIsReached(env, w, source, i, depth, reach);
    assert FromSource(env, source, depth, cur);
    forall k, b | 0 <= k < |env.candidates(cur.data)| && MadeFrom(env.candidates(cur.data)[k], b) ensures b in reach {
      assert Product(env, cur.data, b);
      OneLayerMore(env, source, cur.depth, cur.data, b);
    }
    EmitAllIsNotStopped(env, start, env.candidates(cur.data), cur.depth + 1, reach);
  }

  lemma QueuedElsewhere(w: Walk, v: Walk, i: nat, n: nat, a: Blob)
    requires w.queue != [] && Queued(w.queue, i, n, a) && w.queue[1..] <= v.queue
    ensures (w.queue[0].src == i && w.queue[0].data == a && w.queue[0].depth <= n) || Queued(v.queue, i, n, a)
  {
    var k :| 0 <= k < |w.queue| && w.queue[k].src == i && w.queue[k].data == a && w.queue[k].depth <= n;
    if k > 0 {
      assert v.queue[k - 1] == w.queue[k];
    }
  }

  /** A turn of another source changes nothing for source `i`. */
  lemma OtherTurnCovers(env: Decoders, w: Walk, source: Blob, i: nat, depth: nat, iterations: nat)
    requires w.queue != [] && w.queue[0].src < |w.trees| && w.queue[0].src != i && OnCourse(env, w, source, i, depth)
    ensures Covered(env, Turn(env, w, depth, iterations), source, i, depth)
  {
    hide Reach, Traced, Layered, Booked, Emitted, Children, Inviting, Product, Queued, Skipped, InTime;
    var v := Turn(env, w, depth, iterations);
    assert v.trees[i] == w.trees[i] && w.queue[1..] <= v.queue;
    forall n: nat, a | n < depth && Reach(env, source, n, a) && (n == 0 || (a in v.trees[i].seen && Inviting(env, a)))
      ensures Queued(v.queue, i, n, a) || Expanded(env, v.trees[i].seen, a)
    {
      if Queued(w.queue, i, n, a) {
        QueuedElsewhere(w, v, i, n, a);
      }
    }
  }

  lemma SkippedTurnCovers(env: Decoders, w: Walk, source: Blob, i: nat, depth: nat, iterations: nat, reach: set<Blob>)
    requires w.queue != [] && w.queue[0].src == i && OnCourse(env, w, source, i, depth)
    requires Spans(env, source, depth, reach) && Affords(reach, iterations) && Skipped(env, w, iterations)
    ensures Covered(env, Turn(env, w, depth, iterations), source, i, depth)
  {
    SkippedExactly(env, w, source, i, depth, iterations, reach);
    hide Reach, Traced, Layered, Booked, Emitted, Children, Inviting, Product, Queued, Skipped, InTime, Spans, Affords;
    var v := Turn(env, w, depth, iterations);
    forall n: nat, a | n < depth && Reach(env, source, n, a) && (n == 0 || (a in v.trees[i].seen && Inviting(env, a)))
      ensures Queued(v.queue, i, n, a) || Expanded(env, v.trees[i].seen, a)
    {
      if Queued(w.queue, i, n, a) {
        QueuedElsewhere(w, v, i, n, a);
      }
    }
  }

  /** What a turn newly sees lies exactly one layer deeper than its item, so it is queued early enough. */
  lemma NewIsQueued(env: Decoders, w: Walk, source: Blob, i: nat, depth: nat, iterations: nat, n: nat, a: Blob)
    requires w.queue != [] && w.queue[0].src == i && OnCourse(env, w, source, i, depth) && !Skipped(env, w, iterations)
    requires 1 <= n < depth && Reach(env, source, n, a) && Inviting(env, a)
    requires a in Emitted(env, w).children && a !in w.trees[i].seen
    ensures Queued(Turn(env, w, depth, iterations).queue, i, n, a)
  {
    hide Reach, Traced, Booked, Emitted, Product, InTime, Children;
    var cur, e, v := w.queue[0], Emitted(env, w), Turn(env, w, depth, iterations);
    if n <= cur.depth {
      FirstIsLeast(w.queue);
      ShallowIsSeen(env, w, source, i, depth, cur.depth, n, a);
    }
    var item := Item(a, cur.depth + 1, i);
    QueuedExactly(env, e.children, cur.depth + 1, i, item);
    var next := Children(env, e.children, cur.depth + 1, i);
    var k :| 0 <= k < |next| && next[k] == item;
    assert v.queue[|w.queue| - 1 + k] == item;
  }

  lemma FirstIsLeast(queue: seq<Item>)
    requires queue != [] && Layered(queue)
    ensures forall k :: 0 <= k < |queue| ==> queue[k].depth >= queue[0].depth
  {
  }

  lemma OwnTurnCovers(env: Decoders, w: Walk, source: Blob, i: nat, depth: nat, iterations: nat, reach: set<Blob>)
    requires w.queue != [] && w.queue[0].src == i && OnCourse(env, w, source, i, depth)
    requires Spans(env, source, depth, reach) && Affords(reach, iterations) && AdmitsAll(env)
    requires !Skipped(env, w, iterations) && |Turn(env, w, depth, iterations).streams| < env.maxStreams
    ensures Covered(env, Turn(env, w, depth, iterations), source, i, depth)
  {
    TurnExpands(env, w, source, i, depth, iterations, reach);
    EmittedGains(env, w);
    hide Reach, Traced, Layered, Emitted, Children, Inviting, Product, Queued, Skipped, InTime, Spans, Affords, Booked,
         BookedTree;
    var v, e := Turn(env, w, depth, iterations), Emitted(env, w);
    assert v.trees[i] == e.tree && w.queue[1..] <= v.queue;
    forall n: nat, a | n < depth && Reach(env, source, n, a) && (n == 0 || (a in v.trees[i].seen && Inviting(env, a)))
      ensures Queued(v.queue, i, n, a) || Expanded(env, v.trees[i].seen, a)
    {
      if n > 0 && a !in w.trees[i].seen {
        NewIsQueued(env, w, source, i, depth, iterations, n, a);
      } else if Queued(w.queue, i, n, a) {
        QueuedElsewhere(w, v, i, n, a);
      }
    }
  }

  lemma TurnStaysInTime(env: Decoders, w: Walk, i: nat, depth: nat, iterations: nat)
    requires w.queue != [] && w.queue[0].src < |w.trees| && i < |w.trees| && Booked(w) && InTime(w, i)
    ensures InTime(Turn(env, w, depth, iterations), i)
  {
    hide Emitted, Children, Waiting, Booked, Skipped;
    var cur := w.queue[0];
    WaitingPops(w.queue, i);
    if !Skipped(env, w, iterations) {
      var e := Emitted(env, w);
      EmittedGains(env, w);
      ManyChildren(env, w);
      NewlyWaiting(env, e.children, cur.depth + 1, cur.src, i);
      WaitingAppends(w.queue[1..], Children(env, e.children, cur.depth + 1, cur.src), i);
      WaitingAppends(w.queue[1..], [], i);
    }
  }

  lemma NewlyWaiting(env: Decoders, children: seq<Blob>, depth: nat, src: nat, i: nat)
    ensures Waiting(Children(env, children, depth, src), i) <= (if src == i then |children| else 0)
    ensures Waiting([], i) == 0
  {
    hide Children;
    var next := Children(env, children, depth, src);
    ChildrenAre(env, children, depth, src);
    WaitingAppends([], next, i);
    if src != i {
      NoneWaiting(next, i);
    }
  }

  lemma {:induction false} NoneWaiting(items: seq<Item>, i: nat)
    requires forall k :: 0 <= k < |items| ==> items[k].src != i
    ensures Waiting(items, i) == 0
  {
    if items != [] {
      NoneWaiting(items[..|items| - 1], i);
    }
  }

  /** Every child is a blob that the source had not seen. */
  lemma ManyChildren(env: Decoders, w: Walk)
    requires w.queue != [] && w.queue[0].src < |w.trees| && Booked(w)
    ensures Emitted(env, w).tree.blobs == w.trees[w.queue[0].src].blobs + |Emitted(env, w).children|
  {
    var cur, t := w.queue[0], w.trees[w.queue[0].src];
    var start := Emission(t.(iters := t.iters + 1), w.streams, [], true);
    EachChildCounts(env, start, env.candidates(cur.data), cur.depth + 1);
  }

  lemma {:induction false} EachChildCounts(env: Decoders, e: Emission, found: seq<Blob>, layer: nat)
    ensures var f := EmitAll(env, e, found, layer); f.tree.blobs - e.tree.blobs == |f.children| - |e.children|
  {
    if found != [] {
      EachChildCounts(env, e, found[..|found| - 1], layer);
    }
  }

  lemma TurnStaysOnCourse(env: Decoders, w: Walk, source: Blob, i: nat, depth: nat, iterations: nat, reach: set<Blob>)
    requires w.queue != [] && w.queue[0].src < |w.trees| && OnCourse(env, w, source, i, depth)
    requires Spans(env, source, depth, reach) && Affords(reach, iterations) && AdmitsAll(env)
    requires |Turn(env, w, depth, iterations).streams| < env.maxStreams
    ensures OnCourse(env, Turn(env, w, depth, iterations), source, i, depth)
  {
    hide Turn, Traced, Covered, Booked, InTime, Layered, Spans, Affords, AdmitsAll, Skipped;
    TurnIsBooked(env, w, depth, iterations);
    TurnIsTraced(env, w, source, i, depth, iterations);
    TurnLayers(env, w, depth, iterations);
    TurnStaysInTime(env, w, i, depth, iterations);
    TracedInside(env, Turn(env, w, depth, iterations), source, i, depth);
    if w.queue[0].src != i {
      OtherTurnCovers(env, w, source, i, depth, iterations);
    } else if Skipped(env, w, iterations) {
      SkippedTurnCovers(env, w, source, i, depth, iterations, reach);
    } else {
      OwnTurnCovers(env, w, source, i, depth, iterations, reach);
    }
  }

  lemma TracedInside(env: Decoders, w: Walk, source: Blob, i: nat, depth: nat)
    requires Traced(env, w, source, i, depth)
    ensures i < |w.trees|
  {
  }

  /* ---------------------------------------------------------------- the walk */

  lemma {:induction false} RunStaysOnCourse(env: Decoders, w: Walk, source: Blob, i: nat, depth: nat, iterations: nat,
                                            reach: set<Blob>)
    requires Sound(w, iterations) && OnCourse(env, w, source, i, depth)
    requires Spans(env, source, depth, reach) && Affords(reach, iterations) && AdmitsAll(env)
    requires |Run(env, w, depth, iterations).streams| < env.maxStreams
    ensures OnCourse(env, Run(env, w, depth, iterations), source, i, depth)
    ensures Run(env, w, depth, iterations).queue == []
    decreases |w.queue| + Room(w.trees)
  {
    hide Turn, Sound, Room, OnCourse, Spans, Affords, AdmitsAll;
    RunKeeps(env, w, depth, iterations);
    if w.queue != [] {
      SourceExists(w, iterations);
      TurnKeeps(env, w, depth, iterations);
      RunKeeps(env, Turn(env, w, depth, iterations), depth, iterations);
      TurnStaysOnCourse(env, w, source, i, depth, iterations, reach);
      RunStaysOnCourse(env, Turn(env, w, depth, iterations), source, i, depth, iterations, reach);
    }
  }

  lemma {:induction false} RunIsTraced(env: Decoders, w: Walk, streams: seq<Blob>, source: Blob, i: nat, depth: nat,
                                       iterations: nat)
    requires Sound(w, iterations) && Booked(w) && Streamed(w, streams) && Traced(env, w, source, i, depth)
    ensures var v := Run(env, w, depth, iterations); Streamed(v, streams) && Traced(env, v, source, i, depth)
    decreases |w.queue| + Room(w.trees)
  {
    hide Turn, Sound, Room, Booked, Streamed, Traced;
    if w.queue != [] && |w.streams| < env.maxStreams {
      SourceExists(w, iterations);
      TurnKeeps(env, w, depth, iterations);
      TurnIsBooked(env, w, depth, iterations);
      TurnIsStreamed(env, w, streams, depth, iterations);
      TurnIsTraced(env, w, source, i, depth, iterations);
      RunIsTraced(env, Turn(env, w, depth, iterations), streams, source, i, depth, iterations);
    }
  }

  lemma SeedIsTraced(env: Decoders, sources: seq<Blob>, streams: seq<Blob>, i: nat, depth: nat)
    requires i < |sources| && depth >= 1
    ensures var w := Seed(sources, streams);
            Booked(w) && Streamed(w, streams) && Traced(env, w, sources[i], i, depth)
  {
    NoBytes();
    hide Bytes;
    var w := Seed(sources, streams);
    assert w.streams[|streams|..] == [];
    forall k | 0 <= k < |w.queue| && w.queue[k].src == i ensures FromSource(env, sources[i], depth, w.queue[k]) {
      assert w.queue[k] == Item(sources[i], 0, i);
    }
  }

  lemma {:induction false} OneWaits(queue: seq<Item>, i: nat)
    requires forall k :: 0 <= k < |queue| ==> queue[k].src == k
    ensures Waiting(queue, i) <= 1 && (i >= |queue| ==> Waiting(queue, i) == 0)
  {
    if queue != [] {
      OneWaits(queue[..|queue| - 1], i);
    }
  }

  lemma SeedIsOnCourse(env: Decoders, sources: seq<Blob>, streams: seq<Blob>, i: nat, depth: nat)
    requires i < |sources| && depth >= 1
    ensures OnCourse(env, Seed(sources, streams), sources[i], i, depth)
  {
    SeedIsTraced(env, sources, streams, i, depth);
    hide Traced, Booked, Streamed, Inviting, Product;
    var w := Seed(sources, streams);
    OneWaits(w.queue, i);
    forall n: nat, a
      | n < depth && Reach(env, sources[i], n, a) && (n == 0 || (a in w.trees[i].seen && Inviting(env, a)))
      ensures Queued(w.queue, i, n, a)
    {
      assert w.queue[i] == Item(sources[i], 0, i);
    }
  }

  /** Every new stream is a blob that lies at most `depth` layers under one of the sources; whatever the budgets. */
  lemma {:induction false} NothingElseIsFound(env: Decoders, sources: seq<Blob>, streams: seq<Blob>, depth: int,
                                              iterations: int)
    ensures var all := Decoded(env, sources, streams, depth, iterations);
            && streams <= all
            && forall b :: b in all[|streams|..] ==> UnderSome(env, sources, Floor(depth), b)
  {
    hide Run, Traced, Streamed, Within, Booked;
    SeedIsSound(sources, streams, Floor(iterations));
    var w := Seed(sources, streams);
    RunKeeps(env, w, Floor(depth), Floor(iterations));
    var v := Run(env, w, Floor(depth), Floor(iterations));
    forall b | b in v.streams[|streams|..] ensures UnderSome(env, sources, Floor(depth), b) {
      if sources == [] {
        NoSources(env, streams, depth, iterations);
      } else {
        SeedIsTraced(env, sources, streams, 0, Floor(depth));
        RunIsTraced(env, w, streams, sources[0], 0, Floor(depth), Floor(iterations));
        SeenInStreams(v, streams, b);
        var i :| 0 <= i < |v.trees| && b in v.trees[i].seen;
        SeedIsTraced(env, sources, streams, i, Floor(depth));
        RunIsTraced(env, w, streams, sources[i], i, Floor(depth), Floor(iterations));
        SeenIsWithin(env, v, sources[i], i, Floor(depth), b);
      }
    }
  }

  lemma NoSources(env: Decoders, streams: seq<Blob>, depth: int, iterations: int)
    ensures Decoded(env, [], streams, depth, iterations) == streams
  {
  }

  lemma SeenInStreams(w: Walk, streams: seq<Blob>, b: Blob)
    requires Streamed(w, streams)
    ensures streams <= w.streams
    ensures b in w.streams[|streams|..] <==> exists i :: 0 <= i < |w.trees| && b in w.trees[i].seen
  {
  }

  lemma SeenIsWithin(env: Decoders, w: Walk, source: Blob, i: nat, depth: nat, b: Blob)
    requires Traced(env, w, source, i, depth) && b in w.trees[i].seen
    ensures Within(env, source, depth, b)
  {
    hide Reach, FromSource;
    assert Within(env, source, w.trees[i].maxLayer, b);
  }

  /** When the budgets of a source suffice for what lies under it, and the result is not full, nothing is missed: every
      blob at most `depth` layers under the source is among the new streams, whatever the other sources cost. */
  lemma {:induction false} NothingIsMissed(env: Decoders, sources: seq<Blob>, streams: seq<Blob>, depth: int,
                                           iterations: int, i: nat, reach: set<Blob>, b: Blob)
    requires i < |sources| && Spans(env, sources[i], Floor(depth), reach) && Affords(reach, Floor(iterations))
    requires AdmitsAll(env) && |Decoded(env, sources, streams, depth, iterations)| < env.maxStreams
    requires Within(env, sources[i], Floor(depth), b)
    ensures var all := Decoded(env, sources, streams, depth, iterations);
            streams <= all && b in all[|streams|..]
  {
    hide Run, Traced, Streamed, Booked, Covered, Reach, Spans, Affords, AdmitsAll, InTime;
    SeedIsSound(sources, streams, Floor(iterations));
    var w, source := Seed(sources, streams), sources[i];
    SeedIsTraced(env, sources, streams, i, Floor(depth));
    SeedIsOnCourse(env, sources, streams, i, Floor(depth));
    RunIsTraced(env, w, streams, source, i, Floor(depth), Floor(iterations));
    RunStaysOnCourse(env, w, source, i, Floor(depth), Floor(iterations), reach);
    var v := Run(env, w, Floor(depth), Floor(iterations));
    var n :| 1 <= n <= Floor(depth) && Reach(env, source, n, b);
    ShallowIsSeen(env, v, source, i, Floor(depth), Floor(depth), n, b);
    SeenInStreams(v, streams, b);
  }

  /** The walk finds exactly what lies at most `depth` layers under its sources, when their budgets suffice for it and
      the result is not full. */
  lemma FoundExactly(env: Decoders, sources: seq<Blob>, streams: seq<Blob>, depth: int, iterations: int,
                     reaches: seq<set<Blob>>, b: Blob)
    requires |reaches| == |sources|
    requires forall i :: 0 <= i < |sources| ==>
               Spans(env, sources[i], Floor(depth), reaches[i]) && Affords(reaches[i], Floor(iterations))
    requires AdmitsAll(env) && |Decoded(env, sources, streams, depth, iterations)| < env.maxStreams
    ensures var all := Decoded(env, sources, streams, depth, iterations);
            && streams <= all
            && (b in all[|streams|..] <==> UnderSome(env, sources, Floor(depth), b))
  {
    hide Decoded, Within, Spans, Affords, AdmitsAll;
    NothingElseIsFound(env, sources, streams, depth, iterations);
    if i :| 0 <= i < |sources| && Within(env, sources[i], Floor(depth), b) {
      NothingIsMissed(env, sources, streams, depth, iterations, i, reaches[i], b);
    }
  }

  /** The layer that is noted for a source is the deepest one from which something was decoded. */
  lemma NotedLayerIsDeepest(env: Decoders, sources: seq<Blob>, streams: seq<Blob>, depth: nat, iterations: nat, i: nat)
    requires i < |sources| && depth >= 1
    ensures Sound(Seed(sources, streams), iterations)
    ensures var v := Run(env, Seed(sources, streams), depth, iterations);
            && |v.trees| == |sources| && v.trees[i].maxLayer <= depth
            && (forall b :: b in v.trees[i].seen ==> Within(env, sources[i], v.trees[i].maxLayer, b))
            && (v.trees[i].maxLayer > 0 ==>
                  exists b :: b in v.trees[i].seen && Reach(env, sources[i], v.trees[i].maxLayer, b))
  {
    hide Run, Reach, Within, Booked, Streamed, FromSource;
    SeedIsSound(sources, streams, iterations);
    RunKeeps(env, Seed(sources, streams), depth, iterations);
    SeedIsTraced(env, sources, streams, i, depth);
    RunIsTraced(env, Seed(sources, streams), streams, sources[i], i, depth, iterations);
  }

  lemma {:induction false} WithinMore(env: Decoders, source: Blob, depth: nat, more: nat, b: Blob)
    requires Within(env, source, depth, b) && depth <= more
    ensures Within(env, source, more, b)
  {
    hide Reach;
  }

  /** A marked source has decoded something from the third layer or deeper; and one that has, where nothing shallower
      gives the same blob, is marked if there is room. */
  lemma MarkedMeansDeep(env: Decoders, sources: seq<Blob>, streams: seq<Blob>, depth: int, iterations: int, i: nat)
    requires i < |sources|
    ensures var w := DecodeMarkers.Walked(env, sources, streams, depth, iterations);
            var before := DecodeMarkers.MarkedUpTo(env, w.trees, w.streams, i);
            && (DecodeMarkers.IsMarked(env, w, i) ==>
                  exists n: nat, b :: n >= 3 && b in w.trees[i].seen && Reach(env, sources[i], n, b))
            && (|before| < env.maxStreams && env.admits(before, DecodeMarkers.Marker(w.trees[i].maxLayer)) ==>
                  (exists b :: b in w.trees[i].seen && !Within(env, sources[i], 2, b)) ==>
                  DecodeMarkers.IsMarked(env, w, i))
  {
    hide Run, Reach, Within, DecodeMarkers.Marker;
    NotedLayerIsDeepest(env, sources, streams, Floor(depth), Floor(iterations), i);
    var t := DecodeMarkers.Walked(env, sources, streams, depth, iterations).trees[i];
    if t.maxLayer > 0 {
      var b :| b in t.seen && Reach(env, sources[i], t.maxLayer, b);
    }
    if b :| b in t.seen && !Within(env, sources[i], 2, b) && t.maxLayer <= 2 {
      WithinMore(env, sources[i], t.maxLayer, 2, b);
    }
  }
}
