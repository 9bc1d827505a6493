/** What the searching decoders take from a buffer, without their loops: exactly its whole runs. */
module WholeRuns {
  import opened RegexLanguage
  import opened EncodingGate
  import opened EncodedRuns
  import opened DecodeChain

  /** All of `src[s..e]` is of the class, and nothing of the class adjoins it. */
  ghost predicate Maximal(src: string, ok: char -> bool, s: nat, e: nat) {
    && s <= e <= |src| && (forall k :: s <= k < e ==> ok(src[k]))
    && (s > 0 ==> !ok(src[s - 1])) && (e < |src| ==> !ok(src[e]))
  }

  /** A maximal run of at least `n`, and the padding behind it, up to `m` characters of it. */
  ghost predicate WholeRun(src: string, ok: char -> bool, n: nat, m: nat, s: nat, end: nat) {
    exists e: nat :: RunEndsAt(src, ok, n, m, s, e, end)
  }

  lemma PadShifts(src: string, o: nat, e: nat, m: nat)
    requires o <= e <= |src|
    ensures PadEnd(src[o..], e - o, m) + o == PadEnd(src, e, m)
    decreases m
  {
    if m > 0 && e < |src| && src[e] == '=' {
      PadShifts(src, o, e + 1, m - 1);
    }
  }

  lemma WholeRunInside(src: string, ok: char -> bool, n: nat, m: nat, s: nat, end: nat)
    requires WholeRun(src, ok, n, m, s, end)
    ensures s + n <= end <= |src| && In(Padded(n, ok, m), src[s..end])
  {
    hide In;
    var e: nat :| RunEndsAt(src, ok, n, m, s, e, end);
    PaddedEnds(src, n, ok, m, s, e, end);
  }

  /** The leftmost run that is long enough, if there is one. */
  lemma FirstRunExists(src: string, ok: char -> bool, n: nat) returns (s: nat, e: nat)
    requires HasRun(src, ok, n)
    ensures FirstRun(src, ok, n, s, e)
  {
    var some :| 0 <= some <= |src| - n && RunAt(src, ok, some, n);
    s := 0;
    while !RunAt(src, ok, s, n)
      invariant s <= some && forall k :: k < s ==> !RunAt(src, ok, k, n)
      decreases some - s
    {
      s := s + 1;
    }
    e := s + n;
    while e < |src| && ok(src[e])
      invariant s + n <= e <= |src| && forall k :: s <= k < e ==> ok(src[k])
    {
      e := e + 1;
    }
  }

  lemma FirstIsMaximal(src: string, ok: char -> bool, n: nat, s: nat, e: nat)
    requires FirstRun(src, ok, n, s, e) && n > 0
    ensures Maximal(src, ok, s, e)
  {
    if s > 0 && ok(src[s - 1]) {
      assert RunAt(src, ok, s - 1, n);
    }
  }

  /** No run goes across `o`. */
  ghost predicate Border(src: string, ok: char -> bool, o: nat) {
    o <= |src| && (0 < o < |src| ==> !ok(src[o - 1]) || !ok(src[o]))
  }

  lemma MaximalShifts(src: string, ok: char -> bool, o: nat, s: nat, e: nat)
    requires Border(src, ok, o) && o <= s < e
    ensures Maximal(src, ok, s, e) <==> Maximal(src[o..], ok, s - o, e - o)
  {
    var rest := src[o..];
    assert forall k :: 0 <= k < |rest| ==> rest[k] == src[k + o];
    if Maximal(rest, ok, s - o, e - o) {
      forall k | s <= k < e ensures ok(src[k]) {
        assert rest[k - o] == src[k];
      }
      assert s > o ==> rest[s - o - 1] == src[s - 1];
      assert e < |src| ==> rest[e - o] == src[e];
      assert Maximal(src, ok, s, e);
    }
  }

  /** A run with its padding, by where the run itself ends. */
  ghost predicate RunEndsAt(src: string, ok: char -> bool, n: nat, m: nat, s: nat, e: nat, end: nat) {
    s + n <= e <= |src| && Maximal(src, ok, s, e) && end == PadEnd(src, e, m)
  }

  lemma EndShifts(src: string, ok: char -> bool, n: nat, m: nat, o: nat, s: nat, e: nat, end: nat)
    requires Border(src, ok, o) && n > 0 && s >= o && end >= o && e >= o
    ensures o <= |src|
    ensures RunEndsAt(src, ok, n, m, s, e, end) <==> RunEndsAt(src[o..], ok, n, m, s - o, e - o, end - o)
  {
    BorderInside(src, ok, o);
    hide Maximal, Border, PadEnd;
    if s + n <= e <= |src| {
      PadShifts(src, o, e, m);
      MaximalShifts(src, ok, o, s, e);
    }
  }

  /** Behind a border, the runs of the buffer are the runs of the rest. */
  lemma RunsBehind(src: string, ok: char -> bool, n: nat, m: nat, o: nat, s: nat, end: nat)
    requires Border(src, ok, o) && n > 0 && s >= o && end >= o
    ensures o <= |src| && (WholeRun(src, ok, n, m, s, end) <==> WholeRun(src[o..], ok, n, m, s - o, end - o))
  {
    BorderInside(src, ok, o);
    hide RunEndsAt, Border;
    if WholeRun(src, ok, n, m, s, end) {
      var e: nat :| RunEndsAt(src, ok, n, m, s, e, end);
      RunEndsBehind(src, ok, n, m, s, e, end);
      EndShifts(src, ok, n, m, o, s, e, end);
      assert RunEndsAt(src[o..], ok, n, m, s - o, e - o, end - o);
    }
    if WholeRun(src[o..], ok, n, m, s - o, end - o) {
      var f: nat :| RunEndsAt(src[o..], ok, n, m, s - o, f, end - o);
      EndShifts(src, ok, n, m, o, s, f + o, end);
    }
  }

  lemma RunEndsBehind(src: string, ok: char -> bool, n: nat, m: nat, s: nat, e: nat, end: nat)
    requires RunEndsAt(src, ok, n, m, s, e, end)
    ensures s + n <= e <= end <= |src| && Maximal(src, ok, s, e) && end == PadEnd(src, e, m)
  {
  }

  /** The first run comes before every other, with its padding. */
  lemma FirstComesFirst(src: string, ok: char -> bool, n: nat, m: nat, s: nat, e: nat, t: nat, end: nat)
    requires FirstRun(src, ok, n, s, e) && n > 0 && !ok('=') && WholeRun(src, ok, n, m, t, end)
    ensures (t == s && end == PadEnd(src, e, m)) || t >= PadEnd(src, e, m)
  {
    var f: nat :| RunEndsAt(src, ok, n, m, t, f, end);
    assert RunAt(src, ok, t, n);
    assert t >= s;
    if t == s {
      assert f == e;
    } else {
      assert !ok(src[t - 1]) && ok(src[t]);
    }
  }

  ghost predicate IsPiece(src: string, ok: char -> bool, n: nat, m: nat, x: string) {
    exists s: nat, end: nat :: Cut(src, ok, n, m, s, end, x)
  }

  ghost predicate Cut(src: string, ok: char -> bool, n: nat, m: nat, s: nat, end: nat, x: string) {
    WholeRun(src, ok, n, m, s, end) && s <= end <= |src| && x == src[s..end]
  }

  lemma CutBehind(src: string, ok: char -> bool, n: nat, m: nat, o: nat, s: nat, end: nat, x: string)
    requires Border(src, ok, o) && n > 0 && s >= o && end >= o
    ensures Cut(src, ok, n, m, s, end, x) <==> Cut(src[o..], ok, n, m, s - o, end - o, x)
  {
    hide WholeRun, Border;
    RunsBehind(src, ok, n, m, o, s, end);
    BorderInside(src, ok, o);
    if s <= end <= |src| {
      assert src[o..][s - o..end - o] == src[s..end];
    }
  }

  lemma BorderInside(src: string, ok: char -> bool, o: nat)
    requires Border(src, ok, o)
    ensures o <= |src|
  {
  }

  /** The padding behind a run ends at a border. */
  lemma PadIsBorder(src: string, ok: char -> bool, s: nat, e: nat, m: nat)
    requires Maximal(src, ok, s, e) && !ok('=')
    ensures Border(src, ok, PadEnd(src, e, m))
  {
  }

  /** One turn of the search: the first run, and then the runs of the rest. */
  lemma PiecesTurn(src: string, ok: char -> bool, n: nat, m: nat, s: nat, e: nat, x: string)
    requires FirstRun(src, ok, n, s, e) && n > 0 && !ok('=')
    ensures var o := PadEnd(src, e, m);
            s <= o && (IsPiece(src, ok, n, m, x) <==> x == src[s..o] || IsPiece(src[o..], ok, n, m, x))
  {
    hide WholeRun, Maximal, Border, FirstRun;
    FirstRunInside(src, ok, n, s, e);
    var o := PadEnd(src, e, m);
    FirstIsMaximal(src, ok, n, s, e);
    FirstIsWhole(src, ok, n, m, s, e);
    PadIsBorder(src, ok, s, e, m);
    hide PadEnd;
    if IsPiece(src, ok, n, m, x) {
      var t: nat, end: nat :| Cut(src, ok, n, m, t, end, x);
      FirstComesFirst(src, ok, n, m, s, e, t, end);
      if t >= o {
        CutBehind(src, ok, n, m, o, t, end, x);
      }
    }
    if x == src[s..o] {
      assert Cut(src, ok, n, m, s, o, x);
    }
    if IsPiece(src[o..], ok, n, m, x) {
      var t: nat, end: nat :| Cut(src[o..], ok, n, m, t, end, x);
      CutBehind(src, ok, n, m, o, t + o, end + o, x);
      assert Cut(src, ok, n, m, t + o, end + o, x);
    }
  }

  lemma FirstIsWhole(src: string, ok: char -> bool, n: nat, m: nat, s: nat, e: nat)
    requires Maximal(src, ok, s, e) && s + n <= e
    ensures WholeRun(src, ok, n, m, s, PadEnd(src, e, m))
  {
    assert RunEndsAt(src, ok, n, m, s, e, PadEnd(src, e, m));
  }

  lemma PieceHasRun(src: string, ok: char -> bool, n: nat, m: nat, x: string)
    requires IsPiece(src, ok, n, m, x)
    ensures HasRun(src, ok, n)
  {
    var s: nat, end: nat :| Cut(src, ok, n, m, s, end, x);
    var e: nat :| RunEndsAt(src, ok, n, m, s, e, end);
    assert RunAt(src, ok, s, n);
  }

  lemma WholeRunStarts(src: string, ok: char -> bool, n: nat, m: nat, s: nat, end: nat)
    requires WholeRun(src, ok, n, m, s, end) && n > 0
    ensures s < |src| && ok(src[s])
  {
  }

  /** Searching for the leftmost longest match again and again cuts out exactly the whole runs. */
  lemma {:induction false} PiecesAreWholeRuns(src: string, ok: char -> bool, n: nat, m: nat, left: int, x: string)
    requires n > 0 && !ok('=') && left < 0
    ensures x in Pieces(b => Best(Padded(n, ok, m), b), src, left) <==> IsPiece(src, ok, n, m, x)
    decreases |src|
  {
    hide Best, Padded, IsPiece, HasRun, FirstRun, Leftmost, Longest;
    var r, find := Padded(n, ok, m), b => Best(Padded(n, ok, m), b);
    if !HasRun(src, ok, n) {
      NoPaddedMatch(src, n, ok, m);
      NoBest(r, src);
      NothingCut(find, src, left);
      if IsPiece(src, ok, n, m, x) {
        PieceHasRun(src, ok, n, m, x);
      }
    } else {
      var s, e := FirstRunExists(src, ok, n);
      FirstRunInside(src, ok, n, s, e);
      var o := PadEnd(src, e, m);
      PaddedFound(src, n, ok, m, s, e);
      BestIs(r, src, s, o);
      PiecesTurn(src, ok, n, m, s, e, x);
      PiecesAreWholeRuns(src[o..], ok, n, m, left - 1, x);
      assert Pieces(find, src, left) == [src[s..o]] + Pieces(find, src[o..], left - 1);
    }
  }

  lemma FirstRunInside(src: string, ok: char -> bool, n: nat, s: nat, e: nat)
    requires FirstRun(src, ok, n, s, e)
    ensures s + n <= e <= |src|
  {
  }

  lemma NothingCut(find: Finder, src: string, left: int)
    requires find(src).None?
    ensures Pieces(find, src, left) == []
  {
  }

  /* ---------------------------------------------------------------- what a decoder takes */

  /** A part of the buffer that a decoder takes: a whole base64 run that is not plain hex, a whole base32 run with a
      digit that only base32 has, or any match of the other patterns. */
  ghost predicate Taken(k: Decoder, b: string, s: nat, e: nat) {
    match k
    case Base64 => WholeRun(b, IsBase64, 24, 2, s, e) && s <= e <= |b| && HandedOver(k, b[s..e])
    case Base32 => WholeRun(b, IsBase32, 32, 6, s, e) && s <= e <= |b| && HandedOver(k, b[s..e])
    case _ => s <= e <= |b| && In(PatternOf(k), b[s..e])
  }

  /** What is taken is a match. */
  lemma TakenMatches(k: Decoder, b: string, s: nat, e: nat)
    requires Taken(k, b, s, e)
    ensures s <= e <= |b| && In(PatternOf(k), b[s..e])
  {
    hide In, WholeRun, HandedOver, HEX_RUN, X_ESCAPE, AMP_HEX, U_ESCAPE, DEC_SEQ, NETBIOS;
    if k.Base64? {
      Base64IsPadded();
      WholeRunInside(b, IsBase64, 24, 2, s, e);
    } else if k.Base32? {
      Base32IsPadded();
      WholeRunInside(b, IsBase32, 32, 6, s, e);
    }
  }

  lemma TakenSome(k: Decoder, re: Engine, b: string)
    ensures TakenBy(k, re, b) != [] <==> exists x :: x in Pieces(FinderFor(k, re), b, -1) && HandedOver(k, x)
  {
    hide HandedOver, Pieces, FinderFor, Handed;
    HandedSome(k, Pieces(FinderFor(k, re), b, -1));
  }

  lemma Base64Finder(re: Engine, b: string, x: string)
    ensures x in Pieces(FinderFor(Base64, re), b, -1) <==> IsPiece(b, IsBase64, 24, 2, x)
  {
    hide IsPiece, Best;
    Base64IsPadded();
    PiecesAreWholeRuns(b, IsBase64, 24, 2, -1, x);
    SamePieces(FinderFor(Base64, re), y => Best(Padded(24, IsBase64, 2), y), b, -1);
  }

  lemma Base32Finder(re: Engine, b: string, x: string)
    ensures x in Pieces(FinderFor(Base32, re), b, -1) <==> IsPiece(b, IsBase32, 32, 6, x)
  {
    hide IsPiece, Best;
    Base32IsPadded();
    PiecesAreWholeRuns(b, IsBase32, 32, 6, -1, x);
    SamePieces(FinderFor(Base32, re), y => Best(Padded(32, IsBase32, 6), y), b, -1);
  }

  lemma {:induction false} SamePieces(find: Finder, other: Finder, src: string, n: int)
    requires forall b :: find(b) == other(b)
    ensures Pieces(find, src, n) == Pieces(other, src, n)
    decreases |src|
  {
    if n != 0 && src != "" && find(src).Some? {
      var s, e := find(src).value.0, find(src).value.1;
      if s <= e <= |src| && e > 0 {
        SamePieces(find, other, src[e..], n - 1);
      }
    }
  }

  /** A decoder takes something exactly when there is something that it takes. */
  lemma TakesExactly(k: Decoder, re: Engine, b: string)
    requires Sound(re)
    ensures TakenBy(k, re, b) != [] <==> exists s: nat, e: nat :: Taken(k, b, s, e)
  {
    hide HandedOver, Pieces, FinderFor, TakenBy, WholeRun, In, Sound;
    TakenSome(k, re, b);
    if k.Base64? || k.Base32? {
      PaddedTakes(k, re, b);
    } else {
      OthersTake(k, re, b);
    }
  }

  lemma PaddedTakes(k: Decoder, re: Engine, b: string)
    requires k.Base64? || k.Base32?
    ensures (exists x :: x in Pieces(FinderFor(k, re), b, -1) && HandedOver(k, x)) <==>
            exists s: nat, e: nat :: Taken(k, b, s, e)
  {
    hide HandedOver, Pieces, FinderFor, WholeRun;
    if x :| x in Pieces(FinderFor(k, re), b, -1) && HandedOver(k, x) {
      if k.Base64? {
        Base64Finder(re, b, x);
        var s: nat, e: nat :| Cut(b, IsBase64, 24, 2, s, e, x);
        assert Taken(k, b, s, e);
      } else {
        Base32Finder(re, b, x);
        var s: nat, e: nat :| Cut(b, IsBase32, 32, 6, s, e, x);
        assert Taken(k, b, s, e);
      }
    }
    if s: nat, e: nat :| Taken(k, b, s, e) {
      var x := b[s..e];
      if k.Base64? {
        assert Cut(b, IsBase64, 24, 2, s, e, x);
        Base64Finder(re, b, x);
      } else {
        assert Cut(b, IsBase32, 32, 6, s, e, x);
        Base32Finder(re, b, x);
      }
    }
  }

  lemma OthersTake(k: Decoder, re: Engine, b: string)
    requires Sound(re) && !k.Base64? && !k.Base32?
    ensures (exists x :: x in Pieces(FinderFor(k, re), b, -1) && HandedOver(k, x)) <==>
            exists s: nat, e: nat :: Taken(k, b, s, e)
  {
    hide Pieces, FinderFor, WholeRun, In, Sound, MinLength, PatternOf;
    FinderLocates(k, re, b);
    DecodersHaveLength(k);
    PiecesAreMatches(FinderFor(k, re), PatternOf(k), b, -1);
    var pieces := Pieces(FinderFor(k, re), b, -1);
    if pieces != [] {
      assert pieces[0] in pieces;
      var s, e :| 0 <= s <= e <= |b| && In(PatternOf(k), b[s..e]);
      assert Taken(k, b, s, e);
    }
    if s: nat, e: nat :| Taken(k, b, s, e) {
      assert Matches(PatternOf(k), b);
    }
  }
}
