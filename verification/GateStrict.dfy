/** Exactly when the gate turns away a buffer in which a decoder, or the re-decode test, would find something. */
module GateStrict {
  import opened RegexLanguage
  import opened EncodingGate
  import opened EncodedRuns
  import opened DecodeChain
  import opened WholeRuns
  import DecimalRun
  import DecimalLanguage

  /* ---------------------------------------------------------------- the decoders */

  ghost predicate RunOffered(b: string, re: Engine) {
    exists k: Decoder :: TakenBy(k, re, b) != []
  }

  ghost predicate FoldOffered(b: string, re: Engine, bound: bool) {
    exists f: Folding :: FoldedBy(f, re, b, bound) != []
  }

  /** Some decoder has something to convert. */
  ghost predicate Offers(b: string, re: Engine, bound: bool) {
    RunOffered(b, re) || (0 < |b| <= MAX_WINDOW && HasReversedMarker(b)) || FoldOffered(b, re, bound)
  }

  function PlaceOf(k: Decoder): nat {
    match k
    case Base64 => 0
    case Hex => 1
    case XEscape => 9
    case AmpHex => 10
    case UEscape => 11
    case Decimal => 12
    case Base32 => 13
    case Netbios => 14
  }

  function PlaceOfFold(f: Folding): nat {
    match f
    case ChrConcat => 2
    case Replace => 3
    case VarReplace => 4
    case ArrayXor => 5
    case StrReverse => STR_REVERSE_AT
    case Environ => 7
    case Dridex => 8
  }

  lemma PlacesAre(k: Decoder, f: Folding)
    ensures PlaceOf(k) < |PATTERNS| && PATTERNS[PlaceOf(k)] == PatternOf(k) && PlaceOf(k) != STR_REVERSE_AT
    ensures PlaceOfFold(f) < |PATTERNS| && PATTERNS[PlaceOfFold(f)] == FoldPattern(f)
  {
    hide BASE64, HEX_RUN, CHR_CONCAT, REPLACE, VAR_REPLACE, ARRAY_XOR, STR_REVERSE, ENVIRON, DRIDEX, X_ESCAPE, AMP_HEX,
         U_ESCAPE, DEC_SEQ, BASE32, NETBIOS;
  }

  /** The literal that the `StrReverse` folding asks for contains the gate's marker. */
  lemma StrReverseOpens(b: string)
    requires |b| <= MAX_WINDOW && ContainsFold(b, "strreverse(")
    ensures MayBeEncoded(b)
  {
    var s :| FoldedAt(b, "strreverse(", s);
    assert FoldedAt(b, MARKERS[7], s) by {
      forall k | 0 <= k < |MARKERS[7]| ensures Lower(b[s + k]) == MARKERS[7][k] {
        assert MARKERS[7][k] == "strreverse("[k];
      }
    }
    GateOpens(b);
  }

  lemma FoldedMatches(f: Folding, re: Engine, b: string, bound: bool)
    requires Sound(re) && FoldedBy(f, re, b, bound) != []
    ensures FoldGate(f, Window(b), bound) && Matches(FoldPattern(f), Window(b))
  {
    hide Matches, FoldPattern, MinLength, Sound, Pieces, FoldGate, Window;
    FoldLocates(f, re, Window(b));
    FoldsHaveLength(f);
    PiecesAreMatches(FinderOf(f, re), FoldPattern(f), Window(b), MAX_MATCHES);
  }

  /** No pattern matches a buffer within the window that the gate turns away, where its decoder looks for it. */
  lemma TurnedAwayMatchesNothing(b: string, bound: bool)
    requires |b| <= MAX_WINDOW && !MayBeEncoded(b)
    ensures forall k: Decoder :: !Matches(PatternOf(k), b)
    ensures forall f: Folding :: !(FoldGate(f, b, bound) && Matches(FoldPattern(f), b))
    ensures !HasReversedMarker(b)
  {
    hide Matches, MayBeEncoded, ContainsFold, HasChar, PATTERNS, FoldPattern, PatternOf;
    PlacesAre(Base64, Dridex);
    GateIsStrict(b, PlaceOf(Base64));
    forall k: Decoder ensures !Matches(PatternOf(k), b) {
      PlacesAre(k, Dridex);
      GateIsStrict(b, PlaceOf(k));
    }
    forall f: Folding ensures !(FoldGate(f, b, bound) && Matches(FoldPattern(f), b)) {
      PlacesAre(Base64, f);
      if f.StrReverse? {
        if ContainsFold(b, "strreverse(") {
          StrReverseOpens(b);
        }
      } else {
        GateIsStrict(b, PlaceOfFold(f));
      }
    }
  }

  /** A buffer within the window that the gate turns away gives no decoder anything. */
  lemma TurnedAwayIsIdle(b: string, re: Engine, bound: bool)
    requires Sound(re) && |b| <= MAX_WINDOW && !MayBeEncoded(b)
    ensures !Offers(b, re, bound)
  {
    hide Matches, MayBeEncoded, FoldGate, FoldPattern, PatternOf, Sound, TakenBy, FoldedBy, Taken, HasReversedMarker;
    TurnedAwayMatchesNothing(b, bound);
    forall k: Decoder ensures TakenBy(k, re, b) == [] {
      if TakenBy(k, re, b) != [] {
        TakesExactly(k, re, b);
        var s: nat, e: nat :| Taken(k, b, s, e);
        TakenIsMatched(k, b, s, e);
      }
    }
    forall f: Folding ensures FoldedBy(f, re, b, bound) == [] {
      if FoldedBy(f, re, b, bound) != [] {
        FoldedMatches(f, re, b, bound);
      }
    }
  }

  lemma TakenIsMatched(k: Decoder, b: string, s: nat, e: nat)
    requires Taken(k, b, s, e)
    ensures Matches(PatternOf(k), b)
  {
    hide In, PatternOf;
    TakenMatches(k, b, s, e);
  }

  const DECODERS: seq<Decoder> := [Base64, Hex, XEscape, AmpHex, UEscape, Decimal, Netbios, Base32]
  const FOLDINGS: seq<Folding> := [ChrConcat, Replace, ArrayXor, StrReverse, Environ, VarReplace, Dridex]

  lemma AllAreListed(k: Decoder, f: Folding) returns (i: nat, j: nat)
    ensures i < |DECODERS| && DECODERS[i] == k && j < |FOLDINGS| && FOLDINGS[j] == f
  {
    i := match k
      case Base64 => 0 case Hex => 1 case XEscape => 2 case AmpHex => 3
      case UEscape => 4 case Decimal => 5 case Netbios => 6 case Base32 => 7;
    j := match f
      case ChrConcat => 0 case Replace => 1 case ArrayXor => 2 case StrReverse => 3
      case Environ => 4 case VarReplace => 5 case Dridex => 6;
  }

  /** What all decoders and foldings together take. */
  ghost predicate Collected(b: string, re: Engine, bound: bool, runs: seq<seq<string>>, reversed: seq<string>,
                            folds: seq<seq<string>>) {
    && |runs| == |DECODERS| && (forall i :: 0 <= i < |runs| ==> runs[i] == TakenBy(DECODERS[i], re, b))
    && reversed == (if 0 < |b| <= MAX_WINDOW && HasReversedMarker(b) then [Reversed(b)] else [])
    && |folds| == |FOLDINGS| && (forall i :: 0 <= i < |folds| ==> folds[i] == FoldedBy(FOLDINGS[i], re, b, bound))
  }

  ghost predicate AllEmpty(runs: seq<seq<string>>, reversed: seq<string>, folds: seq<seq<string>>) {
    reversed == [] && (forall i :: 0 <= i < |runs| ==> runs[i] == []) &&
      (forall i :: 0 <= i < |folds| ==> folds[i] == [])
  }

  lemma OffersExactly(b: string, re: Engine, bound: bool, runs: seq<seq<string>>, reversed: seq<string>,
                      folds: seq<seq<string>>)
    requires Collected(b, re, bound, runs, reversed, folds)
    ensures AllEmpty(runs, reversed, folds) <==> !Offers(b, re, bound)
  {
    hide TakenBy, FoldedBy, HasReversedMarker, Reversed;
    if AllEmpty(runs, reversed, folds) {
      forall k: Decoder ensures TakenBy(k, re, b) == [] {
        var i, j := AllAreListed(k, Dridex);
        assert runs[i] == [];
      }
      forall f: Folding ensures FoldedBy(f, re, b, bound) == [] {
        var i, j := AllAreListed(Base64, f);
        assert folds[j] == [];
      }
    }
  }

  /** Everything the ten decoders take from a buffer.  When the gate turns the buffer away and the buffer is within
      the gate's window, that is nothing: skipping the decoders changes nothing. */
  method DecodeAll(b: string, re: Engine, bound: bool)
    returns (runs: seq<seq<string>>, reversed: seq<string>, folds: seq<seq<string>>)
    requires Sound(re)
    ensures Collected(b, re, bound, runs, reversed, folds)
    ensures AllEmpty(runs, reversed, folds) <==> !Offers(b, re, bound)
    ensures |b| <= MAX_WINDOW && !MayBeEncoded(b) ==> AllEmpty(runs, reversed, folds)
  {
    hide MayBeEncoded, Sound, TakenBy, FoldedBy, HasReversedMarker, AllEmpty, Reversed, Offers;
    runs, folds := [], [];
    for i := 0 to |DECODERS|
      invariant |runs| == i && forall k :: 0 <= k < i ==> runs[k] == TakenBy(DECODERS[k], re, b)
    {
      var handed := FindRuns(DECODERS[i], b, re);
      runs := runs + [handed];
    }
    reversed := EmitReversed(b);
    for i := 0 to |FOLDINGS|
      invariant |folds| == i && forall k :: 0 <= k < i ==> folds[k] == FoldedBy(FOLDINGS[k], re, b, bound)
    {
      var taken := FoldStrings(FOLDINGS[i], b, re, bound);
      folds := folds + [taken];
    }
    OffersExactly(b, re, bound, runs, reversed, folds);
    if |b| <= MAX_WINDOW && !MayBeEncoded(b) {
      TurnedAwayIsIdle(b, re, bound);
    }
  }

  /* ---------------------------------------------------------------- behind the window */

  lemma WindowIsTurnedAway(b: string)
    requires !MayBeEncoded(b)
    ensures |Window(b)| <= MAX_WINDOW && !MayBeEncoded(Window(b)) && Window(Window(b)) == Window(b)
    ensures |b| <= MAX_WINDOW ==> Window(b) == b
  {
  }

  /** A match that ends within the window is one in the window. */
  lemma MatchWithin(r: Regex, b: string, s: nat, e: nat)
    requires s <= e <= |b| && e <= MAX_WINDOW && In(r, b[s..e])
    ensures Matches(r, Window(b))
  {
    hide In;
    assert Window(b)[s..e] == b[s..e];
  }

  /** For every buffer that the gate turns away: a decoder has something to convert exactly when a run that it takes
      reaches behind the window that the gate looks at. */
  lemma MissedExactly(b: string, re: Engine, bound: bool)
    requires Sound(re) && !MayBeEncoded(b)
    ensures Offers(b, re, bound) <==> exists k: Decoder, s: nat, e: nat :: e > MAX_WINDOW && Taken(k, b, s, e)
  {
    hide In, PatternOf, FoldGate, FoldPattern, HasReversedMarker, MayBeEncoded, Sound, TakenBy, FoldedBy, Taken,
         Window, Matches;
    WindowIsTurnedAway(b);
    TurnedAwayMatchesNothing(Window(b), bound);
    if 0 < |b| <= MAX_WINDOW && HasReversedMarker(b) {
      assert false;
    }
    forall f: Folding ensures FoldedBy(f, re, b, bound) == [] {
      if FoldedBy(f, re, b, bound) != [] {
        FoldedMatches(f, re, b, bound);
      }
    }
    if RunOffered(b, re) {
      var k: Decoder :| TakenBy(k, re, b) != [];
      TakesExactly(k, re, b);
      var s: nat, e: nat :| Taken(k, b, s, e);
      TakenMatches(k, b, s, e);
      if e <= MAX_WINDOW {
        MatchWithin(PatternOf(k), b, s, e);
      }
    }
    if k: Decoder, s: nat, e: nat :| e > MAX_WINDOW && Taken(k, b, s, e) {
      TakesExactly(k, re, b);
    }
  }

  /** Blanks, and a decimal sequence whose last digit is the first character behind the window. */
  function JustBehind(n: nat): string
    requires n > MAX_WINDOW
  {
    seq(n, i requires 0 <= i < n =>
      if i < MAX_WINDOW - 22 || i > MAX_WINDOW then ' ' else if (MAX_WINDOW - i) % 2 == 0 then '1' else ',')
  }

  lemma {:induction false} AlternationReads(src: string, p: nat, e: nat, n: nat)
    requires n <= 11 && e == p + 2 * (11 - n) + 1 && e <= |src|
    requires forall i :: p <= i < e ==> src[i] == if (e - 1 - i) % 2 == 0 then '1' else ','
    ensures DecimalRun.Reads(src, p, e, n)
    decreases 11 - n
  {
    if n < 11 {
      AlternationReads(src, p + 2, e, n + 1);
      assert src[p] == '1' && src[p + 1] == ',';
      assert DecimalRun.ReadsOn(src, p + 1, e, n);
    } else {
      assert src[p] == '1';
      assert DecimalRun.ReadsOn(src, p + 1, e, n);
    }
  }

  lemma JustBehindIsOffered(n: nat)
    requires n > MAX_WINDOW
    ensures Matches(DEC_SEQ, JustBehind(n))
  {
    hide In, DEC_SEQ;
    var b := JustBehind(n);
    AlternationReads(b, MAX_WINDOW - 22, MAX_WINDOW + 1, 0);
    DecimalLanguage.ReadsIsPattern(b, MAX_WINDOW - 22, MAX_WINDOW + 1);
  }

  lemma LacksLetter(b: string, m: string, k: nat)
    requires k < |m| && forall i :: 0 <= i < |b| ==> Lower(b[i]) != m[k]
    ensures !ContainsFold(b, m)
  {
    forall s ensures !FoldedAt(b, m, s) {
      if 0 <= s <= |b| - |m| {
        assert Lower(b[s + k]) != m[k];
      }
    }
  }

  lemma NoMarkerOfDigits(b: string)
    requires forall i :: 0 <= i < |b| ==> b[i] == ' ' || b[i] == '1' || b[i] == ','
    ensures forall i :: 0 <= i < |MARKERS| ==> !ContainsFold(b, MARKERS[i])
    ensures forall i :: 0 <= i < |REVERSED| ==> !ContainsFold(b, REVERSED[i])
  {
    hide ContainsFold;
    forall i | 0 <= i < |MARKERS| ensures !ContainsFold(b, MARKERS[i]) {
      LacksLetter(b, MARKERS[i], 0);
    }
    forall i | 0 <= i < |REVERSED| ensures !ContainsFold(b, REVERSED[i]) {
      LacksLetter(b, REVERSED[i], 0);
    }
  }

  lemma JustBehindIsTurnedAway(n: nat)
    requires n > MAX_WINDOW
    ensures !MayBeEncoded(JustBehind(n))
  {
    hide ContainsFold;
    var w := Window(JustBehind(n));
    NoMarkerOfDigits(w);
    forall s | 0 <= s <= |w| - MIN_RUN ensures !RunAt(w, IsBase64, s, MIN_RUN) {
      assert !IsBase64(w[s]) || !IsBase64(w[s + 1]);
    }
    forall s | 0 <= s <= |w| - MIN_DECIMAL_RUN ensures !RunAt(w, IsDecimal, s, MIN_DECIMAL_RUN) {
      assert !IsDecimal(w[s]);
    }
  }

  /** The gate turns away nothing that a decoder would convert, for all buffers of a length, exactly when that length
      is within its window. */
  lemma StrictExactly(n: nat, re: Engine, bound: bool)
    requires Sound(re)
    ensures (forall b :: |b| == n && Offers(b, re, bound) ==> MayBeEncoded(b)) <==> n <= MAX_WINDOW
  {
    hide MayBeEncoded, Offers, Matches, Sound;
    if n <= MAX_WINDOW {
      forall b | |b| == n && Offers(b, re, bound) ensures MayBeEncoded(b) {
        if !MayBeEncoded(b) {
          TurnedAwayIsIdle(b, re, bound);
        }
      }
    } else {
      var b := JustBehind(n);
      JustBehindIsTurnedAway(n);
      JustBehindIsOffered(n);
      OffersDecimal(b, re, bound);
      assert |b| == n;
    }
  }

  lemma OffersDecimal(b: string, re: Engine, bound: bool)
    requires Sound(re) && Matches(DEC_SEQ, b)
    ensures Offers(b, re, bound)
  {
    hide In, DEC_SEQ, TakenBy, Sound;
    var s, e :| 0 <= s <= e <= |b| && In(DEC_SEQ, b[s..e]);
    assert PatternOf(Decimal) == DEC_SEQ;
    assert Taken(Decimal, b, s, e);
    TakesExactly(Decimal, re, b);
  }

  /** Blanks, and 24 zeros right behind the window. */
  function ZerosBehind(): string {
    seq(MAX_WINDOW + 24, i requires 0 <= i < MAX_WINDOW + 24 => if i < MAX_WINDOW then ' ' else '0')
  }

  lemma ZerosAreTurnedAway()
    ensures !MayBeEncoded(ZerosBehind())
  {
    hide ContainsFold;
    var w := Window(ZerosBehind());
    assert |w| == MAX_WINDOW && forall i :: 0 <= i < |w| ==> w[i] == ' ';
    NoMarkerOfDigits(w);
    forall s | 0 <= s <= |w| - MIN_RUN ensures !RunAt(w, IsBase64, s, MIN_RUN) {
      assert !IsBase64(w[s]);
    }
    forall s | 0 <= s <= |w| - MIN_DECIMAL_RUN ensures !RunAt(w, IsDecimal, s, MIN_DECIMAL_RUN) {
      assert !IsDecimal(w[s]);
    }
  }

  lemma ZerosAreNotTaken(k: Decoder, s: nat, e: nat)
    ensures !Taken(k, ZerosBehind(), s, e)
  {
    hide In, X_ESCAPE, AMP_HEX, U_ESCAPE, DEC_SEQ, NETBIOS, HEX_RUN, Distinct;
    var b := ZerosBehind();
    if k.Base64? || k.Base32? {
      NoPaddedRunTaken(k, s, e);
    } else if s <= e <= |b| {
      match k
      case Hex => HexWords(b, s, e);
        assert e - s >= 32 ==> s < MAX_WINDOW && b[s] == ' ';
      case Netbios => NetbiosWords(b, s, e);
        assert s < e ==> !IsNetbios(b[s]);
      case Decimal => NoSeparators(s, e);
      case _ => NoEscapes(k, s, e);
    }
  }

  lemma NoPaddedRunTaken(k: Decoder, s: nat, e: nat)
    requires k.Base64? || k.Base32?
    ensures !Taken(k, ZerosBehind(), s, e)
  {
    hide WholeRun, HandedOver, Distinct;
    var b := ZerosBehind();
    if k.Base32? {
      if Taken(k, b, s, e) {
        WholeRunStarts(b, IsBase32, 32, 6, s, e);
      }
    } else if WholeRun(b, IsBase64, 24, 2, s, e) {
      ZerosAreHex(s, e);
      HandedOverAt(b, s, e);
    }
  }

  lemma ZerosAreHex(s: nat, end: nat)
    requires WholeRun(ZerosBehind(), IsBase64, 24, 2, s, end)
    ensures s <= end <= |ZerosBehind()| && AllHex(ZerosBehind(), s, end)
  {
    var b := ZerosBehind();
    var e: nat :| RunEndsAt(b, IsBase64, 24, 2, s, e, end);
    assert IsBase64(b[s]);
    assert s >= MAX_WINDOW;
    assert e == |b|;
  }

  lemma NoSeparators(s: nat, e: nat)
    requires s <= e <= |ZerosBehind()|
    ensures !In(DEC_SEQ, ZerosBehind()[s..e])
  {
    hide In, DEC_SEQ;
    var b := ZerosBehind();
    DecimalLanguage.ReadsIsPattern(b, s, e);
    assert forall i :: 0 <= i < |b| ==> !DecimalRun.IsSeparator(b[i]);
  }

  lemma NoEscapes(k: Decoder, s: nat, e: nat)
    requires (k.XEscape? || k.AmpHex? || k.UEscape?) && s <= e <= |ZerosBehind()|
    ensures !In(PatternOf(k), ZerosBehind()[s..e])
  {
    hide In;
    var w := ZerosBehind()[s..e];
    assert w != "" ==> w[0] == ZerosBehind()[s];
    if In(PatternOf(k), w) {
      match k {
        case XEscape => EscapeStarts(8, X_ESCAPE.body.first.ok, X_ESCAPE.body.second.first.ok,
                                     X_ESCAPE.body.second.second, w);
        case AmpHex => EscapeStarts(8, AMP_HEX.body.first.ok, AMP_HEX.body.second.first.ok, AMP_HEX.body.second.second,
                                    w);
        case UEscape => EscapeStarts(8, U_ESCAPE.body.first.ok, U_ESCAPE.body.second.first.ok,
                                     U_ESCAPE.body.second.second, w);
      }
    }
  }

  /** A match behind the window is not enough: the base64 decoder leaves 24 zeros to the hex decoder, and for that
      they are too few. */
  lemma MatchBehindIsNotEnough(re: Engine, bound: bool)
    requires Sound(re)
    ensures var b := ZerosBehind();
            && !MayBeEncoded(b) && |b| == MAX_WINDOW + 24 && In(BASE64, b[MAX_WINDOW..|b|]) && !Offers(b, re, bound)
  {
    hide MayBeEncoded, Offers, Sound, Taken, In, BASE64;
    var b := ZerosBehind();
    ZerosAreTurnedAway();
    Base64IsPadded();
    PaddedEnds(b, 24, IsBase64, 2, MAX_WINDOW, |b|, |b|);
    forall k: Decoder, s: nat, e: nat ensures !Taken(k, b, s, e) {
      ZerosAreNotTaken(k, s, e);
    }
    MissedExactly(b, re, bound);
  }

  /* ---------------------------------------------------------------- the re-decode test */

  /** The patterns of the test: all but NETBIOS and the `Replace` with variables. */
  const LOOKED_FOR: seq<nat> := [0, 1, 2, 3, 5, STR_REVERSE_AT, 7, 8, 9, 10, 11, 12, 13]

  /** What the test asks, without the gate before it. */
  ghost predicate LooksUngated(b: string) {
    || HasReversedMarker(Window(b))
    || exists i :: 0 <= i < |LOOKED_FOR| && LOOKED_FOR[i] < |PATTERNS| && Matches(PATTERNS[LOOKED_FOR[i]], Window(b))
  }

  /** The test as it runs; `matches(p, w)` is the engine's answer for the pattern at `p`. */
  method LooksEncoded(b: string, matches: (nat, string) -> bool) returns (r: bool)
    requires forall p: nat, w :: p < |PATTERNS| ==> (matches(p, w) <==> Matches(PATTERNS[p], w))
    ensures r <==> MayBeEncoded(b) && LooksUngated(b)
  {
    hide Matches, MayBeEncoded, PATTERNS, ContainsFold;
    PatternsAre();
    r := MayBeEncodedScan(b);
    if !r {
      return;
    }
    var scan := Window(b);
    r := ContainsAny(scan, REVERSED);
    if r {
      return;
    }
    for i := 0 to |LOOKED_FOR|
      invariant forall k :: 0 <= k < i ==> !Matches(PATTERNS[LOOKED_FOR[k]], scan)
    {
      if matches(LOOKED_FOR[i], scan) {
        return true;
      }
    }
    return false;
  }

  lemma PatternsAre()
    ensures |PATTERNS| == 15 && forall i :: 0 <= i < |LOOKED_FOR| ==> LOOKED_FOR[i] < 15
  {
    hide BASE64, HEX_RUN, CHR_CONCAT, REPLACE, VAR_REPLACE, ARRAY_XOR, STR_REVERSE, ENVIRON, DRIDEX, X_ESCAPE, AMP_HEX,
         U_ESCAPE, DEC_SEQ, BASE32, NETBIOS;
  }

  /** What the gate hides from the test: nothing but a `StrReverse` that is not spelled in ASCII. */
  lemma GateHidesExactly(b: string)
    requires !MayBeEncoded(b)
    ensures LooksUngated(b) <==> Matches(PATTERNS[STR_REVERSE_AT], Window(b))
  {
    hide Matches, ContainsFold, PATTERNS;
    PatternsAre();
    var w := Window(b);
    assert Window(w) == w && !MayBeEncoded(w);
    hide MayBeEncoded;
    forall i | 0 <= i < |LOOKED_FOR| && LOOKED_FOR[i] != STR_REVERSE_AT ensures !Matches(PATTERNS[LOOKED_FOR[i]], w) {
      GateIsStrict(w, LOOKED_FOR[i]);
    }
    GateIsStrict(w, 0);
    assert LOOKED_FOR[5] == STR_REVERSE_AT;
  }

  predicate IsAscii(b: string) {
    forall i :: 0 <= i < |b| ==> b[i] < 128 as char
  }

  lemma WideLetter(c: char, w: string)
    requires In(FoldWide(c), w) && IsAscii(w)
    ensures |w| == 1 && Lower(w[0]) == c
  {
    if In(LONG_S, w) {
      FirstChar(Only(0xC5 as char).ok, Only(0xBF as char), w);
    } else if In(KELVIN, w) {
      FirstChar(Only(0xE2 as char).ok, KELVIN.second, w);
    }
  }

  lemma {:induction false} WideSpelled(m: string, w: string)
    requires In(WideWord(m), w) && IsAscii(w)
    ensures |w| == |m| && FoldedAt(w, m, 0)
  {
    if m != "" {
      var i := FirstPart(FoldWide(m[0]), WideWord(m[1..]), w);
      assert IsAscii(w[..i]) && IsAscii(w[i..]);
      WideLetter(m[0], w[..i]);
      WideSpelled(m[1..], w[i..]);
      forall k | 0 <= k < |m| ensures Lower(w[k]) == m[k] {
        if k > 0 {
          assert Lower(w[1..][0 + (k - 1)]) == m[1..][k - 1];
        }
      }
    }
  }

  /** In an ASCII window the gate hides nothing from the test. */
  lemma AsciiHidesNothing(b: string)
    requires IsAscii(Window(b))
    ensures LooksUngated(b) ==> MayBeEncoded(b)
  {
    hide In, MayBeEncoded, LooksUngated, PATTERNS, WideWord;
    var w := Window(b);
    if !MayBeEncoded(b) {
      GateHidesExactly(b);
      StrReverseIsThere();
      forall s, e | 0 <= s <= e <= |w| ensures !In(STR_REVERSE, w[s..e]) {
        if In(STR_REVERSE, w[s..e]) {
          AsciiStrReverseOpens(b, s, e);
        }
      }
    }
  }

  lemma StrReverseIsThere()
    ensures |PATTERNS| > STR_REVERSE_AT && PATTERNS[STR_REVERSE_AT] == STR_REVERSE
  {
    hide BASE64, HEX_RUN, CHR_CONCAT, REPLACE, VAR_REPLACE, ARRAY_XOR, STR_REVERSE, ENVIRON, DRIDEX, X_ESCAPE, AMP_HEX,
         U_ESCAPE, DEC_SEQ, BASE32, NETBIOS;
  }

  lemma AsciiStrReverseOpens(b: string, s: nat, e: nat)
    requires IsAscii(Window(b)) && s <= e <= |Window(b)| && In(STR_REVERSE, Window(b)[s..e])
    ensures MayBeEncoded(b)
  {
    hide In, WideWord;
    var w := Window(b);
    var part := w[s..e];
    var i := FirstPart(WideWord("strreverse"), STR_REVERSE.second, part);
    assert part[..i] == w[s..s + i] && IsAscii(part[..i]);
    WideSpelled("strreverse", part[..i]);
    assert MARKERS[7] == "strreverse";
    MarkerOpens(w, s, s + i, 7);
    assert Window(w) == w;
  }

  /** `StrReverse` with a long s. */
  const LONG_S_CALL: string := [0xC5 as char, 0xBF as char] + "trreverse" + "(\"\")"

  lemma LongSIsTurnedAway()
    ensures !MayBeEncoded(LONG_S_CALL)
  {
    hide ContainsFold;
    var b := LONG_S_CALL;
    assert |b| == 15 && Window(b) == b;
    assert b == [0xC5 as char, 0xBF as char, 't', 'r', 'r', 'e', 'v', 'e', 'r', 's', 'e', '(', '"', '"', ')'];
    NoStrReverse(b);
    LacksLetter(b, MARKERS[0], 0);
    LacksLetter(b, MARKERS[1], 0);
    LacksLetter(b, MARKERS[2], 0);
    LacksLetter(b, MARKERS[3], 0);
    LacksLetter(b, MARKERS[4], 0);
    LacksLetter(b, MARKERS[5], 2);
    LacksLetter(b, MARKERS[6], 0);
    LacksLetter(b, MARKERS[8], 1);
    LacksLetter(b, REVERSED[0], 0);
    LacksLetter(b, REVERSED[1], 0);
    LacksLetter(b, REVERSED[2], 1);
    LacksLetter(b, REVERSED[3], 1);
    LacksLetter(b, REVERSED[4], 1);
    LacksLetter(b, REVERSED[5], 0);
  }

  lemma NoStrReverse(b: string)
    requires b == [0xC5 as char, 0xBF as char, 't', 'r', 'r', 'e', 'v', 'e', 'r', 's', 'e', '(', '"', '"', ')']
    ensures !ContainsFold(b, MARKERS[7])
  {
    var m := MARKERS[7];
    assert m == "strreverse" && |m| == 10 && m[0] == 's';
    forall s ensures !FoldedAt(b, m, s) {
      if 0 <= s <= |b| - |m| {
        assert Lower(b[s + 0]) != m[0];
      }
    }
  }

  lemma {:induction false} WideSpells(m: string)
    requires forall i :: 0 <= i < |m| ==> Lower(m[i]) == m[i]
    ensures In(WideWord(m), m)
  {
    hide In;
    if m == "" {
      NothingWords(m);
    } else {
      WideSpells(m[1..]);
      OneLetter(m[0]);
      assert m[..1] == [m[0]];
      Joins(FoldWide(m[0]), WideWord(m[1..]), m, 1);
    }
  }

  lemma OneLetter(c: char)
    requires Lower(c) == c
    ensures In(FoldWide(c), [c])
  {
  }

  lemma LongSLetter()
    ensures In(FoldWide('s'), [0xC5 as char, 0xBF as char])
  {
    var w := [0xC5 as char, 0xBF as char];
    assert w[..1] == [0xC5 as char] && w[1..] == [0xBF as char];
    Joins(Only(0xC5 as char), Only(0xBF as char), w, 1);
  }

  lemma EmptyCall()
    ensures In(STR_REVERSE.second, "(\"\")")
  {
    hide In;
    var close := "\"\")";
    OneWord('"');
    OneWord('(');
    OneWord(')');
    NoWord(LITERAL.second.first.body);
    NoWord(SPACES.body);
    assert "" + "\"" == "\"" && "\"" + "\"" == "\"\"" && "" + ")" == ")" && "\"\"" + ")" == close &&
           "" + close == close;
    assert "(" + close == "(\"\")";
    Splits(LITERAL.second.first, LITERAL.second.second, "", "\"");
    Splits(LITERAL.first, LITERAL.second, "\"", "\"");
    var tail := STR_REVERSE.second.second.second.second;
    Splits(tail.first, tail.second, "", ")");
    Splits(LITERAL, tail, "\"\"", ")");
    Splits(SPACES, STR_REVERSE.second.second.second, "", close);
    Splits(Only('('), STR_REVERSE.second.second, "(", close);
  }

  lemma OneWord(c: char)
    ensures In(Only(c), [c])
  {
  }

  lemma NoWord(a: Regex)
    ensures In(AtLeast(0, a), "")
  {
  }

  lemma Splits(a: Regex, b: Regex, v: string, w: string)
    requires In(a, v) && In(b, w)
    ensures In(Then(a, b), v + w)
  {
    hide In;
    assert (v + w)[..|v|] == v && (v + w)[|v|..] == w;
    Joins(a, b, v + w, |v|);
  }

  lemma LongSMatches()
    ensures Matches(STR_REVERSE, Window(LONG_S_CALL))
  {
    hide In;
    var b, long := LONG_S_CALL, [0xC5 as char, 0xBF as char];
    LongSLetter();
    assert "strreverse"[0] == 's' && "strreverse"[1..] == "trreverse";
    WideSpells("trreverse");
    Splits(FoldWide('s'), WideWord("trreverse"), long, "trreverse");
    assert WideWord("strreverse") == Then(FoldWide('s'), WideWord("trreverse"));
    EmptyCall();
    Splits(WideWord("strreverse"), STR_REVERSE.second, long + "trreverse", "(\"\")");
    assert b[0..|b|] == b && Window(b) == b;
  }

  /** The folding's own literal gate skips the same call, although its pattern matches. */
  lemma LongSIsSkipped(bound: bool)
    ensures Matches(FoldPattern(StrReverse), LONG_S_CALL) && !FoldGate(StrReverse, LONG_S_CALL, bound)
  {
    hide LONG_S_CALL, MayBeEncoded, Matches, ContainsFold, Window;
    LongSMatches();
    LongSIsTurnedAway();
    LongSIsShort();
    if ContainsFold(LONG_S_CALL, "strreverse(") {
      StrReverseOpens(LONG_S_CALL);
    }
  }

  lemma LongSIsShort()
    ensures |LONG_S_CALL| <= MAX_WINDOW && Window(LONG_S_CALL) == LONG_S_CALL
  {
  }

  /** The gate does hide something: it turns away a `StrReverse` call with a long s, which the test would find. */
  lemma LongSIsHidden()
    ensures LooksUngated(LONG_S_CALL) && !MayBeEncoded(LONG_S_CALL)
  {
    hide LONG_S_CALL, MayBeEncoded, LooksUngated, PATTERNS, Matches;
    LongSIsTurnedAway();
    GateHidesExactly(LONG_S_CALL);
    StrReverseIsThere();
    LongSMatches();
  }
}
