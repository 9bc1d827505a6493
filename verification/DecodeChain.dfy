/** The ten decoders behind the gate: which parts of a buffer each of them finds and hands to its conversion. */
module DecodeChain {
  import opened Basics
  import opened RegexLanguage
  import opened EncodingGate
  import opened EncodedRuns
  import DecimalRun
  import DecimalLanguage

  /* ---------------------------------------------------------------- the regular expression engine */

  /** Where the engine finds its first match, if it finds one. */
  type Finder = string -> Option<(nat, nat)>

  ghost predicate Searches(find: Finder, r: Regex) {
    forall b :: Locates(find, r, b)
  }

  /** One compiled expression for each pattern that is searched with the engine. */
  datatype Engine = Engine(
    xEscape: Finder, ampHex: Finder, uEscape: Finder, chrConcat: Finder, replace: Finder, arrayXor: Finder,
    strReverse: Finder, environ: Finder, varReplace: Finder, dridex: Finder)

  ghost predicate Sound(re: Engine) {
    && Searches(re.xEscape, X_ESCAPE) && Searches(re.ampHex, AMP_HEX) && Searches(re.uEscape, U_ESCAPE)
    && Searches(re.chrConcat, CHR_CONCAT) && Searches(re.replace, REPLACE) && Searches(re.arrayXor, ARRAY_XOR)
    && Searches(re.strReverse, STR_REVERSE) && Searches(re.environ, ENVIRON) && Searches(re.varReplace, VAR_REPLACE)
    && Searches(re.dridex, DRIDEX)
  }

  /** What repeated searching cuts out of a buffer: each match is the one found behind the last, and the search
      goes on until there are `n` of them (or any number, when `n` is negative) or no more. */
  function Pieces(find: Finder, src: string, n: int): seq<string>
    decreases |src|
  {
    if n == 0 || src == "" || find(src).None? then []
    else
      var s, e := find(src).value.0, find(src).value.1;
      if s <= e <= |src| && e > 0 then [src[s..e]] + Pieces(find, src[e..], n - 1) else []
  }

  /** The finder tells exactly whether and where a leftmost match is. */
  ghost predicate Locates(find: Finder, r: Regex, src: string) {
    if find(src).None? then !Matches(r, src) else Leftmost(r, src, find(src).value.0, find(src).value.1)
  }

  /** Something is cut out exactly when there is a match. */
  lemma PiecesAreMatches(find: Finder, r: Regex, src: string, n: int)
    requires Locates(find, r, src) && n != 0 && MinLength(r) > 0
    ensures Pieces(find, src, n) == [] <==> !Matches(r, src)
  {
    hide In;
    if find(src).Some? {
      MatchIsLong(r, src, find(src).value.0, find(src).value.1);
    }
  }

  lemma MatchIsLong(r: Regex, src: string, s: int, e: int)
    requires MinLength(r) > 0 && Leftmost(r, src, s, e)
    ensures 0 <= s < e <= |src|
  {
    WordsAreLong(r, src[s..e]);
  }

  /* ---------------------------------------------------------------- decoders that search the whole buffer */

  datatype Decoder = Base64 | Hex | XEscape | AmpHex | UEscape | Decimal | Netbios | Base32

  function PatternOf(k: Decoder): Regex {
    match k
    case Base64 => BASE64
    case Hex => HEX_RUN
    case XEscape => X_ESCAPE
    case AmpHex => AMP_HEX
    case UEscape => U_ESCAPE
    case Decimal => DEC_SEQ
    case Netbios => NETBIOS
    case Base32 => BASE32
  }

  lemma EscapesHaveLength()
    ensures MinLength(X_ESCAPE) > 0 && MinLength(AMP_HEX) > 0 && MinLength(U_ESCAPE) > 0
  {
    assert MinLength(X_ESCAPE) == 8 * MinLength(X_ESCAPE.body) &&
           MinLength(X_ESCAPE.body) == 1 + MinLength(X_ESCAPE.body.second);
    assert MinLength(AMP_HEX) == 8 * MinLength(AMP_HEX.body) &&
           MinLength(AMP_HEX.body) == 1 + MinLength(AMP_HEX.body.second);
    assert MinLength(U_ESCAPE) == 8 * MinLength(U_ESCAPE.body) &&
           MinLength(U_ESCAPE.body) == 1 + MinLength(U_ESCAPE.body.second);
  }

  lemma RunsHaveLength()
    ensures MinLength(BASE64) > 0 && MinLength(HEX_RUN) > 0 && MinLength(NETBIOS) > 0 && MinLength(BASE32) > 0
    ensures MinLength(DEC_SEQ) > 0
  {
    assert MinLength(AtLeast(24, One(IsBase64))) == 24 * MinLength(One(IsBase64));
    assert MinLength(AtLeast(32, One(IsBase32))) == 32 * MinLength(One(IsBase32));
    assert MinLength(HEX_RUN) == 16 * MinLength(HEX_RUN.body) && MinLength(HEX_RUN.body) == 2;
    assert MinLength(NETBIOS) == 32 * MinLength(NETBIOS.body);
    assert MinLength(DEC_SEQ) == MinLength(NUMBER3) + MinLength(DEC_SEQ.second) && MinLength(NUMBER3) >= 1;
  }

  lemma DecodersHaveLength(k: Decoder)
    ensures MinLength(PatternOf(k)) > 0
  {
    hide MinLength, BASE64, HEX_RUN, X_ESCAPE, AMP_HEX, U_ESCAPE, DEC_SEQ, NETBIOS, BASE32;
    EscapesHaveLength();
    RunsHaveLength();
  }

  /** Whether a run is handed to its decoder: hex digits are left to the hex decoder, and a base32 run needs a
      digit that only base32 has. */
  ghost predicate HandedOver(k: Decoder, run: string) {
    match k
    case Base64 => !AllHex(run, 0, |run|)
    case Base32 => Distinct(run, 0, |run|)
    case _ => true
  }

  lemma HandedOverAt(src: string, s: nat, e: nat)
    requires s <= e <= |src|
    ensures HandedOver(Base64, src[s..e]) <==> !AllHex(src, s, e)
    ensures HandedOver(Base32, src[s..e]) <==> Distinct(src, s, e)
  {
    var run := src[s..e];
    assert forall k :: 0 <= k < e - s ==> run[k] == src[s + k];
    assert forall k :: s <= k < e ==> src[k] == run[k - s];
    if Distinct(src, s, e) {
      var k :| s <= k < e && k < |src| && k - s < MAX_BASE32_ENCODED && IsDistinctive(src[k]);
      assert IsDistinctive(run[k - s]);
    }
  }

  /** The decimal scanner's preferred match is a leftmost match of the pattern. */
  lemma DecimalFinds(src: string, start: int, end: nat)
    requires DecimalRun.LeftmostMatch(src, start, end)
    ensures if start >= 0 then Leftmost(DEC_SEQ, src, start, end) else !Matches(DEC_SEQ, src)
  {
    hide In, DEC_SEQ;
    if start >= 0 {
      DecimalLanguage.MatchInside(src, start);
      DecimalRun.MatchIsLanguage(src, start);
      DecimalLanguage.ReadsIsPattern(src, start, end);
    }
    forall i, j | 0 <= i <= j <= |src| && (start >= 0 ==> i < start) ensures !In(DEC_SEQ, src[i..j]) {
      assert DecimalRun.Match(src, i).None?;
      DecimalRun.MatchIsLanguage(src, i);
      DecimalLanguage.ReadsIsPattern(src, i, j);
    }
  }

  /* ---------------------------------------------------------------- where a decoder finds its next run */

  ghost predicate IsBest(r: Regex, src: string, s: nat, e: nat) {
    Leftmost(r, src, s, e) && Longest(r, src, s, e)
  }

  /** The leftmost longest match. */
  ghost function Best(r: Regex, src: string): Option<(nat, nat)> {
    if exists s: nat, e: nat :: IsBest(r, src, s, e) then
      var s: nat, e: nat :| IsBest(r, src, s, e);
      Some((s, e))
    else None
  }

  lemma BestIs(r: Regex, src: string, s: nat, e: nat)
    requires IsBest(r, src, s, e)
    ensures Best(r, src) == Some((s, e))
  {
    hide In;
    var t: nat, f: nat := Best(r, src).value.0, Best(r, src).value.1;
    assert IsBest(r, src, t, f);
    assert t == s && f == e;
  }

  lemma BestLocates(r: Regex, src: string)
    ensures if Best(r, src).None? then !Matches(r, src) else IsBest(r, src, Best(r, src).value.0, Best(r, src).value.1)
  {
    hide In;
    if Matches(r, src) {
      var s, e := LeftmostExists(r, src);
      var f := LongestExists(r, src, s, e);
      BestIs(r, src, s, f);
    }
  }

  lemma NoBest(r: Regex, src: string)
    requires !Matches(r, src)
    ensures Best(r, src).None?
  {
    hide In;
  }

  lemma LeftmostExists(r: Regex, src: string) returns (s: nat, e: nat)
    requires Matches(r, src)
    ensures Leftmost(r, src, s, e)
  {
    hide In;
    s := 0;
    while !exists j :: s <= j <= |src| && In(r, src[s..j])
      invariant s <= |src| && forall i, j :: 0 <= i < s && i <= j <= |src| ==> !In(r, src[i..j])
      decreases |src| - s
    {
      if s == |src| {
        var i, j :| 0 <= i <= j <= |src| && In(r, src[i..j]);
        assert false;
      }
      s := s + 1;
    }
    e :| s <= e <= |src| && In(r, src[s..e]);
  }

  lemma LongestExists(r: Regex, src: string, s: nat, e: nat) returns (f: nat)
    requires Leftmost(r, src, s, e)
    ensures IsBest(r, src, s, f)
    decreases |src| - e
  {
    hide In;
    f := e;
    if j :| e < j <= |src| && In(r, src[s..j]) {
      f := LongestExists(r, src, s, j);
    }
  }

  /** The decimal match that the regular expression prefers. */
  ghost function BestDecimal(src: string): Option<(nat, nat)> {
    if exists s: nat, e: nat :: DecimalRun.LeftmostMatch(src, s, e) then
      var s: nat, e: nat :| DecimalRun.LeftmostMatch(src, s, e);
      Some((s, e))
    else None
  }

  lemma BestDecimalIs(src: string, start: int, end: nat)
    requires DecimalRun.LeftmostMatch(src, start, end)
    ensures BestDecimal(src) == if start >= 0 then Some((start as nat, end)) else None
  {
    hide DecimalRun.Match;
    if s: nat, e: nat :| DecimalRun.LeftmostMatch(src, s, e) {
      assert start >= 0 && s == start;
    }
  }

  lemma BestDecimalLocates(src: string)
    ensures if BestDecimal(src).None? then !Matches(DEC_SEQ, src)
            else Leftmost(DEC_SEQ, src, BestDecimal(src).value.0, BestDecimal(src).value.1)
  {
    hide Matches, Leftmost, DEC_SEQ, DecimalRun.Match;
    var start, end := FirstDecimal(src);
    BestDecimalIs(src, start, end);
    DecimalFinds(src, start, end);
  }

  lemma FirstDecimal(src: string) returns (start: int, end: nat)
    ensures DecimalRun.LeftmostMatch(src, start, end)
  {
    hide DecimalRun.Group;
    start, end := 0, 0;
    while start <= |src| && DecimalRun.Match(src, start).None?
      invariant 0 <= start <= |src| + 1 && DecimalRun.NoMatchBefore(src, start)
    {
      start := start + 1;
    }
    if start <= |src| {
      end := DecimalRun.Match(src, start).value;
    } else {
      start := -1;
      DecimalRun.NoMatchAtAll(src);
    }
  }

  /** How a decoder finds its next run: four by scanners for the leftmost longest match, one by a scanner for the
      match that the regular expression prefers, three by the engine. */
  ghost function FinderFor(k: Decoder, re: Engine): Finder {
    match k
    case Base64 => b => Best(BASE64, b)
    case Hex => b => Best(HEX_RUN, b)
    case XEscape => re.xEscape
    case AmpHex => re.ampHex
    case UEscape => re.uEscape
    case Decimal => b => BestDecimal(b)
    case Netbios => b => Best(NETBIOS, b)
    case Base32 => b => Best(BASE32, b)
  }

  lemma FinderLocates(k: Decoder, re: Engine, src: string)
    requires Sound(re)
    ensures Locates(FinderFor(k, re), PatternOf(k), src)
  {
    hide Best, BestDecimal, Matches, Leftmost, Longest,
         BASE64, HEX_RUN, X_ESCAPE, AMP_HEX, U_ESCAPE, DEC_SEQ, NETBIOS, BASE32;
    BestLocates(PatternOf(k), src);
    BestDecimalLocates(src);
  }

  lemma HandedOverRun(k: Decoder, src: string, s: nat, e: nat)
    requires s <= e <= |src|
    ensures HandedOver(k, src[s..e]) <==>
            match k case Base64 => !AllHex(src, s, e) case Base32 => Distinct(src, s, e) case _ => true
  {
    hide AllHex, Distinct;
    HandedOverAt(src, s, e);
  }

  /** The next run that the engine finds. */
  method NextEngineRun(find: Finder, src: string) returns (start: int, end: int)
    ensures start < 0 ==> find(src).None?
    ensures start >= 0 ==> end >= 0 && find(src) == Some((start as nat, end as nat))
  {
    if find(src).None? {
      return -1, 0;
    }
    return find(src).value.0, find(src).value.1;
  }

  /** The next run of a decoder, by its scanner or by the engine. */
  method NextRun(k: Decoder, src: string, re: Engine) returns (start: int, end: int, handed: bool)
    requires Sound(re)
    ensures start < 0 ==> FinderFor(k, re)(src).None?
    ensures start >= 0 ==>
              && end >= 0 && FinderFor(k, re)(src) == Some((start as nat, end as nat))
              && start < end <= |src| && (handed <==> HandedOver(k, src[start..end]))
  {
    hide BASE64, HEX_RUN, X_ESCAPE, AMP_HEX, U_ESCAPE, DEC_SEQ, NETBIOS, BASE32, Matches, HandedOver, AllHex, Distinct,
         Sound, Leftmost, Longest, Checkpoint, Best, BestDecimal, MinLength;
    var flag := true;
    match k {
      case Base64 | Hex =>
        start, end, flag := NextDecodeRun(src, k.Hex?, _ => false);
        ScannerFinds(PatternOf(k), src, start, end);
      case Netbios | Base32 =>
        start, end, flag := NextScalarRun(src, k.Base32?, _ => false);
        ScannerFinds(PatternOf(k), src, start, end);
      case Decimal =>
        start, end := DecimalRun.NextDecSeqRun(src, _ => false);
        BestDecimalIs(src, start, end);
      case XEscape => start, end := NextEngineRun(re.xEscape, src);
      case AmpHex => start, end := NextEngineRun(re.ampHex, src);
      case UEscape => start, end := NextEngineRun(re.uEscape, src);
    }
    handed := match k case Base64 => !flag case Base32 => flag case _ => true;
    if start >= 0 {
      FinderLocates(k, re, src);
      DecodersHaveLength(k);
      MatchIsLong(PatternOf(k), src, start, end);
      HandedOverRun(k, src, start, end);
    }
  }

  lemma ScannerFinds(r: Regex, src: string, start: int, end: int)
    requires Finds(r, src, start, end, _ => false)
    ensures Best(r, src) == if start >= 0 && end >= 0 then Some((start as nat, end as nat)) else None
    ensures start >= 0 ==> end >= 0
  {
    hide In, Best;
    if start >= 0 {
      BestIs(r, src, start, end);
    } else {
      BestLocates(r, src);
    }
  }

  ghost function Handed(k: Decoder, runs: seq<string>): seq<string> {
    if runs == [] then []
    else Handed(k, runs[..|runs| - 1]) + if HandedOver(k, runs[|runs| - 1]) then [runs[|runs| - 1]] else []
  }

  /** Everything that a decoder takes from a buffer. */
  ghost function TakenBy(k: Decoder, re: Engine, src: string): seq<string> {
    Handed(k, Pieces(FinderFor(k, re), src, -1))
  }

  lemma {:induction false} HandedSome(k: Decoder, runs: seq<string>)
    ensures Handed(k, runs) != [] <==> exists x :: x in runs && HandedOver(k, x)
  {
    hide HandedOver;
    if runs != [] {
      var front, last := runs[..|runs| - 1], runs[|runs| - 1];
      HandedSome(k, front);
      assert runs == front + [last];
    }
  }

  lemma PiecesGoOn(find: Finder, done: seq<string>, rest: string, left: int)
    requires left != 0 && rest != "" && find(rest).Some?
    requires find(rest).value.0 <= find(rest).value.1 <= |rest| && find(rest).value.1 > 0
    ensures var s, e := find(rest).value.0, find(rest).value.1;
            done + Pieces(find, rest, left) == (done + [rest[s..e]]) + Pieces(find, rest[e..], left - 1)
  {
  }

  lemma PiecesEnd(find: Finder, done: seq<string>, rest: string, left: int)
    requires left == 0 || rest == "" || find(rest).None?
    ensures done + Pieces(find, rest, left) == done
  {
  }

  /** One decoder's loop over the buffer: exactly the runs that it takes. */
  method FindRuns(k: Decoder, src: string, re: Engine) returns (handed: seq<string>)
    requires Sound(re)
    ensures handed == TakenBy(k, re, src)
  {
    hide Pieces, HandedOver, Sound;
    ghost var find := FinderFor(k, re);
    hide FinderFor;
    var rest := src;
    ghost var left, done := -1, [];
    handed := [];
    assert done + Pieces(find, src, -1) == Pieces(find, src, -1);
    while |rest| > 0
      invariant done + Pieces(find, rest, left) == Pieces(find, src, -1) && left < 0 && handed == Handed(k, done)
      decreases |rest|
    {
      var start, end, ok := NextRun(k, rest, re);
      if start < 0 {
        PiecesEnd(find, done, rest, left);
        return;
      }
      PiecesGoOn(find, done, rest, left);
      var run := rest[start..end];
      if ok {
        handed := handed + [run];
      }
      assert (done + [run])[..|done|] == done;
      done := done + [run];
      rest := rest[end..];
      left := left - 1;
    }
    PiecesEnd(find, done, rest, left);
  }

  /* ---------------------------------------------------------------- the reversed copy */

  function Reversed(s: string): string {
    seq(|s|, i requires 0 <= i < |s| => s[|s| - 1 - i])
  }

  ghost predicate HasReversedMarker(b: string) {
    exists i :: 0 <= i < |REVERSED| && ContainsFold(b, REVERSED[i])
  }

  method EmitReversed(src: string) returns (runs: seq<string>)
    ensures runs == if 0 < |src| <= MAX_WINDOW && HasReversedMarker(src) then [Reversed(src)] else []
  {
    if |src| == 0 || |src| > MAX_WINDOW {
      return [];
    }
    var hit := ContainsAny(src, REVERSED);
    if !hit {
      return [];
    }
    var rev := new char[|src|];
    for i := 0 to |src|
      invariant forall k :: 0 <= k < i ==> rev[|src| - 1 - k] == src[k]
    {
      rev[|src| - 1 - i] := src[i];
    }
    forall k | 0 <= k < |src| ensures rev[..][k] == Reversed(src)[k] {
      assert rev[|src| - 1 - (|src| - 1 - k)] == src[|src| - 1 - k];
    }
    assert rev[..] == Reversed(src);
    return [rev[..]];
  }

  /* ---------------------------------------------------------------- folding VBA strings */

  datatype Folding = ChrConcat | Replace | ArrayXor | StrReverse | Environ | VarReplace | Dridex

  function FoldPattern(f: Folding): Regex {
    match f
    case ChrConcat => CHR_CONCAT
    case Replace => REPLACE
    case ArrayXor => ARRAY_XOR
    case StrReverse => STR_REVERSE
    case Environ => ENVIRON
    case VarReplace => VAR_REPLACE
    case Dridex => DRIDEX
  }

  /** The literal that a folding asks for before it searches; `bound` says whether the script assigns a string
      to any variable. */
  ghost predicate FoldGate(f: Folding, w: string, bound: bool) {
    match f
    case ChrConcat => HasChar(w, IsJoiner) && (HasChar(w, IsQuote) || ContainsFold(w, "chr"))
    case Replace => ContainsFold(w, "replace(")
    case ArrayXor => ContainsFold(w, "array(")
    case StrReverse => ContainsFold(w, "strreverse(")
    case Environ => ContainsFold(w, "environ")
    case VarReplace => ContainsFold(w, "replace(") && bound
    case Dridex => true
  }

  const MAX_MATCHES: int := 64

  method ContainsClass(b: string, ok: char -> bool) returns (found: bool)
    ensures found <==> HasChar(b, ok)
  {
    for i := 0 to |b|
      invariant forall k :: 0 <= k < i ==> !ok(b[k])
    {
      if ok(b[i]) {
        return true;
      }
    }
    return false;
  }

  method GateFold(f: Folding, w: string, bound: bool) returns (open: bool)
    ensures open <==> FoldGate(f, w, bound)
  {
    hide ContainsFold, HasChar;
    match f {
      case ChrConcat =>
        open := ContainsClass(w, IsJoiner);
        if open {
          open := ContainsClass(w, IsQuote);
          if !open {
            open := AsciiContainsFold(w, "chr");
          }
        }
      case Replace => open := AsciiContainsFold(w, "replace(");
      case ArrayXor => open := AsciiContainsFold(w, "array(");
      case StrReverse => open := AsciiContainsFold(w, "strreverse(");
      case Environ => open := AsciiContainsFold(w, "environ");
      case VarReplace =>
        open := AsciiContainsFold(w, "replace(");
        open := open && bound;
      case Dridex => open := true;
    }
  }

  function FinderOf(f: Folding, re: Engine): Finder {
    match f
    case ChrConcat => re.chrConcat
    case Replace => re.replace
    case ArrayXor => re.arrayXor
    case StrReverse => re.strReverse
    case Environ => re.environ
    case VarReplace => re.varReplace
    case Dridex => re.dridex
  }

  lemma FoldsHaveLength(f: Folding)
    ensures MinLength(FoldPattern(f)) > 0
  {
    hide MinLength, Word, WideWord, Arguments;
    match f
    case ChrConcat =>
      FirstCounts(CHR_TOKEN, AtLeast(1, CHR_JOIN));
      TokenHasLength();
    case Replace => WordCounts("replace(", Arguments(LITERAL));
    case ArrayXor => WordCounts("array(", ARRAY_XOR.second);
    case StrReverse => WordCounts("strreverse", STR_REVERSE.second);
    case Environ => WordCounts("environ", ENVIRON.second);
    case VarReplace => WordCounts("replace(", Arguments(Or(LITERAL, IDENTIFIER)));
    case Dridex =>
      FirstCounts(Only('"'), DRIDEX.second);
      OneCounts('"');
  }

  lemma FirstCounts(a: Regex, b: Regex)
    ensures MinLength(Then(a, b)) >= MinLength(a)
  {
  }

  lemma OneCounts(c: char)
    ensures MinLength(Only(c)) == 1
  {
  }

  lemma WordCounts(word: string, rest: Regex)
    requires word != ""
    ensures MinLength(Then(Word(word), rest)) > 0 && MinLength(Then(WideWord(word), rest)) > 0
  {
    assert MinLength(LONG_S) == 2 && MinLength(KELVIN) == 3 && MinLength(FoldWide(word[0])) == 1;
  }

  lemma TokenHasLength()
    ensures MinLength(CHR_TOKEN) > 0
  {
    hide Word, MinLength;
    WordCounts("chr", CHR_CALL.second);
    FirstCounts(Only('"'), LITERAL.second);
    OneCounts('"');
    EitherCounts(LITERAL, CHR_CALL);
  }

  lemma EitherCounts(a: Regex, b: Regex)
    requires MinLength(a) > 0 && MinLength(b) > 0
    ensures MinLength(Or(a, b)) > 0
  {
  }

  /** Plain hex literals are left to the hex decoder. */
  ghost predicate FoldTakes(f: Folding, run: string) {
    f.Dridex? ==> exists i :: 1 <= i < |run| - 1 && IsBeyondHex(run[i])
  }

  predicate IsBeyondHex(c: char) { 'G' <= c <= 'Z' || 'g' <= c <= 'z' }

  ghost function FoldHanded(f: Folding, runs: seq<string>): seq<string> {
    if runs == [] then []
    else FoldHanded(f, runs[..|runs| - 1]) + if FoldTakes(f, runs[|runs| - 1]) then [runs[|runs| - 1]] else []
  }

  /** Everything that a folding takes from a buffer. */
  ghost function FoldedBy(f: Folding, re: Engine, src: string, bound: bool): seq<string> {
    if FoldGate(f, Window(src), bound) then FoldHanded(f, Pieces(FinderOf(f, re), Window(src), MAX_MATCHES)) else []
  }

  method TakesFold(f: Folding, run: string) returns (ok: bool)
    ensures ok <==> FoldTakes(f, run)
  {
    if !f.Dridex? {
      return true;
    }
    var i := 1;
    while i < |run| - 1
      invariant 1 <= i && forall k :: 1 <= k < i && k < |run| - 1 ==> !IsBeyondHex(run[k])
    {
      if IsBeyondHex(run[i]) {
        return true;
      }
      i := i + 1;
    }
    return false;
  }

  lemma FoldLocates(f: Folding, re: Engine, src: string)
    requires Sound(re)
    ensures Locates(FinderOf(f, re), FoldPattern(f), src)
  {
    hide Matches, Leftmost, CHR_CONCAT, REPLACE, ARRAY_XOR, STR_REVERSE, ENVIRON, VAR_REPLACE, DRIDEX;
  }

  /** All matches of a folding, up to the limit, that it takes. */
  method FindAll(f: Folding, w: string, re: Engine) returns (taken: seq<string>)
    requires Sound(re)
    ensures taken == FoldHanded(f, Pieces(FinderOf(f, re), w, MAX_MATCHES))
  {
    hide Pieces, Leftmost, MinLength, Matches, Sound, FoldPattern, FoldTakes;
    var find, rest, left := FinderOf(f, re), w, MAX_MATCHES;
    ghost var done: seq<string> := [];
    taken := [];
    assert done + Pieces(find, w, MAX_MATCHES) == Pieces(find, w, MAX_MATCHES);
    while left > 0
      invariant left >= 0 && done + Pieces(find, rest, left) == Pieces(find, w, MAX_MATCHES)
      invariant taken == FoldHanded(f, done)
    {
      FoldLocates(f, re, rest);
      if find(rest).None? {
        PiecesEnd(find, done, rest, left);
        return;
      }
      var start, end := find(rest).value.0, find(rest).value.1;
      FoldsHaveLength(f);
      MatchIsLong(FoldPattern(f), rest, start, end);
      PiecesGoOn(find, done, rest, left);
      var run := rest[start..end];
      var ok := TakesFold(f, run);
      if ok {
        taken := taken + [run];
      }
      assert (done + [run])[..|done|] == done;
      done := done + [run];
      rest := rest[end..];
      left := left - 1;
    }
    PiecesEnd(find, done, rest, left);
  }

  /** One folding over the clamped buffer. */
  method FoldStrings(f: Folding, src: string, re: Engine, bound: bool) returns (taken: seq<string>)
    requires Sound(re)
    ensures taken == FoldedBy(f, re, src, bound)
  {
    var w := Window(src);
    var open := GateFold(f, w, bound);
    if !open {
      return [];
    }
    taken := FindAll(f, w, re);
  }
}
