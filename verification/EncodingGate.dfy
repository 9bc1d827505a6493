/** The cheap gate before the decoder chain, and the patterns it stands for.
    `GateStrict` proves exactly what it turns away. */
module EncodingGate {
  import opened Basics
  import opened RegexLanguage

  /* ---------------------------------------------------------------- characters */

  function Lower(c: char): char {
    if 'A' <= c <= 'Z' then c - 'A' + 'a' else c
  }

  predicate IsLetter(c: char) { 'A' <= c <= 'Z' || 'a' <= c <= 'z' }

  predicate IsAlnum(c: char) { IsDigit(c) || IsLetter(c) }

  predicate IsBase64(c: char) { IsAlnum(c) || c == '+' || c == '/' }

  predicate IsHex(c: char) { IsDigit(c) || 'a' <= c <= 'f' || 'A' <= c <= 'F' }

  predicate IsBase32(c: char) { 'A' <= c <= 'Z' || '2' <= c <= '7' }

  predicate IsNetbios(c: char) { 'A' <= c <= 'P' }

  predicate IsDecimal(c: char) { IsDigit(c) || c == ',' || c == ';' }

  /** White space as a regular expression sees it. */
  predicate IsSpace(c: char) { c == ' ' || c == '\t' || c == '\n' || c == '\r' || c as int == 12 }

  predicate IsQuote(c: char) { c == '"' }

  predicate IsJoiner(c: char) { c == '&' || c == '+' }

  /* ---------------------------------------------------------------- patterns */

  function Only(c: char): Regex { One(x => x == c) }

  /** A letter in either case. */
  function Fold(c: char): Regex { One(x => Lower(x) == c) }

  /** Two letters outside ASCII that a case-insensitive search takes for `s` and `k`, as UTF-8. */
  const LONG_S := Then(Only(0xC5 as char), Only(0xBF as char))
  const KELVIN := Then(Only(0xE2 as char), Then(Only(0x84 as char), Only(0xAA as char)))

  /** A letter in either case, as a case-insensitive search sees it. */
  function FoldWide(c: char): Regex {
    if c == 's' then Or(Fold(c), LONG_S) else if c == 'k' then Or(Fold(c), KELVIN) else Fold(c)
  }

  function WideWord(s: string): Regex {
    if s == "" then Nothing else Then(FoldWide(s[0]), WideWord(s[1..]))
  }

  const LETTER := Or(One(IsLetter), Or(LONG_S, KELVIN))
  const WORD_CHAR := Or(One(c => IsAlnum(c) || c == '_'), Or(LONG_S, KELVIN))

  /** A literal without `s` and `k`, in any case. */
  function Word(s: string): Regex {
    if s == "" then Nothing else Then(Fold(s[0]), Word(s[1..]))
  }

  const SPACES := AtLeast(0, One(IsSpace))
  const DIGIT := One(IsDigit)
  const HEX := One(IsHex)
  /** A string literal; a doubled quote stands for a quote. */
  const LITERAL := Then(Only('"'), Then(AtLeast(0, Or(One(c => c != '"'), Then(Only('"'), Only('"')))), Only('"')))
  const IDENTIFIER := Then(LETTER, UpTo(63, WORD_CHAR))
  const NUMBER3 := Then(DIGIT, UpTo(2, DIGIT))

  const BASE64 := Then(AtLeast(24, One(IsBase64)), UpTo(2, Only('=')))
  const HEX_RUN := AtLeast(16, Then(HEX, HEX))
  const CHR_CALL :=
    Then(Word("chr"), Then(Optional(One(c => Lower(c) == 'w' || Lower(c) == 'b')), Then(Optional(Only('$')),
      Then(SPACES, Then(Only('('), Then(Then(DIGIT, UpTo(4, DIGIT)), Only(')')))))))
  const CHR_TOKEN := Or(LITERAL, CHR_CALL)
  const CHR_JOIN := Then(SPACES, Then(One(IsJoiner), Then(SPACES, CHR_TOKEN)))
  const CHR_CONCAT := Then(CHR_TOKEN, AtLeast(1, CHR_JOIN))
  function Arguments(arg: Regex): Regex {
    Then(SPACES, Then(arg, Then(SPACES, Then(Only(','), Then(SPACES, Then(arg, Then(SPACES, Then(Only(','),
      Then(SPACES, Then(arg, Then(SPACES, Only(')'))))))))))))
  }
  const REPLACE := Then(Word("replace("), Arguments(LITERAL))
  const VAR_REPLACE := Then(Word("replace("), Arguments(Or(LITERAL, IDENTIFIER)))
  const ARRAY_XOR :=
    Then(Word("array("), Then(AtLeast(1, One(c => IsDigit(c) || c == ',' || IsSpace(c))), Then(Only(')'),
      Then(SPACES, Then(Word("xor"), Then(AtLeast(1, One(IsSpace)), NUMBER3))))))
  const STR_REVERSE := Then(WideWord("strreverse"),
                            Then(Only('('), Then(SPACES, Then(LITERAL, Then(SPACES, Only(')'))))))
  const ENVIRON :=
    Then(Word("environ"), Then(Optional(Only('$')),
                               Then(Only('('), Then(SPACES, Then(LITERAL, Then(SPACES, Only(')')))))))
  const DRIDEX := Then(Only('"'), Then(AtLeast(20, One(IsAlnum)), Only('"')))
  const X_ESCAPE := AtLeast(8, Then(Only('\\'), Then(Only('x'), Then(HEX, HEX))))
  const AMP_HEX :=
    AtLeast(8, Then(Only('&'),
                    Then(One(c => c == 'H' || c == 'h'),
                         Then(HEX, Then(HEX, AtLeast(0, One(c => c == ',' || IsSpace(c))))))))
  const U_ESCAPE := AtLeast(8,
                            Then(One(c => c == '\\' || c == '%'),
                                 Then(Only('u'), Then(HEX, Then(HEX, Then(HEX, HEX))))))
  const DEC_SEQ := Then(NUMBER3, AtLeast(11, Then(One(c => c == ',' || c == ';'), NUMBER3)))
  const BASE32 := Then(AtLeast(32, One(IsBase32)), UpTo(6, Only('=')))
  const NETBIOS := AtLeast(32, One(IsNetbios))

  /** Everything that the decoders and the re-decode test look for, besides the reversed markers. */
  const PATTERNS: seq<Regex> :=
    [BASE64, HEX_RUN, CHR_CONCAT, REPLACE, VAR_REPLACE, ARRAY_XOR, STR_REVERSE, ENVIRON, DRIDEX, X_ESCAPE, AMP_HEX,
     U_ESCAPE, DEC_SEQ, BASE32, NETBIOS]

  const STR_REVERSE_AT: nat := 6

  /* ---------------------------------------------------------------- the gate */

  const MAX_WINDOW: nat := 1048576
  const MIN_RUN: nat := 20
  const MIN_DECIMAL_RUN: nat := 23

  const REVERSED: seq<string> := ["llehsrewop", "llehs.tpircsw", "tcejboetaerc", "exe.dmc", "elifotevas", "ptthnwod"]
  const MARKERS: seq<string> := ["\\x", "\\u", "%u", "&h", "chr", "replace(", "array(", "strreverse", "environ"]

  ghost predicate HasRun(b: string, class_: char -> bool, n: nat) {
    exists s :: 0 <= s <= |b| - n && RunAt(b, class_, s, n)
  }

  predicate RunAt(b: string, class_: char -> bool, s: int, n: nat) {
    0 <= s <= |b| - n && forall k :: s <= k < s + n ==> class_(b[k])
  }

  ghost predicate HasChar(b: string, class_: char -> bool) {
    exists k :: 0 <= k < |b| && class_(b[k])
  }

  predicate FoldedAt(b: string, m: string, s: int) {
    0 <= s <= |b| - |m| && forall k :: 0 <= k < |m| ==> Lower(b[s + k]) == m[k]
  }

  ghost predicate ContainsFold(b: string, m: string) {
    exists s :: FoldedAt(b, m, s)
  }

  function Window(b: string): string {
    Clamped(b, MAX_WINDOW)
  }

  /** What the gate lets through. */
  ghost predicate MayBeEncoded(b: string) {
    var w := Window(b);
    || HasRun(w, IsBase64, MIN_RUN) || HasRun(w, IsDecimal, MIN_DECIMAL_RUN)
    || (HasChar(w, IsQuote) && HasChar(w, IsJoiner))
    || (exists i :: 0 <= i < |MARKERS| && ContainsFold(w, MARKERS[i]))
    || (exists i :: 0 <= i < |REVERSED| && ContainsFold(w, REVERSED[i]))
  }

  /* ---------------------------------------------------------------- from a part to the whole */

  lemma RunOfPart(b: string, s: nat, e: nat, class_: char -> bool, n: nat, at: nat)
    requires s <= e <= |b| && at + n <= e - s && forall k :: at <= k < at + n ==> class_(b[s..e][k])
    ensures HasRun(b, class_, n)
  {
    forall k | s + at <= k < s + at + n ensures class_(b[k]) {
      assert b[s..e][k - s] == b[k];
    }
    assert RunAt(b, class_, s + at, n);
  }

  lemma CharOfPart(b: string, s: nat, e: nat, class_: char -> bool, at: nat)
    requires s <= e <= |b| && at < e - s && class_(b[s..e][at])
    ensures HasChar(b, class_)
  {
    assert b[s..e][at] == b[s + at];
  }

  lemma WordOfPart(b: string, s: nat, e: nat, m: string)
    requires s <= e <= |b| && FoldedAt(b[s..e], m, 0)
    ensures ContainsFold(b, m)
  {
    forall k | 0 <= k < |m| ensures Lower(b[s + k]) == m[k] {
      assert b[s..e][0 + k] == b[s + k];
    }
    assert FoldedAt(b, m, s);
  }

  /** A word of a literal is that literal, in any case. */
  lemma {:induction false} WordsSpell(m: string, rest: Regex, w: string)
    requires In(Then(Word(m), rest), w)
    ensures FoldedAt(w, m, 0)
  {
    var i := FirstPart(Word(m), rest, w);
    Spelled(m, w[..i]);
    forall k | 0 <= k < |m| ensures Lower(w[k]) == m[k] {
      assert w[..i][0 + k] == w[k];
    }
  }

  lemma {:induction false} Spelled(m: string, w: string)
    requires In(Word(m), w)
    ensures |w| == |m| && FoldedAt(w, m, 0)
  {
    if m != "" {
      FirstChar(x => Lower(x) == m[0], Word(m[1..]), w);
      Spelled(m[1..], w[1..]);
      forall k | 0 <= k < |m| ensures Lower(w[k]) == m[k] {
        if k > 0 {
          assert Lower(w[1..][0 + (k - 1)]) == m[1..][k - 1];
        }
      }
    }
  }

  /* ---------------------------------------------------------------- pattern by pattern */

  /** What lets the gate open for a buffer within its window. */
  lemma GateOpens(b: string)
    requires |b| <= MAX_WINDOW
    requires || HasRun(b, IsBase64, MIN_RUN) || HasRun(b, IsDecimal, MIN_DECIMAL_RUN)
             || (HasChar(b, IsQuote) && HasChar(b, IsJoiner))
             || (exists i :: 0 <= i < |MARKERS| && ContainsFold(b, MARKERS[i]))
    ensures MayBeEncoded(b)
  {
  }

  lemma RunPattern(b: string, s: nat, e: nat, r: Regex, class_: char -> bool, n: nat)
    requires s <= e <= |b| && In(r, b[s..e]) && Within(r, class_) && MinLength(r) >= n
    ensures HasRun(b, class_, n)
  {
    WordsAreLong(r, b[s..e]);
    WordsStayWithin(r, b[s..e], class_);
    RunOfPart(b, s, e, class_, n, 0);
  }

  lemma RunThenPattern(b: string, s: nat, e: nat, r: Regex, rest: Regex, class_: char -> bool, n: nat)
    requires s <= e <= |b| && In(Then(r, rest), b[s..e]) && Within(r, class_) && MinLength(r) >= n
    ensures HasRun(b, class_, n)
  {
    var i := FirstPart(r, rest, b[s..e]);
    assert b[s..e][..i] == b[s..s + i];
    RunPattern(b, s, s + i, r, class_, n);
  }

  lemma {:induction false} RunsOpen(b: string, s: nat, e: nat)
    requires |b| <= MAX_WINDOW && s <= e <= |b|
    requires var w := b[s..e]; In(HEX_RUN, w) || In(NETBIOS, w) || In(BASE64, w) || In(BASE32, w)
    ensures MayBeEncoded(b)
  {
    var w := b[s..e];
    assert MinLength(HEX) == 1 && MinLength(HEX_RUN.body) == 2 && MinLength(HEX_RUN) == 16 * MinLength(HEX_RUN.body);
    assert MinLength(NETBIOS.body) == 1 && MinLength(NETBIOS) == 32 * MinLength(NETBIOS.body);
    if In(HEX_RUN, w) {
      RunPattern(b, s, e, HEX_RUN, IsBase64, MIN_RUN);
    } else if In(NETBIOS, w) {
      RunPattern(b, s, e, NETBIOS, IsBase64, MIN_RUN);
    } else if In(BASE64, w) {
      RunThenPattern(b, s, e, AtLeast(24, One(IsBase64)), UpTo(2, Only('=')), IsBase64, MIN_RUN);
    } else {
      RunThenPattern(b, s, e, AtLeast(32, One(IsBase32)), UpTo(6, Only('=')), IsBase64, MIN_RUN);
    }
    GateOpens(b);
  }

  lemma {:induction false} UpToStays(n: nat, r: Regex, class_: char -> bool)
    requires Within(r, class_)
    ensures Within(UpTo(n, r), class_) && MinLength(UpTo(n, r)) == 0
  {
    if n > 0 {
      UpToStays(n - 1, r, class_);
      assert Within(Optional(r), class_) && MinLength(Optional(r)) == 0;
    }
  }

  lemma Lengths(n: nat, a: Regex, b: Regex)
    ensures MinLength(Then(a, b)) == MinLength(a) + MinLength(b)
    ensures MinLength(AtLeast(n, Then(a, b))) == n * (MinLength(a) + MinLength(b))
  {
  }

  lemma DecimalsOpen(b: string, s: nat, e: nat)
    requires |b| <= MAX_WINDOW && s <= e <= |b| && In(DEC_SEQ, b[s..e])
    ensures MayBeEncoded(b)
  {
    UpToStays(2, DIGIT, IsDecimal);
    assert Within(NUMBER3, IsDecimal) && MinLength(NUMBER3) == 1;
    var more := DEC_SEQ.second;
    assert MinLength(more.body.first) == 1 && Within(more.body.first, IsDecimal);
    Lengths(11, more.body.first, NUMBER3);
    assert Within(more.body, IsDecimal) && Within(more, IsDecimal);
    Lengths(0, NUMBER3, more);
    RunPattern(b, s, e, DEC_SEQ, IsDecimal, MIN_DECIMAL_RUN);
    GateOpens(b);
  }

  lemma DridexOpens(b: string, s: nat, e: nat)
    requires |b| <= MAX_WINDOW && s <= e <= |b| && In(DRIDEX, b[s..e])
    ensures MayBeEncoded(b)
  {
    var rest := Then(AtLeast(20, One(IsAlnum)), Only('"'));
    FirstChar(x => x == '"', rest, b[s..e]);
    assert b[s..e][1..] == b[s + 1..e];
    RunThenPattern(b, s + 1, e, AtLeast(20, One(IsAlnum)), Only('"'), IsBase64, MIN_RUN);
    GateOpens(b);
  }

  lemma MarkerOpens(b: string, s: nat, e: nat, i: nat)
    requires |b| <= MAX_WINDOW && s <= e <= |b| && i < |MARKERS| && FoldedAt(b[s..e], MARKERS[i], 0)
    ensures MayBeEncoded(b)
  {
    WordOfPart(b, s, e, MARKERS[i]);
    GateOpens(b);
  }

  lemma WordPatternOpens(b: string, s: nat, e: nat, i: nat, rest: Regex)
    requires |b| <= MAX_WINDOW && s <= e <= |b| && i < |MARKERS| && In(Then(Word(MARKERS[i]), rest), b[s..e])
    ensures MayBeEncoded(b)
  {
    WordsSpell(MARKERS[i], rest, b[s..e]);
    MarkerOpens(b, s, e, i);
  }

  lemma {:induction false} WordsOpen(b: string, s: nat, e: nat)
    requires |b| <= MAX_WINDOW && s <= e <= |b|
    requires var w := b[s..e]; In(REPLACE, w) || In(VAR_REPLACE, w) || In(ARRAY_XOR, w) || In(ENVIRON, w)
    ensures MayBeEncoded(b)
  {
    hide In, MayBeEncoded, Word, Arguments;
    var w := b[s..e];
    if In(REPLACE, w) {
      WordPatternOpens(b, s, e, 5, REPLACE.second);
    } else if In(VAR_REPLACE, w) {
      WordPatternOpens(b, s, e, 5, VAR_REPLACE.second);
    } else if In(ARRAY_XOR, w) {
      WordPatternOpens(b, s, e, 6, ARRAY_XOR.second);
    } else {
      WordPatternOpens(b, s, e, 8, ENVIRON.second);
    }
  }

  /** An escape run begins with its two marker characters. */
  lemma EscapeStarts(n: nat, first: char -> bool, second: char -> bool, rest: Regex, w: string)
    requires n > 0 && In(AtLeast(n, Then(One(first), Then(One(second), rest))), w)
    ensures |w| >= 2 && first(w[0]) && second(w[1])
  {
    var i := FirstRepeat(n, Then(One(first), Then(One(second), rest)), w);
    FirstChar(first, Then(One(second), rest), w[..i]);
    FirstChar(second, rest, w[..i][1..]);
    assert w[..i][1..][0] == w[1];
  }

  lemma {:induction false} EscapesOpen(b: string, s: nat, e: nat)
    requires |b| <= MAX_WINDOW && s <= e <= |b|
    requires var w := b[s..e]; In(X_ESCAPE, w) || In(AMP_HEX, w) || In(U_ESCAPE, w)
    ensures MayBeEncoded(b)
  {
    hide In, MayBeEncoded;
    var w := b[s..e];
    if In(X_ESCAPE, w) {
      EscapeStarts(8, X_ESCAPE.body.first.ok, X_ESCAPE.body.second.first.ok, X_ESCAPE.body.second.second, w);
      MarkerOpens(b, s, e, 0);
    } else if In(U_ESCAPE, w) {
      EscapeStarts(8, U_ESCAPE.body.first.ok, U_ESCAPE.body.second.first.ok, U_ESCAPE.body.second.second, w);
      MarkerOpens(b, s, e, if w[0] == '%' then 2 else 1);
    } else {
      EscapeStarts(8, AMP_HEX.body.first.ok, AMP_HEX.body.second.first.ok, AMP_HEX.body.second.second, w);
      MarkerOpens(b, s, e, 3);
    }
  }

  /** Somewhere in a joined token there is a joiner. */
  lemma JoinHasJoiner(w: string) returns (k: nat)
    requires In(CHR_JOIN, w)
    ensures k < |w| && IsJoiner(w[k])
  {
    k := FirstPart(SPACES, CHR_JOIN.second, w);
    FirstChar(IsJoiner, CHR_JOIN.second.second, w[k..]);
    assert w[k..][0] == w[k];
  }

  /** A concatenation names `Chr`, or it has a quote and a joiner. */
  lemma {:induction false} ConcatOpens(b: string, s: nat, e: nat)
    requires |b| <= MAX_WINDOW && s <= e <= |b| && In(CHR_CONCAT, b[s..e])
    ensures MayBeEncoded(b)
  {
    hide In, MayBeEncoded;
    var w := b[s..e];
    var i := FirstPart(CHR_TOKEN, CHR_CONCAT.second, w);
    if In(CHR_CALL, w[..i]) {
      assert w[..i] == b[s..s + i];
      WordPatternOpens(b, s, s + i, 4, CHR_CALL.second);
    } else {
      assert In(LITERAL, w[..i]) by { OneOfTwo(LITERAL, CHR_CALL, w[..i]); }
      FirstChar(x => x == '"', LITERAL.second, w[..i]);
      assert w[..i][0] == w[0];
      CharOfPart(b, s, e, IsQuote, 0);
      var j := FirstRepeat(1, CHR_JOIN, w[i..]);
      var k := JoinHasJoiner(w[i..][..j]);
      assert w[i..][..j][k] == w[i + k];
      CharOfPart(b, s, e, IsJoiner, i + k);
      GateOpens(b);
    }
  }

  lemma OneOfTwo(a: Regex, b: Regex, w: string)
    requires In(Or(a, b), w)
    ensures In(a, w) || In(b, w)
  {
  }

  /** A buffer that the gate turns away has no reversed marker, and no match for any pattern but `StrReverse`,
      whose letters a case-insensitive search also finds outside ASCII. */
  lemma {:induction false} GateIsStrict(b: string, p: nat)
    requires |b| <= MAX_WINDOW && !MayBeEncoded(b) && p < |PATTERNS| && p != STR_REVERSE_AT
    ensures !Matches(PATTERNS[p], b)
    ensures forall i :: 0 <= i < |REVERSED| ==> !ContainsFold(b, REVERSED[i])
  {
    if Matches(PATTERNS[p], b) {
      var s, e :| 0 <= s <= e <= |b| && In(PATTERNS[p], b[s..e]);
      PatternOpens(b, s, e, p);
    }
  }

  lemma {:induction false} PatternOpens(b: string, s: nat, e: nat, p: nat)
    requires |b| <= MAX_WINDOW && s <= e <= |b| && p < |PATTERNS| && p != STR_REVERSE_AT && In(PATTERNS[p], b[s..e])
    ensures MayBeEncoded(b)
  {
    hide In, MayBeEncoded, Word, Arguments, UpTo;
    if p == 0 || p == 1 || p == 13 || p == 14 {
      RunsOpen(b, s, e);
    } else if p == 2 {
      ConcatOpens(b, s, e);
    } else if p == 8 {
      DridexOpens(b, s, e);
    } else if p == 12 {
      DecimalsOpen(b, s, e);
    } else if 3 <= p <= 7 {
      WordsOpen(b, s, e);
    } else {
      EscapesOpen(b, s, e);
    }
  }

  /* ---------------------------------------------------------------- as it runs */

  /** Whether the buffer contains the lower-case marker in any case. */
  method AsciiContainsFold(b: string, m: string) returns (found: bool)
    ensures found <==> ContainsFold(b, m)
  {
    if |m| > |b| {
      return false;
    }
    for i := 0 to |b| - |m| + 1
      invariant forall s :: 0 <= s < i ==> !FoldedAt(b, m, s)
    {
      var j := 0;
      while j < |m| && Lower(b[i + j]) == m[j]
        invariant 0 <= j <= |m| && forall k :: 0 <= k < j ==> Lower(b[i + k]) == m[k]
      {
        j := j + 1;
      }
      if j == |m| {
        assert FoldedAt(b, m, i);
        return true;
      }
    }
    return false;
  }

  method ContainsAny(b: string, markers: seq<string>) returns (found: bool)
    ensures found <==> exists i :: 0 <= i < |markers| && ContainsFold(b, markers[i])
  {
    for i := 0 to |markers|
      invariant forall k :: 0 <= k < i ==> !ContainsFold(b, markers[k])
    {
      found := AsciiContainsFold(b, markers[i]);
      if found {
        return;
      }
    }
    return false;
  }

  /** A run counter before `i`: the run that ends there has length `run`, and none has reached `n` yet. */
  ghost predicate Counting(b: string, class_: char -> bool, i: nat, run: nat, n: nat) {
    && run <= i <= |b| && run < n && (forall k :: i - run <= k < i ==> class_(b[k]))
    && (run < i ==> !class_(b[i - run - 1]))
    && forall s :: s <= i - n ==> !RunAt(b, class_, s, n)
  }

  lemma RunGrows(b: string, class_: char -> bool, i: nat, run: nat, n: nat)
    requires Counting(b, class_, i, run, n) && i < |b| && class_(b[i])
    ensures if run + 1 >= n then HasRun(b, class_, n) else Counting(b, class_, i + 1, run + 1, n)
  {
    if run + 1 >= n {
      assert RunAt(b, class_, i + 1 - n, n);
    }
  }

  lemma RunBreaks(b: string, class_: char -> bool, i: nat, run: nat, n: nat)
    requires Counting(b, class_, i, run, n) && i < |b| && !class_(b[i])
    ensures Counting(b, class_, i + 1, 0, n)
  {
  }

  lemma NoRunAtAll(b: string, class_: char -> bool, run: nat, n: nat)
    requires Counting(b, class_, |b|, run, n)
    ensures !HasRun(b, class_, n)
  {
  }

  ghost predicate Flagged(b: string, class_: char -> bool, i: nat, flag: bool) {
    i <= |b| && (flag <==> exists k :: 0 <= k < i && class_(b[k]))
  }

  lemma FlagMoves(b: string, class_: char -> bool, i: nat, flag: bool)
    requires Flagged(b, class_, i, flag) && i < |b|
    ensures Flagged(b, class_, i + 1, flag || class_(b[i]))
  {
  }

  lemma ScanStarts(b: string)
    ensures Counting(b, IsBase64, 0, 0, MIN_RUN) && Counting(b, IsDecimal, 0, 0, MIN_DECIMAL_RUN)
    ensures Flagged(b, IsQuote, 0, false) && Flagged(b, IsJoiner, 0, false)
  {
  }

  /** One pass with two run counters and two flags. */
  method ScanRuns(scan: string) returns (hit: bool)
    ensures hit <==> || HasRun(scan, IsBase64, MIN_RUN) || HasRun(scan, IsDecimal, MIN_DECIMAL_RUN)
                     || (HasChar(scan, IsQuote) && HasChar(scan, IsJoiner))
  {
    hide Counting, HasRun, Flagged, IsBase64, IsDecimal;
    var b64Run, decRun, hasQuote, hasJoiner := 0, 0, false, false;
    ScanStarts(scan);
    for i := 0 to |scan|
      invariant 0 <= b64Run && 0 <= decRun
      invariant Counting(scan, IsBase64, i, b64Run, MIN_RUN) && Counting(scan, IsDecimal, i, decRun, MIN_DECIMAL_RUN)
      invariant Flagged(scan, IsQuote, i, hasQuote) && Flagged(scan, IsJoiner, i, hasJoiner)
    {
      var c := scan[i];
      FlagMoves(scan, IsQuote, i, hasQuote);
      FlagMoves(scan, IsJoiner, i, hasJoiner);
      if c == '"' {
        hasQuote := true;
      } else if c == '&' || c == '+' {
        hasJoiner := true;
      }
      if IsBase64(c) {
        RunGrows(scan, IsBase64, i, b64Run, MIN_RUN);
        b64Run := b64Run + 1;
        if b64Run >= MIN_RUN {
          return true;
        }
      } else {
        RunBreaks(scan, IsBase64, i, b64Run, MIN_RUN);
        b64Run := 0;
      }
      if IsDecimal(c) {
        RunGrows(scan, IsDecimal, i, decRun, MIN_DECIMAL_RUN);
        decRun := decRun + 1;
        if decRun >= MIN_DECIMAL_RUN {
          return true;
        }
      } else {
        RunBreaks(scan, IsDecimal, i, decRun, MIN_DECIMAL_RUN);
        decRun := 0;
      }
    }
    NoRunAtAll(scan, IsBase64, b64Run, MIN_RUN);
    NoRunAtAll(scan, IsDecimal, decRun, MIN_DECIMAL_RUN);
    FlagsAre(scan, hasQuote, hasJoiner);
    return hasQuote && hasJoiner;
  }

  lemma FlagsAre(b: string, quote: bool, joiner: bool)
    requires Flagged(b, IsQuote, |b|, quote) && Flagged(b, IsJoiner, |b|, joiner)
    ensures (quote <==> HasChar(b, IsQuote)) && (joiner <==> HasChar(b, IsJoiner))
  {
  }

  /** The gate: long runs and string literals first, then the markers. */
  method MayBeEncodedScan(b: string) returns (r: bool)
    ensures r <==> MayBeEncoded(b)
  {
    hide ContainsFold, HasRun, HasChar;
    var scan := Window(b);
    r := ScanRuns(scan);
    if !r {
      r := ContainsAny(scan, MARKERS);
    }
    if !r {
      r := ContainsAny(scan, REVERSED);
    }
  }
}
