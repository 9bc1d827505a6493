/** What the scalar scanner finds is what the gate's pattern describes: both speak of the same regular
    expression. */
module DecimalLanguage {
  import opened Basics
  import opened DecimalRun
  import opened EncodingGate
  import opened RegexLanguage

  /** What may follow a group that has `n` groups before it. */
  function More(n: nat): Regex {
    AtLeast(if n < 11 then 11 - n else 0, DEC_SEQ.second.body)
  }

  ghost predicate Number(w: string) {
    1 <= |w| <= 3 && forall i :: 0 <= i < |w| ==> IsDigit(w[i])
  }

  lemma Slices(src: string, p: nat, e: nat, i: nat)
    requires p + i <= e <= |src|
    ensures src[p..e][..i] == src[p..p + i] && src[p..e][i..] == src[p + i..e]
  {
  }

  lemma NumberIsPattern(w: string)
    ensures In(NUMBER3, w) <==> Number(w)
  {
    hide UpTo;
    if In(NUMBER3, w) {
      FirstChar(IsDigit, UpTo(2, DIGIT), w);
      UpToWords(2, IsDigit, w[1..]);
      assert w == [w[0]] + w[1..];
    }
    if Number(w) {
      UpToWords(2, IsDigit, w[1..]);
      Joins(DIGIT, UpTo(2, DIGIT), w, 1);
    }
  }

  lemma GroupIsPattern(w: string)
    ensures In(DEC_SEQ.second.body, w) <==> |w| > 0 && IsSeparator(w[0]) && Number(w[1..])
  {
    var separator := DEC_SEQ.second.body.first;
    if In(DEC_SEQ.second.body, w) {
      FirstChar(separator.ok, NUMBER3, w);
      NumberIsPattern(w[1..]);
    }
    if |w| > 0 && IsSeparator(w[0]) && Number(w[1..]) {
      NumberIsPattern(w[1..]);
      Joins(separator, NUMBER3, w, 1);
    }
  }

  lemma ReadsSplit(src: string, p: nat, e: nat, n: nat)
    ensures Reads(src, p, e, n) <==> exists k: nat :: Digited(src, p, e, n, k)
  {
    if Reads(src, p, e, n) {
      assert Digited(src, p, e, n, 1) || Digited(src, p, e, n, 2) || Digited(src, p, e, n, 3);
    }
    if k: nat :| Digited(src, p, e, n, k) {
      assert DigitAt(src, p) && (k > 1 ==> DigitAt(src, p + 1)) && (k > 2 ==> DigitAt(src, p + 2));
    }
  }

  /** The group at `p` has `k` digits. */
  ghost predicate Digited(src: string, p: nat, e: nat, n: nat, k: nat) {
    1 <= k <= 3 && Digits(src, p, p + k) && ReadsOn(src, p + k, e, n)
  }

  lemma DigitedNumber(src: string, p: nat, k: nat)
    requires 1 <= k <= 3
    ensures Digits(src, p, p + k) <==> p + k <= |src| && Number(src[p..p + k])
  {
    if Digits(src, p, p + k) {
      assert DigitAt(src, p + k - 1);
      var w := src[p..p + k];
      forall i | 0 <= i < k ensures IsDigit(w[i]) {
        assert DigitAt(src, p + i);
      }
    }
    if p + k <= |src| && Number(src[p..p + k]) {
      forall i | p <= i < p + k ensures DigitAt(src, i) {
        assert src[i] == src[p..p + k][i - p];
      }
    }
  }

  lemma {:induction false} ReadsOnAreWords(src: string, p: nat, e: nat, n: nat)
    requires p <= |src| && ReadsOn(src, p, e, n)
    ensures p <= e <= |src| && In(More(n), src[p..e])
    decreases |src| - p
  {
    hide In, NUMBER3;
    if e == p && n + 1 >= MIN_TOKENS {
      NoneLeft(n);
    } else {
      ReadsSplit(src, p + 1, e, n + 1);
      var k: nat :| Digited(src, p + 1, e, n + 1, k);
      DigitedNumber(src, p + 1, k);
      ReadsOnAreWords(src, p + 1 + k, e, n + 1);
      var w := src[p..e];
      Slices(src, p, e, 1 + k);
      Slices(src, p, p + 1 + k, 1);
      GroupIsPattern(w[..1 + k]);
      OneMore(n, w, 1 + k);
    }
  }

  lemma NoneLeft(n: nat)
    requires n + 1 >= MIN_TOKENS
    ensures In(More(n), "")
  {
  }

  lemma OneMore(n: nat, w: string, i: nat)
    requires 0 < i <= |w| && In(DEC_SEQ.second.body, w[..i]) && In(More(n + 1), w[i..])
    ensures In(More(n), w)
  {
    assert InRepeat(More(n).n, DEC_SEQ.second.body, w, i);
  }

  /** A word of `More` is empty, or begins with a group. */
  lemma OneLess(n: nat, w: string) returns (i: nat)
    requires In(More(n), w) && !(w == "" && n + 1 >= MIN_TOKENS)
    ensures 0 < i <= |w| && In(DEC_SEQ.second.body, w[..i]) && In(More(n + 1), w[i..])
  {
    i :| 0 <= i <= |w| && InRepeat(More(n).n, DEC_SEQ.second.body, w, i);
    GroupIsPattern(w[..i]);
  }

  lemma {:induction false} WordsAreReadOn(src: string, p: nat, e: nat, n: nat)
    requires p <= e <= |src| && In(More(n), src[p..e])
    ensures ReadsOn(src, p, e, n)
    decreases e - p
  {
    hide In, NUMBER3;
    var w := src[p..e];
    if !(w == "" && n + 1 >= MIN_TOKENS) {
      var i := OneLess(n, w);
      GroupIsPattern(w[..i]);
      Slices(src, p, e, i);
      Slices(src, p, p + i, 1);
      DigitedNumber(src, p + 1, i - 1);
      WordsAreReadOn(src, p + i, e, n + 1);
      assert Digited(src, p + 1, e, n + 1, i - 1);
      ReadsSplit(src, p + 1, e, n + 1);
    }
  }

  lemma PatternSplits()
    ensures DEC_SEQ == Then(NUMBER3, More(0))
  {
  }

  lemma ReadsAreWords(src: string, s: nat, e: nat)
    requires s <= |src| && Reads(src, s, e, 0)
    ensures s <= e <= |src| && In(DEC_SEQ, src[s..e])
  {
    hide In, NUMBER3, DEC_SEQ, Reads, More;
    PatternSplits();
    ReadsSplit(src, s, e, 0);
    var k: nat :| Digited(src, s, e, 0, k);
    DigitedNumber(src, s, k);
    ReadsOnAreWords(src, s + k, e, 0);
    Slices(src, s, e, k);
    NumberIsPattern(src[s..s + k]);
    Joins(NUMBER3, More(0), src[s..e], k);
  }

  lemma WordsAreRead(src: string, s: nat, e: nat)
    requires s <= e <= |src| && In(DEC_SEQ, src[s..e])
    ensures Reads(src, s, e, 0)
  {
    hide In, NUMBER3, DEC_SEQ, Reads, More;
    PatternSplits();
    var k := FirstPart(NUMBER3, More(0), src[s..e]);
    Slices(src, s, e, k);
    NumberIsPattern(src[s..s + k]);
    DigitedNumber(src, s, k);
    WordsAreReadOn(src, s + k, e, 0);
    assert Digited(src, s, e, 0, k);
    ReadsSplit(src, s, e, 0);
  }

  /** The scanner's language is the language of the gate's pattern, word for word. */
  lemma ReadsIsPattern(src: string, s: nat, e: nat)
    requires s <= |src|
    ensures Reads(src, s, e, 0) <==> s <= e <= |src| && In(DEC_SEQ, src[s..e])
  {
    hide In, NUMBER3, DEC_SEQ, Reads;
    if Reads(src, s, e, 0) {
      ReadsAreWords(src, s, e);
    }
    if s <= e <= |src| && In(DEC_SEQ, src[s..e]) {
      WordsAreRead(src, s, e);
    }
  }

  /** The scanner's preferred match exists in a buffer exactly when the gate's pattern matches it, so a buffer
      that the gate turns away gives the scanner nothing. */
  lemma ScannerSeesWhatTheGateSees(src: string)
    ensures (exists s: nat :: Match(src, s).Some?) <==> Matches(DEC_SEQ, src)
  {
    hide In, Group, Reads;
    if s: nat :| Match(src, s).Some? {
      MatchIsLanguage(src, s);
      MatchInside(src, s);
      ReadsIsPattern(src, s, Match(src, s).value);
    }
    if Matches(DEC_SEQ, src) {
      var s, e :| 0 <= s <= e <= |src| && In(DEC_SEQ, src[s..e]);
      ReadsIsPattern(src, s, e);
      MatchIsLanguage(src, s);
    }
  }

  lemma MatchInside(src: string, s: nat)
    requires Match(src, s).Some?
    ensures s <= |src|
  {
  }
}
