/** The scalar scanner for decimal byte sequences, against the regular expression it replaces:
    one to three digits, then at least eleven more such groups, each behind a comma or a semicolon. */
module DecimalRun {
  import opened Basics

  const MIN_TOKENS: nat := 12

  predicate IsSeparator(c: char) {
    c == ',' || c == ';'
  }

  predicate DigitAt(src: string, i: int) {
    0 <= i < |src| && IsDigit(src[i])
  }

  /* ---------------------------------------------------------------- the regular expression */

  /** The preferred match of a digit group at `p` and everything behind it, after `n` repetitions: the
      longest group first.  The value is where the whole match ends. */
  function Group(src: string, p: nat, n: nat): Option<nat>
    decreases |src| - p, 1
  {
    if !DigitAt(src, p) then None
    else if DigitAt(src, p + 1) && DigitAt(src, p + 2) && Rest(src, p + 3, n).Some? then Rest(src, p + 3, n)
    else if DigitAt(src, p + 1) && Rest(src, p + 2, n).Some? then Rest(src, p + 2, n)
    else Rest(src, p + 1, n)
  }

  /** Another repetition if there is a match with it, else the end here if there were enough. */
  function Rest(src: string, p: nat, n: nat): Option<nat>
    decreases |src| - p, 0
  {
    if p < |src| && IsSeparator(src[p]) && Group(src, p + 1, n + 1).Some? then Group(src, p + 1, n + 1)
    else if n + 1 >= MIN_TOKENS then Some(p)
    else None
  }

  /** The preferred match that starts at `s`. */
  function Match(src: string, s: nat): Option<nat> {
    Group(src, s, 0)
  }

  ghost predicate NoMatchBefore(src: string, limit: int) {
    forall s :: 0 <= s < limit ==> Match(src, s).None?
  }

  /** The leftmost match, or none at all. */
  ghost predicate LeftmostMatch(src: string, start: int, end: nat) {
    if start < 0 then forall s :: s >= 0 ==> Match(src, s).None?
    else NoMatchBefore(src, start) && Match(src, start) == Some(end)
  }

  /* ---------------------------------------------------------------- its language */

  /** `src[p..e]` is one to three digits and then more groups, so that with the `n` before there are enough. */
  predicate Reads(src: string, p: nat, e: nat, n: nat)
    decreases |src| - p, 1
  {
    && DigitAt(src, p)
    && (|| ReadsOn(src, p + 1, e, n)
        || (DigitAt(src, p + 1) && ReadsOn(src, p + 2, e, n))
        || (DigitAt(src, p + 1) && DigitAt(src, p + 2) && ReadsOn(src, p + 3, e, n)))
  }

  predicate ReadsOn(src: string, p: nat, e: nat, n: nat)
    decreases |src| - p, 0
  {
    || (e == p && n + 1 >= MIN_TOKENS)
    || (p < |src| && IsSeparator(src[p]) && Reads(src, p + 1, e, n + 1))
  }

  /** What the preferred match returns is a match. */
  lemma {:induction false} MatchesAreRead(src: string, p: nat, n: nat)
    ensures Group(src, p, n).Some? ==> Reads(src, p, Group(src, p, n).value, n)
    decreases |src| - p, 1
  {
    if DigitAt(src, p) {
      RestsAreRead(src, p + 1, n);
      RestsAreRead(src, p + 2, n);
      RestsAreRead(src, p + 3, n);
    }
  }

  lemma {:induction false} RestsAreRead(src: string, p: nat, n: nat)
    ensures Rest(src, p, n).Some? ==> ReadsOn(src, p, Rest(src, p, n).value, n)
    decreases |src| - p, 0
  {
    if p < |src| {
      MatchesAreRead(src, p + 1, n + 1);
    }
  }

  /** Where there is any match, there is a preferred one. */
  lemma {:induction false} ReadsAreMatched(src: string, p: nat, e: nat, n: nat)
    requires Reads(src, p, e, n)
    ensures Group(src, p, n).Some?
    decreases |src| - p, 1
  {
    if ReadsOn(src, p + 1, e, n) {
      ReadsOnAreMatched(src, p + 1, e, n);
    } else if DigitAt(src, p + 1) && ReadsOn(src, p + 2, e, n) {
      ReadsOnAreMatched(src, p + 2, e, n);
    } else {
      ReadsOnAreMatched(src, p + 3, e, n);
    }
  }

  lemma {:induction false} ReadsOnAreMatched(src: string, p: nat, e: nat, n: nat)
    requires ReadsOn(src, p, e, n)
    ensures Rest(src, p, n).Some?
    decreases |src| - p, 0
  {
    if !(e == p && n + 1 >= MIN_TOKENS) {
      ReadsAreMatched(src, p + 1, e, n + 1);
    }
  }

  /** The preferred match exists exactly when the language has a match there. */
  lemma MatchIsLanguage(src: string, s: nat)
    ensures Match(src, s).Some? ==> Reads(src, s, Match(src, s).value, 0)
    ensures forall e: nat :: Reads(src, s, e, 0) ==> Match(src, s).Some?
  {
    MatchesAreRead(src, s, 0);
    forall e: nat | Reads(src, s, e, 0) ensures Match(src, s).Some? {
      ReadsAreMatched(src, s, e, 0);
    }
  }

  /* ---------------------------------------------------------------- how a group ends */

  predicate Digits(src: string, from: nat, to: nat) {
    forall k :: from <= k < to ==> DigitAt(src, k)
  }

  /** A full group of at most three digits leaves the regular expression no choice. */
  lemma FullGroup(src: string, g: nat, i: nat, n: nat)
    requires g < i <= g + 3 && Digits(src, g, i) && !DigitAt(src, i)
    ensures Group(src, g, n) == Rest(src, i, n)
  {
    assert DigitAt(src, g) && (i > g + 1 ==> DigitAt(src, g + 1)) && (i > g + 2 ==> DigitAt(src, g + 2));
    assert DigitAt(src, i - 1) && !IsSeparator(src[i - 1]);
    assert i - 2 >= g ==> DigitAt(src, i - 2) && !IsSeparator(src[i - 2]);
  }

  /** A number of more than three digits ends the match after three of them, if there were enough groups. */
  lemma OverlongGroup(src: string, g: nat, n: nat)
    requires Digits(src, g, g + 4)
    ensures Group(src, g, n) == if n + 1 >= MIN_TOKENS then Some(g + 3) else None
  {
    assert DigitAt(src, g) && DigitAt(src, g + 1) && DigitAt(src, g + 2) && DigitAt(src, g + 3);
  }

  /** Behind a separator, a digit always starts the next group. */
  lemma NextGroup(src: string, p: nat, n: nat)
    requires p < |src| && IsSeparator(src[p]) && DigitAt(src, p + 1)
    ensures Rest(src, p, n) == Group(src, p + 1, n + 1)
  {
  }

  /** Nothing follows: the match ends here or fails. */
  lemma NothingFollows(src: string, p: nat, n: nat)
    requires p >= |src| || !IsSeparator(src[p]) || !DigitAt(src, p + 1)
    ensures Rest(src, p, n) == if n + 1 >= MIN_TOKENS then Some(p) else None
  {
  }

  /* ---------------------------------------------------------------- the scanner's state */

  /** What a match from `s` has come to, at the group that starts at `g`, after at most `n` repetitions. */
  ghost predicate AtGroup(src: string, s: nat, g: nat, n: nat) {
    Match(src, s).None? || exists m: nat :: m <= n && Match(src, s) == Group(src, g, m)
  }

  ghost predicate AtRest(src: string, s: nat, p: nat, n: nat) {
    Match(src, s).None? || exists m: nat :: m <= n && Match(src, s) == Rest(src, p, m)
  }

  ghost predicate AllAtGroup(src: string, from: int, to: int, g: nat, n: nat) {
    forall s: nat :: from <= s < to ==> AtGroup(src, s, g, n)
  }

  ghost predicate AllAtRest(src: string, from: int, to: int, p: nat, n: nat) {
    forall s: nat :: from <= s < to ==> AtRest(src, s, p, n)
  }

  /** The scanner stands before `i` with a candidate: every earlier start either cannot match or depends on
      what follows here, with no more groups behind it than the candidate has. */
  ghost predicate Scanning(src: string, i: nat, start: int, end: nat, tokens: nat, digits: nat) {
    && 0 <= start < i <= |src| && digits <= 3 && NoMatchBefore(src, start)
    && if digits > 0
       then var g := i - digits;
            && start <= g && Digits(src, g, i) && end == i && tokens >= 1
            && Match(src, start) == Group(src, g, tokens - 1)
            && AllAtGroup(src, start, g, g, tokens - 1)
       else && end == i - 1 && IsSeparator(src[i - 1]) && tokens >= 1
            && Match(src, start) == Rest(src, i - 1, tokens - 1)
            && AllAtRest(src, start, i, i - 1, tokens - 1)
  }

  ghost predicate State(src: string, i: nat, start: int, end: nat, tokens: nat, digits: nat) {
    if start < 0 then tokens == 0 && digits == 0 && NoMatchBefore(src, i)
    else Scanning(src, i, start, end, tokens, digits)
  }

  lemma NewCandidate(src: string, i: nat)
    requires NoMatchBefore(src, i) && DigitAt(src, i)
    ensures Scanning(src, i + 1, i, i + 1, 1, 1)
  {
  }

  lemma MoreDigits(src: string, i: nat, start: int, end: nat, tokens: nat, digits: nat)
    requires Scanning(src, i, start, end, tokens, digits) && DigitAt(src, i) && 0 < digits < 3
    ensures Scanning(src, i + 1, start, i + 1, tokens, digits + 1)
  {
  }

  lemma NewGroup(src: string, i: nat, start: int, end: nat, tokens: nat)
    requires Scanning(src, i, start, end, tokens, 0) && DigitAt(src, i)
    ensures Scanning(src, i + 1, start, i + 1, tokens + 1, 1)
  {
    var p := i - 1;
    NextGroup(src, p, tokens - 1);
    forall s: nat | start <= s < i ensures AtGroup(src, s, i, tokens) {
      assert AtRest(src, s, p, tokens - 1);
      if Match(src, s).Some? {
        var m: nat :| m <= tokens - 1 && Match(src, s) == Rest(src, p, m);
        NextGroup(src, p, m);
        assert m + 1 <= tokens && Match(src, s) == Group(src, i, m + 1);
      }
    }
  }

  lemma GroupEnds(src: string, i: nat, start: int, end: nat, tokens: nat, digits: nat)
    requires Scanning(src, i, start, end, tokens, digits) && digits > 0
    requires i < |src| && IsSeparator(src[i])
    ensures Scanning(src, i + 1, start, end, tokens, 0)
  {
    var g := i - digits;
    var last := tokens - 1;
    FullGroup(src, g, i, last);
    forall s: nat | start <= s < i + 1 ensures AtRest(src, s, i, last) {
      if s == i {
      } else if s >= g {
        FullGroup(src, s, i, 0);
      } else if Match(src, s).Some? {
        assert AtGroup(src, s, g, last);
        var m: nat :| m <= tokens - 1 && Match(src, s) == Group(src, g, m);
        FullGroup(src, g, i, m);
      }
    }
  }

  /** An overlong number with too few groups before it: its last three digits are the next candidate. */
  lemma Restarts(src: string, i: nat, start: int, end: nat, tokens: nat)
    requires Scanning(src, i, start, end, tokens, 3) && DigitAt(src, i) && tokens < MIN_TOKENS
    ensures Scanning(src, i + 1, i - 2, i + 1, 1, 3)
  {
    var g := i - 3;
    forall s: nat | 0 <= s < i - 2 ensures Match(src, s).None? {
      if s == g {
        OverlongGroup(src, g, 0);
      } else if start <= s {
        assert AtGroup(src, s, g, tokens - 1);
        if Match(src, s).Some? {
          var m: nat :| m <= tokens - 1 && Match(src, s) == Group(src, g, m);
          OverlongGroup(src, g, m);
        }
      }
    }
  }

  predicate Breaks(src: string, i: nat, digits: nat) {
    i >= |src| || (!IsDigit(src[i]) && (!IsSeparator(src[i]) || digits == 0))
  }

  /** The sequence ends here with enough groups: the candidate is the match. */
  lemma Matched(src: string, i: nat, start: int, end: nat, tokens: nat, digits: nat)
    requires Scanning(src, i, start, end, tokens, digits) && tokens >= MIN_TOKENS
    requires Breaks(src, i, digits) || (digits == 3 && DigitAt(src, i))
    ensures LeftmostMatch(src, start, end)
  {
    if digits == 0 {
      NothingFollows(src, i - 1, tokens - 1);
    } else if DigitAt(src, i) {
      OverlongGroup(src, i - 3, tokens - 1);
    } else {
      FullGroup(src, i - digits, i, tokens - 1);
      NothingFollows(src, i, tokens - 1);
    }
  }

  /** The sequence ends here with too few groups: nothing up to here starts a match. */
  lemma Failed(src: string, i: nat, start: int, end: nat, tokens: nat, digits: nat)
    requires Scanning(src, i, start, end, tokens, digits) && tokens < MIN_TOKENS && Breaks(src, i, digits)
    ensures NoMatchBefore(src, i + 1)
  {
    var g, p := i - digits, i - 1;
    forall s: nat | 0 <= s < i + 1 ensures Match(src, s).None? {
      if s < start || s == i {
      } else if digits == 0 {
        assert AtRest(src, s, p, tokens - 1);
        if Match(src, s).Some? {
          var m: nat :| m <= tokens - 1 && Match(src, s) == Rest(src, p, m);
          NothingFollows(src, p, m);
        }
      } else if s >= g {
        FullGroup(src, s, i, 0);
        NothingFollows(src, i, 0);
      } else if Match(src, s).Some? {
        assert AtGroup(src, s, g, tokens - 1);
        var m: nat :| m <= tokens - 1 && Match(src, s) == Group(src, g, m);
        FullGroup(src, g, i, m);
        NothingFollows(src, i, m);
      }
    }
  }

  /** The scanner: exactly the leftmost match that the regular expression prefers, or none when it has none or
      when the clock, which answers `expired(i)` before byte `i`, has run out. */
  method NextDecSeqRun(src: string, expired: nat -> bool) returns (start: int, end: nat)
    ensures LeftmostMatch(src, start, end) || (start < 0 && exists i: nat :: i <= |src| && Checkpoint(i) && expired(i))
  {
    hide Scanning, NoMatchBefore, Match, LeftmostMatch;
    start, end := -1, 0;
    var tokens, digits := 0, 0;
    Begin(src);
    for i := 0 to |src| + 1
      invariant 0 <= tokens && 0 <= digits <= 3
      invariant State(src, i, start, end, tokens, digits) && (i > |src| ==> start < 0)
    {
      if i % 4096 == 0 && expired(i) {
        assert Checkpoint(i);
        return -1, 0;
      }
      if i < |src| && IsDigit(src[i]) {
        if digits == 3 {
          if tokens >= MIN_TOKENS {
            Matched(src, i, start, end, tokens, digits);
            return;
          }
          Restarts(src, i, start, end, tokens);
          start, tokens := i - 2, 1;
        } else {
          if start < 0 {
            NewCandidate(src, i);
          } else if digits == 0 {
            NewGroup(src, i, start, end, tokens);
          } else {
            MoreDigits(src, i, start, end, tokens, digits);
          }
          if digits == 0 {
            tokens := tokens + 1;
          }
          digits := digits + 1;
          if start < 0 {
            start := i;
          }
        }
        end := i + 1;
      } else if i < |src| && IsSeparator(src[i]) && digits > 0 {
        GroupEnds(src, i, start, end, tokens, digits);
        digits := 0;
      } else {
        if tokens >= MIN_TOKENS {
          Matched(src, i, start, end, tokens, digits);
          return;
        }
        if start >= 0 {
          Failed(src, i, start, end, tokens, digits);
        } else {
          NoDigitNoMatch(src, i);
        }
        start, tokens, digits := -1, 0, 0;
      }
    }
    NoMatchAtAll(src);
    return -1, 0;
  }

  lemma Begin(src: string)
    ensures NoMatchBefore(src, 0)
  {
  }

  lemma NoDigitNoMatch(src: string, i: nat)
    requires NoMatchBefore(src, i) && !DigitAt(src, i)
    ensures NoMatchBefore(src, i + 1)
  {
  }

  lemma NoMatchAtAll(src: string)
    requires NoMatchBefore(src, |src| + 1)
    ensures LeftmostMatch(src, -1, 0)
  {
    forall s: int | s >= 0 ensures Match(src, s).None? {
    }
  }
}
