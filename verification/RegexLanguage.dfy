/** Regular expressions and their languages. */
module RegexLanguage {

  datatype Regex =
    | Nothing
    | One(ok: char -> bool)
    | Then(first: Regex, second: Regex)
    | Or(left: Regex, right: Regex)
    | AtLeast(n: nat, body: Regex)

  function Size(r: Regex): nat {
    match r
    case Nothing => 1
    case One(_) => 1
    case Then(a, b) => 1 + Size(a) + Size(b)
    case Or(a, b) => 1 + Size(a) + Size(b)
    case AtLeast(_, a) => 1 + Size(a)
  }

  function Repeats(r: Regex): nat {
    if r.AtLeast? then r.n else 0
  }

  /** Whether the whole of `w` is in the language of `r`. */
  ghost predicate In(r: Regex, w: string)
    decreases Size(r), Repeats(r), |w|
  {
    match r
    case Nothing => w == ""
    case One(ok) => |w| == 1 && ok(w[0])
    case Then(a, b) => exists i :: 0 <= i <= |w| && In(a, w[..i]) && In(b, w[i..])
    case Or(a, b) => In(a, w) || In(b, w)
    case AtLeast(n, a) => (n == 0 && w == "") || exists i :: 0 <= i <= |w| && InRepeat(n, a, w, i)
  }

  /** One repetition up to `i`, and the others behind it. */
  ghost predicate InRepeat(n: nat, a: Regex, w: string, i: nat)
    requires i <= |w|
    decreases 1 + Size(a), n, |w|, 0
  {
    (n > 0 || i > 0) && In(a, w[..i]) && In(AtLeast(if n > 0 then n - 1 else 0, a), w[i..])
  }

  ghost predicate Matches(r: Regex, b: string) {
    exists s, e :: 0 <= s <= e <= |b| && In(r, b[s..e])
  }

  /* ---------------------------------------------------------------- what a match has to look like */

  /** The shortest word. */
  function MinLength(r: Regex): nat {
    match r
    case Nothing => 0
    case One(_) => 1
    case Then(a, b) => MinLength(a) + MinLength(b)
    case Or(a, b) => if MinLength(a) < MinLength(b) then MinLength(a) else MinLength(b)
    case AtLeast(n, a) => n * MinLength(a)
  }

  /** Every character of every word is in the class. */
  ghost predicate Within(r: Regex, class_: char -> bool) {
    match r
    case Nothing => true
    case One(ok) => forall c :: ok(c) ==> class_(c)
    case Then(a, b) => Within(a, class_) && Within(b, class_)
    case Or(a, b) => Within(a, class_) && Within(b, class_)
    case AtLeast(_, a) => Within(a, class_)
  }

  predicate AllIn(w: string, class_: char -> bool) {
    forall i :: 0 <= i < |w| ==> class_(w[i])
  }

  lemma {:induction false} WordsAreLong(r: Regex, w: string)
    requires In(r, w)
    ensures |w| >= MinLength(r)
    decreases Size(r), Repeats(r), |w|
  {
    match r
    case Nothing =>
    case One(_) =>
    case Then(a, b) =>
      var i :| 0 <= i <= |w| && In(a, w[..i]) && In(b, w[i..]);
      WordsAreLong(a, w[..i]);
      WordsAreLong(b, w[i..]);
    case Or(a, b) =>
      if In(a, w) { WordsAreLong(a, w); } else { WordsAreLong(b, w); }
    case AtLeast(n, a) =>
      if n > 0 {
        var i :| 0 <= i <= |w| && InRepeat(n, a, w, i);
        WordsAreLong(a, w[..i]);
        WordsAreLong(AtLeast(n - 1, a), w[i..]);
        assert n * MinLength(a) == (n - 1) * MinLength(a) + MinLength(a);
      }
  }

  lemma {:induction false} WordsStayWithin(r: Regex, w: string, class_: char -> bool)
    requires In(r, w) && Within(r, class_)
    ensures AllIn(w, class_)
    decreases Size(r), Repeats(r), |w|
  {
    match r
    case Nothing =>
    case One(_) =>
    case Then(a, b) =>
      var i :| 0 <= i <= |w| && In(a, w[..i]) && In(b, w[i..]);
      WordsStayWithin(a, w[..i], class_);
      WordsStayWithin(b, w[i..], class_);
      assert w == w[..i] + w[i..];
    case Or(a, b) =>
      if In(a, w) { WordsStayWithin(a, w, class_); } else { WordsStayWithin(b, w, class_); }
    case AtLeast(n, a) =>
      if w != "" {
        var i :| 0 <= i <= |w| && InRepeat(n, a, w, i);
        WordsStayWithin(a, w[..i], class_);
        WordsStayWithin(AtLeast(if n > 0 then n - 1 else 0, a), w[i..], class_);
        assert w == w[..i] + w[i..];
      }
  }

  /** A word of `Then` begins with a word of its first part. */
  lemma FirstPart(a: Regex, b: Regex, w: string) returns (i: nat)
    requires In(Then(a, b), w)
    ensures i <= |w| && In(a, w[..i]) && In(b, w[i..])
  {
    i :| 0 <= i <= |w| && In(a, w[..i]) && In(b, w[i..]);
  }

  /** A word with at least one repetition begins with one. */
  lemma FirstRepeat(n: nat, a: Regex, w: string) returns (i: nat)
    requires n > 0 && In(AtLeast(n, a), w)
    ensures i <= |w| && In(a, w[..i])
  {
    i :| 0 <= i <= |w| && InRepeat(n, a, w, i);
  }

  lemma FirstChar(ok: char -> bool, b: Regex, w: string)
    requires In(Then(One(ok), b), w)
    ensures |w| >= 1 && ok(w[0]) && In(b, w[1..])
  {
    var i := FirstPart(One(ok), b, w);
    assert w[..i][0] == w[0];
  }

  function Optional(r: Regex): Regex { Or(Nothing, r) }

  function UpTo(n: nat, r: Regex): Regex {
    if n == 0 then Nothing else Then(Optional(r), UpTo(n - 1, r))
  }

  /* ---------------------------------------------------------------- words of simple expressions */

  /** Two words make one. */
  lemma Joins(a: Regex, b: Regex, w: string, i: nat)
    requires i <= |w| && In(a, w[..i]) && In(b, w[i..])
    ensures In(Then(a, b), w)
  {
  }

  lemma JoinsRepeat(n: nat, a: Regex, w: string, i: nat)
    requires 0 < i <= |w| && In(a, w[..i]) && In(AtLeast(if n > 0 then n - 1 else 0, a), w[i..])
    ensures In(AtLeast(n, a), w)
  {
    assert InRepeat(n, a, w, i);
  }

  /** A word that is not just the empty repetition begins with one, and the others follow. */
  lemma NextRepeat(n: nat, a: Regex, w: string) returns (i: nat)
    requires In(AtLeast(n, a), w) && (n > 0 || w != "")
    ensures i <= |w| && In(a, w[..i]) && In(AtLeast(if n > 0 then n - 1 else 0, a), w[i..]) && (n > 0 || i > 0)
  {
    i :| 0 <= i <= |w| && InRepeat(n, a, w, i);
  }

  lemma NothingWords(w: string)
    ensures In(Nothing, w) <==> w == ""
  {
  }

  lemma OptionalWords(ok: char -> bool, w: string)
    ensures In(Optional(One(ok)), w) <==> |w| == 0 || (|w| == 1 && ok(w[0]))
  {
  }

  lemma {:induction false} UpToWords(n: nat, ok: char -> bool, w: string)
    ensures In(UpTo(n, One(ok)), w) <==> |w| <= n && AllIn(w, ok)
  {
    hide In;
    if n == 0 {
      NothingWords(w);
    } else {
      var one, rest := Optional(One(ok)), UpTo(n - 1, One(ok));
      if In(UpTo(n, One(ok)), w) {
        var i := FirstPart(one, rest, w);
        OptionalWords(ok, w[..i]);
        UpToWords(n - 1, ok, w[i..]);
        assert w == w[..i] + w[i..];
      }
      if |w| <= n && AllIn(w, ok) {
        var i := if w == "" then 0 else 1;
        OptionalWords(ok, w[..i]);
        UpToWords(n - 1, ok, w[i..]);
        Joins(one, rest, w, i);
      }
    }
  }

  lemma {:induction false} RunWords(n: nat, ok: char -> bool, w: string)
    ensures In(AtLeast(n, One(ok)), w) <==> |w| >= n && AllIn(w, ok)
    decreases |w|
  {
    var run := AtLeast(n, One(ok));
    if In(run, w) {
      WordsAreLong(run, w);
      assert MinLength(run) == n * MinLength(One(ok)) == n;
      WordsStayWithin(run, w, ok);
    }
    if |w| >= n && AllIn(w, ok) && w != "" {
      RunWords(if n > 0 then n - 1 else 0, ok, w[1..]);
      assert In(One(ok), w[..1]);
      JoinsRepeat(n, One(ok), w, 1);
    }
  }

  /** A run, and then at most so many of another character. */
  lemma RunThenUpToWords(n: nat, ok: char -> bool, m: nat, pad: char -> bool, w: string)
    ensures In(Then(AtLeast(n, One(ok)), UpTo(m, One(pad))), w) <==>
            exists i :: 0 <= i <= |w| && i >= n && AllIn(w[..i], ok) && |w| - i <= m && AllIn(w[i..], pad)
  {
    hide In;
    var run, tail := AtLeast(n, One(ok)), UpTo(m, One(pad));
    if In(Then(run, tail), w) {
      var i := FirstPart(run, tail, w);
      RunWords(n, ok, w[..i]);
      UpToWords(m, pad, w[i..]);
    }
    if i :| 0 <= i <= |w| && i >= n && AllIn(w[..i], ok) && |w| - i <= m && AllIn(w[i..], pad) {
      RunWords(n, ok, w[..i]);
      UpToWords(m, pad, w[i..]);
      Joins(run, tail, w, i);
    }
  }

  /** Pairs of one class. */
  lemma {:induction false} PairWords(n: nat, ok: char -> bool, w: string)
    ensures In(AtLeast(n, Then(One(ok), One(ok))), w) <==> |w| >= 2 * n && |w| % 2 == 0 && AllIn(w, ok)
    decreases |w|
  {
    var pair := Then(One(ok), One(ok));
    if In(AtLeast(n, pair), w) && !(n == 0 && w == "") {
      var i := NextRepeat(n, pair, w);
      FirstChar(ok, One(ok), w[..i]);
      assert i == 2 && w[..i][0] == w[0] && w[..i][1..][0] == w[1];
      PairWords(if n > 0 then n - 1 else 0, ok, w[2..]);
      assert w == [w[0], w[1]] + w[2..];
    }
    if |w| >= 2 * n && |w| % 2 == 0 && AllIn(w, ok) && w != "" {
      PairWords(if n > 0 then n - 1 else 0, ok, w[2..]);
      assert w[..2][..1] == [w[0]] && w[..2][1..] == [w[1]];
      Joins(One(ok), One(ok), w[..2], 1);
      JoinsRepeat(n, pair, w, 2);
    }
  }
}
