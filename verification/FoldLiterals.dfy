/** Why a folding may skip its search when its literal is absent, and where it may not. */
module FoldLiterals {
  import opened RegexLanguage
  import opened EncodingGate
  import opened DecodeChain

  lemma WordIsThere(w: string, s: nat, e: nat, m: string, rest: Regex)
    requires s <= e <= |w| && In(Then(Word(m), rest), w[s..e])
    ensures ContainsFold(w, m)
  {
    hide In;
    WordsSpell(m, rest, w[s..e]);
    WordOfPart(w, s, e, m);
  }

  /** A concatenation has a joiner, and a quote or `Chr`. */
  lemma ConcatHasLiterals(w: string, s: nat, e: nat)
    requires s <= e <= |w| && In(CHR_CONCAT, w[s..e])
    ensures HasChar(w, IsJoiner) && (HasChar(w, IsQuote) || ContainsFold(w, "chr"))
  {
    hide In;
    var part := w[s..e];
    var i := FirstPart(CHR_TOKEN, CHR_CONCAT.second, part);
    var j := FirstRepeat(1, CHR_JOIN, part[i..]);
    var k := JoinHasJoiner(part[i..][..j]);
    assert part[i..][..j][k] == part[i + k];
    CharOfPart(w, s, e, IsJoiner, i + k);
    OneOfTwo(LITERAL, CHR_CALL, part[..i]);
    if In(CHR_CALL, part[..i]) {
      assert part[..i] == w[s..s + i];
      WordIsThere(w, s, s + i, "chr", CHR_CALL.second);
    } else {
      FirstChar(Only('"').ok, LITERAL.second, part[..i]);
      assert part[..i][0] == part[0];
      CharOfPart(w, s, e, IsQuote, 0);
    }
  }

  /** Where there is a match, the literal is there too; a `Replace` with variables also needs a variable.
      `StrReverse` is the exception. */
  lemma FoldNeedsLiteral(f: Folding, w: string, bound: bool)
    requires !f.StrReverse? && Matches(FoldPattern(f), w)
    ensures FoldGate(f, w, bound) <==> (f.VarReplace? ==> bound)
  {
    hide In, Word, Arguments, HasChar, ContainsFold;
    var s, e :| 0 <= s <= e <= |w| && In(FoldPattern(f), w[s..e]);
    match f
    case ChrConcat => ConcatHasLiterals(w, s, e);
    case Replace => WordIsThere(w, s, e, "replace(", REPLACE.second);
    case ArrayXor => WordIsThere(w, s, e, "array(", ARRAY_XOR.second);
    case Environ => WordIsThere(w, s, e, "environ", ENVIRON.second);
    case VarReplace => WordIsThere(w, s, e, "replace(", VAR_REPLACE.second);
    case Dridex =>
  }

  /* ---------------------------------------------------------------- the exception */

  predicate LongSAt(w: string, i: nat) {
    i + 1 < |w| && w[i] == 0xC5 as char && w[i + 1] == 0xBF as char
  }

  predicate Plain(m: string) {
    forall i :: 0 <= i < |m| ==> m[i] != 's' && m[i] != 'k'
  }

  /** Letters that have only two spellings are spelled in ASCII. */
  lemma {:induction false} PlainPart(p: string, q: string, w: string)
    requires Plain(p) && In(WideWord(p + q), w)
    ensures |w| >= |p| && FoldedAt(w, p, 0) && In(WideWord(q), w[|p|..])
  {
    hide In;
    if p == "" {
      assert p + q == q && w[0..] == w;
    } else {
      assert (p + q)[0] == p[0] && (p + q)[1..] == p[1..] + q;
      FirstChar(Fold(p[0]).ok, WideWord(p[1..] + q), w);
      PlainPart(p[1..], q, w[1..]);
      assert w[1..][|p| - 1..] == w[|p|..];
      forall k | 0 <= k < |p| ensures Lower(w[k]) == p[k] {
        if k > 0 {
          assert Lower(w[1..][0 + (k - 1)]) == p[1..][k - 1];
        }
      }
    }
  }

  /** An `s` is spelled in ASCII or as a long s. */
  lemma LetterS(rest: string, w: string) returns (n: nat)
    requires In(WideWord("s" + rest), w)
    ensures n <= |w| && In(WideWord(rest), w[n..])
    ensures (n == 1 && Lower(w[0]) == 's') || (n == 2 && LongSAt(w, 0))
  {
    hide In;
    var m := "s" + rest;
    assert m[0] == 's' && m[1..] == rest;
    n := FirstPart(FoldWide('s'), WideWord(rest), w);
    OneOfTwo(Fold('s'), LONG_S, w[..n]);
    if In(LONG_S, w[..n]) {
      TwoBytes(w[..n]);
    } else {
      OneByte(w[..n]);
    }
  }

  lemma OneByte(w: string)
    requires In(Fold('s'), w)
    ensures |w| == 1 && Lower(w[0]) == 's'
  {
  }

  lemma TwoBytes(w: string)
    requires In(LONG_S, w)
    ensures |w| == 2 && LongSAt(w, 0)
  {
    FirstChar(Only(0xC5 as char).ok, Only(0xBF as char), w);
  }

  /** The rest of the word after its first letter, and the parenthesis. */
  lemma TailSpelled(w: string, rest: Regex)
    requires In(Then(WideWord("trreverse"), Then(Only('('), rest)), w)
    ensures |w| >= 8 && FoldedAt(w, "trrever", 0) && Lower(w[7]) == 's' ==> FoldedAt(w, "trreverse(", 0)
    ensures |w| >= 8 && FoldedAt(w, "trrever", 0) && (Lower(w[7]) == 's' || LongSAt(w, 7))
  {
    hide In;
    var i := FirstPart(WideWord("trreverse"), Then(Only('('), rest), w);
    var word := w[..i];
    assert "trreverse" == "trrever" + "se" && "se" == "s" + "e" && "e" == "e" + "";
    PlainPart("trrever", "se", word);
    var n := LetterS("e", word[7..]);
    PlainPart("e", "", word[7..][n..]);
    NothingWords(word[7..][n..][1..]);
    assert i == 8 + n;
    FirstChar(Only('(').ok, rest, w[i..]);
    assert w[i..][0] == w[i];
    assert word[7..][0] == w[7];
    if n == 1 {
      assert word[7..][n..][0] == w[8];
      var m := "trreverse(";
      forall k | 0 <= k < |m| ensures Lower(w[k]) == m[k] {
        if k < 7 {
          assert Lower(word[0 + k]) == "trrever"[k] && word[k] == w[k];
        }
      }
    } else {
      assert word[7..][1] == w[8];
    }
  }

  /** A call of `StrReverse` is spelled like the literal exactly when neither of its two letters s is a long s. */
  lemma StrReverseSpelling(w: string, s: nat, e: nat)
    requires s <= e <= |w| && In(STR_REVERSE, w[s..e])
    ensures FoldedAt(w, "strreverse(", s) <==> !LongSAt(w, s) && !LongSAt(w, s + 8)
  {
    hide In, WideWord;
    var part := w[s..e];
    var tail := STR_REVERSE.second;
    var i := FirstPart(WideWord("strreverse"), tail, part);
    assert "strreverse" == "s" + "trreverse";
    var n := LetterS("trreverse", part[..i]);
    assert part[n..][..i - n] == part[..i][n..] && part[n..][i - n..] == part[i..];
    Joins(WideWord("trreverse"), tail, part[n..], i - n);
    TailSpelled(part[n..], tail.second);
    assert part[..i][0] == w[s] && part[n..][7] == w[s + n + 7];
    if n == 1 {
      SpelledFrom(w, s, e);
    } else {
      assert part[..i][1] == w[s + 1];
      assert !FoldedAt(w, "strreverse(", s) by {
        assert Lower(w[s + 0]) != "strreverse("[0];
      }
    }
  }

  lemma SpelledFrom(w: string, s: nat, e: nat)
    requires s + 9 <= e <= |w| && Lower(w[s]) == 's'
    requires var v := w[s..e][1..];
             && (Lower(v[7]) == 's' ==> FoldedAt(v, "trreverse(", 0)) && (Lower(v[7]) == 's' || LongSAt(v, 7))
    ensures FoldedAt(w, "strreverse(", s) <==> !LongSAt(w, s) && !LongSAt(w, s + 8)
  {
    var v, m := w[s..e][1..], "strreverse(";
    assert forall k :: 0 <= k < |v| ==> v[k] == w[s + 1 + k];
    if Lower(v[7]) == 's' {
      forall k | 0 <= k < |m| ensures Lower(w[s + k]) == m[k] {
        if k > 0 {
          assert Lower(v[0 + (k - 1)]) == "trreverse("[k - 1];
        }
      }
    } else {
      assert Lower(w[s + 8]) != m[8];
    }
  }

  /** A match of `StrReverse` whose literal is absent has a long s; and a search that is skipped loses only such. */
  lemma StrReverseException(w: string, s: nat, e: nat, bound: bool)
    requires s <= e <= |w| && In(STR_REVERSE, w[s..e]) && !FoldGate(StrReverse, w, bound)
    ensures LongSAt(w, s) || LongSAt(w, s + 8)
  {
    hide In;
    StrReverseSpelling(w, s, e);
  }
}
