/** What can be read off a folded formula: its parts, in their order. */
module BiffReadable {
  import opened Basics
  import opened BiffText
  import opened BiffPtg
  import opened BiffFormula
  import opened BiffCorrect

  /* ---------------------------------------------------------------- arguments */

  /** The parts of a text between its commas, from the left. */
  function Split(t: string): (parts: seq<string>)
    ensures |parts| >= 1
  {
    if t == "" then [""]
    else
      var rest := Split(t[1..]);
      if t[0] == ',' then [""] + rest else [[t[0]] + rest[0]] + rest[1..]
  }

  lemma {:induction false} SplitOne(t: string)
    requires ',' !in t
    ensures Split(t) == [t]
  {
    if t != "" {
      SplitOne(t[1..]);
      assert [t[0]] + t[1..] == t;
    }
  }

  lemma {:induction false} SplitBehind(front: string, last: string)
    requires ',' !in last
    ensures Split(front + "," + last) == Split(front) + [last]
  {
    var t := front + "," + last;
    if front == "" {
      SplitOne(last);
      assert t[1..] == last;
    } else {
      SplitBehind(front[1..], last);
      assert t[1..] == front[1..] + "," + last;
    }
  }

  /** Joined arguments split into the same arguments, first to last. */
  lemma {:induction false} JoinedArgsSplit(args: seq<string>)
    requires args != [] && forall i :: 0 <= i < |args| ==> ',' !in args[i]
    ensures Split(JoinArgs(args)) == args
  {
    var last := args[|args| - 1];
    if |args| == 1 {
      SplitOne(last);
    } else {
      var front := args[..|args| - 1];
      JoinedArgsSplit(front);
      SplitBehind(JoinArgs(front), last);
      assert front + [last] == args;
    }
  }

  /** Where argument `i` starts in the joined text: behind the ones before it and a comma for each. */
  function StartOf(args: seq<string>, i: nat): nat
    requires i <= |args|
  {
    if i == 0 then 0 else StartOf(args, i - 1) + |args[i - 1]| + 1
  }

  lemma {:induction false} StartInFront(args: seq<string>, i: nat)
    requires args != [] && i <= |args| - 1
    ensures StartOf(args[..|args| - 1], i) == StartOf(args, i)
  {
    if i > 0 {
      StartInFront(args, i - 1);
    }
  }

  lemma {:induction false} JoinedLength(args: seq<string>)
    requires args != []
    ensures |JoinArgs(args)| + 1 == StartOf(args, |args|)
  {
    if |args| > 1 {
      JoinedLength(args[..|args| - 1]);
      StartInFront(args, |args| - 1);
    } else {
      assert StartOf(args, 1) == StartOf(args, 0) + |args[0]| + 1;
    }
  }

  /** Every argument stands in its place, with a comma before it unless it is the first, commas in it or not. */
  lemma {:induction false} ArgumentInPlace(args: seq<string>, i: nat)
    requires i < |args|
    ensures var o, t := StartOf(args, i), JoinArgs(args);
            o + |args[i]| <= |t| && t[o..o + |args[i]|] == args[i] && (i > 0 ==> t[o - 1] == ',')
    ensures StartOf(args, |args|) == |JoinArgs(args)| + 1
  {
    JoinedLength(args);
    var n := |args| - 1;
    var front := args[..n];
    var o, t := StartOf(args, i), JoinArgs(args);
    if i < n {
      ArgumentInPlace(front, i);
      StartInFront(args, i);
      var u := JoinArgs(front);
      assert t == u + "," + args[n];
      hide JoinArgs, StartOf;
      assert t[..|u|] == u;
      assert t[o..o + |args[i]|] == u[o..o + |args[i]|];
    } else if n > 0 {
      JoinedLength(front);
      StartInFront(args, n);
      assert t == JoinArgs(front) + "," + args[n];
    }
  }

  /** `t` lists `texts`, in order. */
  ghost predicate Lists(t: string, texts: seq<string>) {
    && (texts == [] ==> t == "")
    && (texts != [] && (forall i :: 0 <= i < |texts| ==> ',' !in texts[i]) ==> Split(t) == texts)
    && (texts != [] ==> StartOf(texts, |texts|) == |t| + 1)
    && (forall i :: 0 <= i < |texts| ==> StandsAt(t, StartOf(texts, i), texts[i]))
  }

  /** `part` stands at `o`, at the start or behind a comma. */
  predicate StandsAt(t: string, o: nat, part: string) {
    o + |part| <= |t| && t[o..o + |part|] == part && (o > 0 ==> t[o - 1] == ',')
  }

  lemma JoinedArgsList(args: seq<string>)
    ensures Lists(JoinArgs(args), args)
  {
    hide JoinArgs, Split;
    if args == [] {
      NoArgs();
    } else {
      JoinedLength(args);
      if forall i :: 0 <= i < |args| ==> ',' !in args[i] {
        JoinedArgsSplit(args);
      }
      forall i | 0 <= i < |args| ensures StandsAt(JoinArgs(args), StartOf(args, i), args[i]) {
        ArgumentInPlace(args, i);
        if i == 0 {
          assert StartOf(args, 0) == 0;
        }
      }
    }
  }

  lemma NoArgs()
    ensures JoinArgs([]) == ""
  {
  }

  /** The texts of a call's arguments, in source order. */
  function ArgumentTexts(f: Formula, d: Dialect): seq<string>
    requires (f.Call? || f.CallVar?) && WellFormed(f, d)
  {
    seq(|f.args|, i requires 0 <= i < |f.args| => Render(f.args[i], d))
  }

  lemma {:induction false} RenderArgsAre(f: Formula, args: seq<Formula>, d: Dialect)
    requires forall i :: 0 <= i < |args| ==> args[i] < f && WellFormed(args[i], d)
    ensures forall i :: 0 <= i < |args| ==> RenderArgs(f, args, d)[i] == Render(args[i], d)
    decreases |args|
  {
    hide Render, WellFormed;
    if args != [] {
      RenderArgsAre(f, args[..|args| - 1], d);
    }
  }

  /* ---------------------------------------------------------------- numbers and cells */

  predicate IsLowerHex(c: char) {
    IsDigit(c) || 'a' <= c <= 'f'
  }

  predicate AllLowerHex(s: string) {
    forall i :: 0 <= i < |s| ==> IsLowerHex(s[i])
  }

  function HexValue(s: string): nat
    requires AllLowerHex(s)
  {
    if s == [] then 0
    else
      var c := s[|s| - 1];
      assert IsLowerHex(c);
      HexValue(s[..|s| - 1]) * 16 + if IsDigit(c) then (c - '0') as nat else (c - 'a') as nat + 10
  }

  lemma {:induction false} HexReadsBack(n: nat)
    ensures AllLowerHex(Numeral(n, 16)) && HexValue(Numeral(n, 16)) == n
  {
    var s := Numeral(n, 16);
    if n < 16 {
      assert s[..0] == [];
    } else {
      HexReadsBack(n / 16);
      assert s[..|s| - 1] == Numeral(n / 16, 16);
    }
  }

  predicate IsCapital(c: char) {
    'A' <= c <= 'Z'
  }

  predicate AllCapitals(s: string) {
    forall i :: 0 <= i < |s| ==> IsCapital(s[i])
  }

  /** The number of a column, from its letters: `A` is 1, `Z` is 26, `AA` is 27. */
  function ColumnValue(s: string): nat
    requires AllCapitals(s)
  {
    if s == [] then 0
    else
      var c := s[|s| - 1];
      assert IsCapital(c);
      ColumnValue(s[..|s| - 1]) * 26 + (c - 'A') as nat + 1
  }

  lemma {:induction false} LettersReadBack(n: nat)
    ensures AllCapitals(Letters(n)) && ColumnValue(Letters(n)) == n
  {
    var s := Letters(n);
    if n > 0 {
      LettersReadBack((n - 1) / 26);
      assert s[..|s| - 1] == Letters((n - 1) / 26);
    }
  }

  /** `text` is the name of the cell in the 0-based row and column: capitals, then digits. */
  ghost predicate Names(text: string, row: nat, col: nat) {
    exists k :: 0 < k < |text| && NamesAt(text, k, row, col)
  }

  ghost predicate NamesAt(text: string, k: nat, row: nat, col: nat)
    requires k <= |text|
  {
    && AllCapitals(text[..k]) && AllDigits(text[k..])
    && ColumnValue(text[..k]) == col + 1 && DecimalValue(text[k..]) == row + 1
  }

  lemma CellNameNames(row: nat, col: nat)
    requires row <= 1_048_575
    ensures Names(CellName(row, col), row, col % 0x4000)
  {
    hide Letters, Numeral;
    var c, r := Letters(col % 0x4000 + 1), Numeral(row + 1, 10);
    LettersReadBack(col % 0x4000 + 1);
    NumeralReadsBack(row + 1);
    var text := CellName(row, col);
    assert text[..|c|] == c && text[|c|..] == r;
    assert c != [];
    assert NamesAt(text, |c|, row, col % 0x4000);
  }

  /* ---------------------------------------------------------------- folded formulas */

  ghost predicate Foldable(f: Formula, d: Dialect) {
    WellFormed(f, d) && Understood(f) && Fits(f, d, MAX_DEPTH) && Tokens(f) <= MAX_TOKENS
  }

  /** The text of a call of function `id` with `t` between its parentheses: the name if it has one, or else its
      number. */
  ghost predicate CallText(text: string, id: nat, t: string) {
    if id in NAMES then text == "=" + NAMES[id] + "(" + t + ")"
    else exists h :: NumbersCall(text, h, id, t)
  }

  predicate NumbersCall(text: string, h: string, id: nat, t: string) {
    AllLowerHex(h) && HexValue(h) == id && text == "FUNC_" + h + "(" + t + ")"
  }

  lemma WrapFuncIs(id: nat, t: string)
    requires id != FUNC_CHAR || FoldChar(t).None?
    ensures CallText(WrapFunc(id, t), id, t)
  {
    hide Numeral, FoldChar;
    HexReadsBack(id);
    if id !in NAMES {
      assert NumbersCall(WrapFunc(id, t), Numeral(id, 16), id, t);
    }
  }

  lemma RenderOfCall(f: Formula, d: Dialect)
    requires (f.Call? || f.CallVar?) && WellFormed(f, d)
    ensures Render(f, d) == WrapFunc(f.id, JoinArgs(ArgumentTexts(f, d)))
  {
    hide WrapFunc, JoinArgs, TokenOk, Spells;
    RenderArgsAre(f, f.args, d);
    assert RenderArgs(f, f.args, d) == ArgumentTexts(f, d);
  }

  /** A call folds to its name and its arguments' texts, in source order; the exception is `CHAR` of a literal
      printable code. */
  lemma CallReadsBack(f: Formula, d: Dialect)
    requires (f.Call? || f.CallVar?) && Foldable(f, d)
    requires f.id != FUNC_CHAR || FoldChar(JoinArgs(ArgumentTexts(f, d))).None?
    ensures exists t :: Lists(t, ArgumentTexts(f, d)) && CallText(Fold(Encode(f, d), d), f.id, t)
  {
    hide Fold, Encode, Lists, CallText, WrapFunc, Understood, Fits, Tokens, JoinArgs, Render, WellFormed,
         ArgumentTexts;
    FoldIsRender(f, d);
    RenderOfCall(f, d);
    var texts := ArgumentTexts(f, d);
    JoinedArgsList(texts);
    WrapFuncIs(f.id, JoinArgs(texts));
  }

  /** The 0-based row of a reference, little-endian: two bytes, or four. */
  function RowOf(raw: seq<byte>, d: Dialect): nat
    requires |raw| == if d.biff12 then 6 else 4
  {
    var low := raw[0] as int + 256 * raw[1] as int;
    if d.biff12 then low + 65536 * (raw[2] as int + 256 * raw[3] as int) else low
  }

  /** The 0-based column of a reference, in the last two bytes; the two high bits are flags. */
  function ColumnOf(raw: seq<byte>, d: Dialect): nat
    requires |raw| == if d.biff12 then 6 else 4
  {
    raw[|raw| - 2] as int + 256 * (raw[|raw| - 1] as int % 64)
  }

  lemma RefCellNames(op: byte, raw: seq<byte>, d: Dialect)
    requires |raw| == if d.biff12 then 6 else 4
    ensures var cell := RefCell([op] + raw, d);
            if RowOf(raw, d) > 1_048_575 then cell == "" else cell != "" && Names(cell, RowOf(raw, d), ColumnOf(raw, d))
  {
    hide CellName, Names;
    var row, col := RowOf(raw, d), raw[|raw| - 2] as int + 256 * raw[|raw| - 1] as int;
    assert RefCell([op] + raw, d) == CellName(row, col);
    FlagsDrop(raw[|raw| - 2], raw[|raw| - 1]);
    CellNameIs(row, col);
  }

  lemma FlagsDrop(low: byte, high: byte)
    ensures (low as int + 256 * high as int) % 0x4000 == low as int + 256 * (high as int % 64)
  {
    var flags, rest := high as int / 64, high as int % 64;
    assert low as int + 256 * high as int == flags * 0x4000 + (low as int + 256 * rest);
  }

  lemma CellNameIs(row: nat, col: nat)
    ensures var cell := CellName(row, col);
            if row > 1_048_575 then cell == "" else cell != "" && Names(cell, row, col % 0x4000)
  {
    hide Letters, Numeral, NamesAt;
    if row <= 1_048_575 {
      CellNameNames(row, col);
    }
  }

  /** A rendered reference names its cell; one outside the sheet leaves nothing. */
  lemma RefReadsBack(f: Formula, d: Dialect)
    requires f.Ref? && d.refs && Foldable(f, d)
    ensures if RowOf(f.raw, d) > 1_048_575 then Fold(Encode(f, d), d) == ""
            else exists cell :: Names(cell, RowOf(f.raw, d), ColumnOf(f.raw, d)) &&
                   Fold(Encode(f, d), d) == "[[REF:" + cell + "]]"
  {
    hide Fold, Encode, Names, RefCell, Understood, Fits, Tokens, RowOf, ColumnOf;
    FoldIsRender(f, d);
    RefCellNames(f.op, f.raw, d);
  }

  /* ---------------------------------------------------------------- what is left on the stack */

  function LengthBelow(stack: seq<string>, i: nat): nat
    requires i <= |stack|
  {
    if i == 0 then 0 else LengthBelow(stack, i - 1) + |stack[i - 1]|
  }

  lemma {:induction false} LengthInFront(stack: seq<string>, i: nat)
    requires stack != [] && i <= |stack| - 1
    ensures LengthBelow(stack[..|stack| - 1], i) == LengthBelow(stack, i)
  {
    if i > 0 {
      LengthInFront(stack, i - 1);
    }
  }

  /** The operands are joined from the bottom of the stack to its top, each in its place. */
  lemma {:induction false} OperandInPlace(stack: seq<string>, i: nat)
    requires i < |stack|
    ensures var o, t := LengthBelow(stack, i), Concatenated(stack);
            && |t| == LengthBelow(stack, |stack|)
            && o + |stack[i]| <= |t| && t[o..o + |stack[i]|] == stack[i]
  {
    var n := |stack| - 1;
    var front := stack[..n];
    LengthInFront(stack, n);
    if n == 0 {
      assert front == [];
    } else {
      OperandInPlace(front, if i < n then i else 0);
      if i < n {
        LengthInFront(stack, i);
        var o, t, u := LengthBelow(stack, i), Concatenated(stack), Concatenated(front);
        assert t[..|u|] == u;
        assert t[o..o + |stack[i]|] == u[o..o + |stack[i]|];
      }
    }
  }
}
