/** The reverse-Polish token machine that folds a BIFF formula into text.

    The machine reads a token from the front of the unread bytes, changes the operand stack and goes on.
    It stops at a truncated or unknown token, at the token cap or at the end of the bytes. */
module BiffPtg {
  import opened Basics
  import opened BiffText

  const PTG_EXP := 0x01
  const PTG_CONCAT := 0x08
  const PTG_PAREN := 0x15
  const PTG_MISSING := 0x16
  const PTG_STR := 0x17
  const PTG_ATTR := 0x19
  const PTG_BOOL := 0x1D
  const PTG_INT := 0x1E
  const PTG_NUM := 0x1F
  const PTG_FUNC := 0x21
  const PTG_FUNC_VAR := 0x22
  const PTG_NAME := 0x23
  const PTG_REF := 0x24
  const PTG_AREA := 0x25
  const PTG_MEM_AREA := 0x26
  const PTG_NAME_X := 0x39
  const PTG_REF_3D := 0x3A
  const PTG_AREA_3D := 0x3B

  const MAX_TOKENS := 8192
  const MAX_DEPTH := 4096
  const MAX_TEXT := 65536
  const MAX_ARGS := 64

  predicate IsBinary(ptg: int) {
    0x03 <= ptg <= 0x11 && ptg != PTG_CONCAT
  }

  predicate IsUnary(ptg: int) {
    0x12 <= ptg <= 0x14
  }

  /** What differs between the four folders: the encoding, whether cell references are rendered, and
      whether skipping a reference checks for truncation.  `utf16` decodes little-endian UTF-16. */
  datatype Dialect = Dialect(biff12: bool, refs: bool, checked: bool, utf16: seq<byte> -> string)

  /** Class variants of functions and references, mapped to their base opcode. */
  function Normalize(ptg: int): int {
    match ptg
    case 0x41 => PTG_FUNC
    case 0x61 => PTG_FUNC
    case 0x42 => PTG_FUNC_VAR
    case 0x62 => PTG_FUNC_VAR
    case 0x44 => PTG_REF
    case 0x64 => PTG_REF
    case 0x45 => PTG_AREA
    case 0x65 => PTG_AREA
    case 0x5A => PTG_REF_3D
    case 0x5B => PTG_AREA_3D
    case 0x43 => PTG_NAME
    case 0x63 => PTG_NAME
    case 0x59 => PTG_NAME_X
    case _ => ptg
  }

  /** The opcode an opcode byte stands for. */
  function Opcode(b: byte): int {
    Normalize(b % 128)
  }

  /* ---------------------------------------------------------------- stack */

  function Clip(s: string): (r: string)
    ensures |r| <= MAX_TEXT
  {
    Clamped(s, MAX_TEXT)
  }

  function Push(stack: seq<string>, s: string): seq<string> {
    if |stack| >= MAX_DEPTH then stack else stack + [Clip(s)]
  }

  /** What is left after `n` pops. */
  function Popped(stack: seq<string>, n: nat): seq<string> {
    if |stack| <= n then [] else stack[..|stack| - n]
  }

  /** The `n` popped operands in source order; popping an empty stack yields an empty operand. */
  function Operands(stack: seq<string>, n: nat): seq<string> {
    seq(n, i requires 0 <= i < n => if |stack| - n + i >= 0 then stack[|stack| - n + i] else "")
  }

  function JoinArgs(args: seq<string>): string {
    if args == [] then ""
    else if |args| == 1 then args[0]
    else JoinArgs(args[..|args| - 1]) + "," + args[|args| - 1]
  }

  function Concatenated(stack: seq<string>): string {
    if stack == [] then "" else Concatenated(stack[..|stack| - 1]) + stack[|stack| - 1]
  }

  /** The folded formula: the operands from the bottom of the stack to its top. */
  function Join(stack: seq<string>): string {
    if |stack| == 1 then stack[0] else Clip(Concatenated(stack))
  }

  /* ---------------------------------------------------------------- one token */

  datatype Turn = Stop | Next(stack: seq<string>, unread: seq<byte>)

  function Word(b: seq<byte>, i: nat): nat
    requires i + 2 <= |b|
  {
    b[i] as int + 256 * b[i + 1] as int
  }

  /** Unchecked advance: it may run past the end, which leaves nothing to read. */
  function Drop(b: seq<byte>, n: nat): seq<byte> {
    if n <= |b| then b[n..] else []
  }

  function Chars(b: seq<byte>): string {
    seq(|b|, i requires 0 <= i < |b| => b[i] as char)
  }

  function StrTurn(b: seq<byte>, stack: seq<string>, d: Dialect): Turn {
    if |b| < 3 then Stop
    else
      var wide := d.biff12 || b[2] == 1;
      var size := if d.biff12 then 2 * Word(b, 1) else if wide then 2 * (b[1] as int) else b[1] as int;
      if 3 + size > |b| then Stop
      else Next(Push(stack, if wide then d.utf16(b[3..3 + size]) else Chars(b[3..3 + size])), b[3 + size..])
  }

  function RefTurn(b: seq<byte>, stack: seq<string>, d: Dialect): Turn {
    var size := if d.biff12 then 7 else 5;
    if (d.refs || d.biff12) && |b| < size then Stop
    else Next(Push(stack, if !d.refs then "" else Placeholder(RefCell(b, d))), Drop(b, size))
  }

  function RefCell(b: seq<byte>, d: Dialect): string
    requires |b| >= if d.biff12 then 7 else 5
  {
    if d.biff12 then CellName(Word(b, 1) + 65536 * Word(b, 3), Word(b, 5)) else CellName(Word(b, 1), Word(b, 3))
  }

  /** A reference that is skipped and leaves an empty operand. */
  function SkipTurn(b: seq<byte>, stack: seq<string>, checked: bool, size: nat): Turn {
    if checked && |b| < size then Stop else Next(Push(stack, ""), Drop(b, size))
  }

  function SkipSize(ptg: int, d: Dialect): nat {
    match ptg
    case 0x25 => if d.biff12 then 13 else 9
    case 0x01 => if d.biff12 then 7 else 5
    case 0x3A => if d.biff12 then 9 else 7
    case 0x3B => if d.biff12 then 15 else 11
    case 0x23 => 5
    case _ => 7
  }

  predicate IsSkipped(ptg: int) {
    ptg == PTG_AREA || ptg == PTG_EXP || ptg == PTG_REF_3D || ptg == PTG_AREA_3D || IsUncheckedSkip(ptg)
  }

  /** Skips that no dialect checks. */
  predicate IsUncheckedSkip(ptg: int) {
    ptg == PTG_NAME || ptg == PTG_MEM_AREA || ptg == PTG_NAME_X
  }

  function AttrSize(b: seq<byte>): nat
    requires |b| >= 4
  {
    if b[1] / 4 % 2 == 1 then 4 + (Word(b, 2) + 1) * 2 else 4
  }

  function CallVarTurn(b: seq<byte>, stack: seq<string>): Turn
    requires |b| >= 4
  {
    var id, argc := Word(b, 2), if b[1] > MAX_ARGS then MAX_ARGS else b[1];
    Next(Push(Popped(stack, argc), WrapFunc(id, JoinArgs(Operands(stack, argc)))),
         Drop(b, if id == FUNC_USER_DEFINED then 13 else 4))
  }

  function OperandTurn(ptg: int, b: seq<byte>, stack: seq<string>, d: Dialect): Turn
    requires |b| > 0
  {
    if ptg == PTG_STR then StrTurn(b, stack, d)
    else if ptg == PTG_INT then
      if |b| < 3 then Stop else Next(Push(stack, Numeral(Word(b, 1), 10)), b[3..])
    else if ptg == PTG_BOOL then
      if |b| < 2 then Stop else Next(Push(stack, if b[1] != 0 then "TRUE" else "FALSE"), b[2..])
    else if ptg == PTG_NUM then
      if |b| < 9 then Stop else Next(Push(stack, ""), b[9..])
    else if ptg == PTG_MISSING then Next(Push(stack, ""), b[1..])
    else if ptg == PTG_REF then RefTurn(b, stack, d)
    else if IsSkipped(ptg) then SkipTurn(b, stack, d.checked && !IsUncheckedSkip(ptg), SkipSize(ptg, d))
    else Stop
  }

  function OperatorTurn(ptg: int, b: seq<byte>, stack: seq<string>): Turn
    requires |b| > 0
  {
    if ptg == PTG_CONCAT then
      var two := Operands(stack, 2);
      Next(Push(Popped(stack, 2), two[0] + two[1]), b[1..])
    else if IsBinary(ptg) then Next(Push(Popped(stack, 2), ""), b[1..])
    else if IsUnary(ptg) then Next(Push(Popped(stack, 1), Operands(stack, 1)[0]), b[1..])
    else if ptg == PTG_PAREN then Next(stack, b[1..])
    else if ptg == PTG_FUNC then
      if |b| < 3 then Stop
      else
        var id := Word(b, 1);
        Next(Push(Popped(stack, Arity(id)), WrapFunc(id, JoinArgs(Operands(stack, Arity(id))))), b[3..])
    else if ptg == PTG_FUNC_VAR then
      if |b| < 4 then Stop else CallVarTurn(b, stack)
    else if ptg == PTG_ATTR then
      if |b| < 4 || |b| < AttrSize(b) then Stop else Next(stack, b[AttrSize(b)..])
    else Stop
  }

  predicate IsOperator(ptg: int) {
    || ptg == PTG_CONCAT || IsBinary(ptg) || IsUnary(ptg) || ptg == PTG_PAREN
    || ptg == PTG_FUNC || ptg == PTG_FUNC_VAR || ptg == PTG_ATTR
  }

  predicate IsOperand(ptg: int) {
    || ptg == PTG_STR || ptg == PTG_INT || ptg == PTG_BOOL || ptg == PTG_NUM
    || ptg == PTG_MISSING || ptg == PTG_REF || IsSkipped(ptg)
  }

  function Dispatch(b: seq<byte>, stack: seq<string>, d: Dialect): Turn
    requires |b| > 0
  {
    var ptg := Opcode(b[0]);
    if IsOperator(ptg) then OperatorTurn(ptg, b, stack) else OperandTurn(ptg, b, stack, d)
  }

  /* ---------------------------------------------------------------- the whole stream */

  datatype Halt = Halt(stack: seq<string>, unread: nat)

  /** A token always consumes its opcode byte. */
  lemma TokensAdvance(b: seq<byte>, stack: seq<string>, d: Dialect)
    requires |b| > 0
    ensures Dispatch(b, stack, d).Next? ==> |Dispatch(b, stack, d).unread| < |b|
  {
  }

  function Exec(b: seq<byte>, stack: seq<string>, tokens: nat, d: Dialect): Halt
    decreases |b|
  {
    if b == [] || tokens >= MAX_TOKENS then Halt(stack, |b|)
    else
      TokensAdvance(b, stack, d);
      match Dispatch(b, stack, d)
      case Stop => Halt(stack, |b|)
      case Next(next, unread) => Exec(unread, next, tokens + 1, d)
  }

  function Fold(data: seq<byte>, d: Dialect): string {
    Join(Exec(data, [], 0, d).stack)
  }

  /* ---------------------------------------------------------------- the truncation check is unobservable */

  predicate AllClipped(stack: seq<string>) {
    forall i :: 0 <= i < |stack| ==> |stack[i]| <= MAX_TEXT
  }

  lemma JoinIgnoresEmpty(stack: seq<string>)
    requires AllClipped(stack)
    ensures Join(Push(stack, "")) == Join(stack)
  {
    if |stack| < MAX_DEPTH {
      assert Push(stack, "")[..|stack|] == stack;
      assert Concatenated(Push(stack, "")) == Concatenated(stack);
      if |stack| == 1 {
        assert stack[..0] == [];
        assert Concatenated(stack) == stack[0];
      }
    }
  }

  lemma PushStaysClipped(stack: seq<string>, n: nat, s: string)
    requires AllClipped(stack)
    ensures AllClipped(Push(Popped(stack, n), s)) && AllClipped(Push(stack, s))
  {
  }

  lemma TurnsStayClipped(b: seq<byte>, stack: seq<string>, d: Dialect)
    requires |b| > 0 && AllClipped(stack)
    ensures Dispatch(b, stack, d).Next? ==> AllClipped(Dispatch(b, stack, d).stack)
  {
    hide WrapFunc, JoinArgs, Numeral, CellName, Placeholder, Push, Popped, AllClipped;
    forall n: nat, s ensures AllClipped(Push(Popped(stack, n), s)) {
      PushStaysClipped(stack, n, s);
    }
    forall s ensures AllClipped(Push(stack, s)) {
      PushStaysClipped(stack, 0, s);
    }
  }

  /** Whether a skip checks for truncation changes no turn but the last one, where it only costs or saves
      an empty operand. */
  lemma CheckMattersOnlyAtTheEnd(b: seq<byte>, stack: seq<string>, d: Dialect)
    requires |b| > 0
    ensures var loose, strict := Dispatch(b, stack, d.(checked := false)), Dispatch(b, stack, d.(checked := true));
            loose == strict || (strict == Stop && loose == Next(Push(stack, ""), []))
  {
    hide OperatorTurn, Numeral, CellName, Placeholder, Push, Chars, Normalize;
  }

  /** Swapping the unchecked reference skip for the checked one changes the folded text of no byte string. */
  lemma {:induction false} SkipCheckIsUnobservable(b: seq<byte>, stack: seq<string>, tokens: nat, d: Dialect)
    requires AllClipped(stack)
    ensures Join(Exec(b, stack, tokens, d.(checked := false)).stack)
            == Join(Exec(b, stack, tokens, d.(checked := true)).stack)
    decreases |b|
  {
    hide Dispatch, Join, Push;
    if b != [] && tokens < MAX_TOKENS {
      var loose, strict := Dispatch(b, stack, d.(checked := false)), Dispatch(b, stack, d.(checked := true));
      CheckMattersOnlyAtTheEnd(b, stack, d);
      TokensAdvance(b, stack, d.(checked := false));
      TurnsStayClipped(b, stack, d.(checked := false));
      if loose == strict {
        if loose.Next? {
          SkipCheckIsUnobservable(loose.unread, loose.stack, tokens + 1, d);
        }
      } else {
        JoinIgnoresEmpty(stack);
      }
    }
  }

  lemma FoldIgnoresSkipCheck(data: seq<byte>, d: Dialect, checked: bool)
    ensures Fold(data, d.(checked := checked)) == Fold(data, d)
  {
    SkipCheckIsUnobservable(data, [], 0, d);
  }
}
