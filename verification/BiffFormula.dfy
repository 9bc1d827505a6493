/** Formula trees, their reverse-Polish encoding, and why folding the encoding is rendering the tree. */
module BiffFormula {
  import opened Basics
  import opened BiffText
  import opened BiffPtg

  /** A formula as a compiler would have seen it.  Every node keeps the opcode byte that spells it, so one
      tree has one encoding for each choice of token class and of the ignored high bit. */
  datatype Formula =
    | Str(op: byte, flag: byte, body: seq<byte>)
    | Int(op: byte, value: nat)
    | Bool(op: byte, truth: byte)
    | Num(op: byte, raw: seq<byte>)
    | Missing(op: byte)
    | Ref(op: byte, raw: seq<byte>)
    | Skipped(op: byte, base: int, raw: seq<byte>)
    | Concat(op: byte, left: Formula, right: Formula)
    | Binary(op: byte, left: Formula, right: Formula)
    | Unary(op: byte, inner: Formula)
    | Paren(op: byte, inner: Formula)
    | Attr(op: byte, raw: seq<byte>, inner: Formula)
    | Call(op: byte, id: nat, args: seq<Formula>)
    | CallVar(op: byte, id: nat, args: seq<Formula>, trailer: seq<byte>)

  predicate HasClasses(base: int) {
    || base == PTG_FUNC || base == PTG_FUNC_VAR || base == PTG_NAME || base == PTG_REF || base == PTG_AREA
    || base == PTG_MEM_AREA || base == PTG_NAME_X || base == PTG_REF_3D || base == PTG_AREA_3D
  }

  /** Whether the format lets `op` spell `base`: the plain opcode or, for functions and references, its
      value-class (+0x20) or array-class (+0x40) variant; the high bit is free. */
  predicate Spells(op: byte, base: int) {
    op % 128 == base || (HasClasses(base) && (op % 128 == base + 0x20 || op % 128 == base + 0x40))
  }

  predicate IsLeaf(f: Formula) {
    f.Str? || f.Int? || f.Bool? || f.Num? || f.Missing? || f.Ref? || f.Skipped?
  }

  function Base(f: Formula): int {
    match f
    case Str(_, _, _) => PTG_STR
    case Int(_, _) => PTG_INT
    case Bool(_, _) => PTG_BOOL
    case Num(_, _) => PTG_NUM
    case Missing(_) => PTG_MISSING
    case Ref(_, _) => PTG_REF
    case Skipped(_, base, _) => base
    case Concat(_, _, _) => PTG_CONCAT
    case Binary(op, _, _) => op % 128
    case Unary(op, _) => op % 128
    case Paren(_, _) => PTG_PAREN
    case Attr(_, _, _) => PTG_ATTR
    case Call(_, _, _) => PTG_FUNC
    case CallVar(_, _, _, _) => PTG_FUNC_VAR
  }

  /** Payload sizes and operand ranges that the format prescribes for one token. */
  predicate TokenOk(f: Formula, d: Dialect) {
    match f
    case Str(_, flag, body) =>
      if d.biff12 then |body| % 2 == 0 && |body| / 2 < 65536
      else if flag == 1 then |body| % 2 == 0 && |body| / 2 < 256 else |body| < 256
    case Int(_, value) => value < 65536
    case Num(_, raw) => |raw| == 8
    case Ref(_, raw) => |raw| == if d.biff12 then 6 else 4
    case Skipped(_, base, raw) => IsSkipped(base) && |raw| == SkipSize(base, d) - 1
    case Binary(op, _, _) => IsBinary(op % 128)
    case Unary(op, _) => IsUnary(op % 128)
    case Attr(op, raw, _) => |raw| >= 3 && AttrSize([op] + raw) == 1 + |raw|
    case Call(_, id, args) => id < 65536 && |args| == Arity(id)
    case CallVar(_, id, args, trailer) =>
      id < 65536 && |args| < 256 && |trailer| == if id == FUNC_USER_DEFINED then 9 else 0
    case _ => true
  }

  predicate WellFormed(f: Formula, d: Dialect)
    decreases f
  {
    && Spells(f.op, Base(f)) && TokenOk(f, d)
    && match f
       case Concat(_, left, right) => WellFormed(left, d) && WellFormed(right, d)
       case Binary(_, left, right) => WellFormed(left, d) && WellFormed(right, d)
       case Unary(_, inner) => WellFormed(inner, d)
       case Paren(_, inner) => WellFormed(inner, d)
       case Attr(_, _, inner) => WellFormed(inner, d)
       case Call(_, _, args) => forall i :: 0 <= i < |args| ==> WellFormed(args[i], d)
       case CallVar(_, _, args, _) => forall i :: 0 <= i < |args| ==> WellFormed(args[i], d)
       case _ => true
  }

  /** Whether the folder maps every opcode byte of the tree to the opcode it spells. */
  predicate Understood(f: Formula)
    decreases f
  {
    && Opcode(f.op) == Base(f)
    && match f
       case Concat(_, left, right) => Understood(left) && Understood(right)
       case Binary(_, left, right) => Understood(left) && Understood(right)
       case Unary(_, inner) => Understood(inner)
       case Paren(_, inner) => Understood(inner)
       case Attr(_, _, inner) => Understood(inner)
       case Call(_, _, args) => forall i :: 0 <= i < |args| ==> Understood(args[i])
       case CallVar(_, _, args, _) => forall i :: 0 <= i < |args| ==> Understood(args[i])
       case _ => true
  }

  /* ---------------------------------------------------------------- encoding */

  function Low(n: nat): byte {
    n % 256
  }

  function High(n: nat): byte
    requires n < 65536
  {
    n / 256
  }

  function Cch(body: seq<byte>, wide: bool): nat {
    if wide then |body| / 2 else |body|
  }

  /** The bytes of the node's own token. */
  function Token(f: Formula, d: Dialect): (b: seq<byte>)
    requires TokenOk(f, d)
    ensures |b| > 0 && b[0] == f.op
  {
    match f
    case Str(op, flag, body) =>
      if d.biff12 then [op, Low(|body| / 2), High(|body| / 2)] + body
      else [op, Cch(body, flag == 1), flag] + body
    case Int(op, value) => [op, Low(value), High(value)]
    case Bool(op, truth) => [op, truth]
    case Num(op, raw) => [op] + raw
    case Ref(op, raw) => [op] + raw
    case Skipped(op, _, raw) => [op] + raw
    case Attr(op, raw, _) => [op] + raw
    case Call(op, id, _) => [op, Low(id), High(id)]
    case CallVar(op, id, args, trailer) => [op, |args|, Low(id), High(id)] + trailer
    case _ => [f.op]
  }

  function Encode(f: Formula, d: Dialect): seq<byte>
    requires WellFormed(f, d)
    decreases f, 1
  {
    match f
    case Concat(_, left, right) => Encode(left, d) + Encode(right, d) + Token(f, d)
    case Binary(_, left, right) => Encode(left, d) + Encode(right, d) + Token(f, d)
    case Unary(_, inner) => Encode(inner, d) + Token(f, d)
    case Paren(_, inner) => Encode(inner, d) + Token(f, d)
    case Attr(_, _, inner) => Token(f, d) + Encode(inner, d)
    case Call(_, _, args) => EncodeArgs(f, args, d) + Token(f, d)
    case CallVar(_, _, args, _) => EncodeArgs(f, args, d) + Token(f, d)
    case _ => Token(f, d)
  }

  function EncodeArgs(f: Formula, args: seq<Formula>, d: Dialect): seq<byte>
    requires forall i :: 0 <= i < |args| ==> args[i] < f && WellFormed(args[i], d)
    decreases f, 0, |args|
  {
    if args == [] then [] else EncodeArgs(f, args[..|args| - 1], d) + Encode(args[|args| - 1], d)
  }

  /* ---------------------------------------------------------------- meaning */

  /** The text of a literal or a reference. */
  function Literal(f: Formula, d: Dialect): string
    requires IsLeaf(f) && TokenOk(f, d)
  {
    match f
    case Str(_, flag, body) => if d.biff12 || flag == 1 then d.utf16(body) else Chars(body)
    case Int(_, value) => Numeral(value, 10)
    case Bool(_, truth) => if truth != 0 then "TRUE" else "FALSE"
    case Num(_, _) => ""
    case Missing(_) => ""
    case Ref(op, raw) => if d.refs then Placeholder(RefCell([op] + raw, d)) else ""
    case Skipped(_, _, _) => ""
  }

  /** The text a formula stands for, by structural recursion. */
  function Render(f: Formula, d: Dialect): string
    requires WellFormed(f, d)
    decreases f, 1
  {
    match f
    case Concat(_, left, right) => Render(left, d) + Render(right, d)
    case Binary(_, _, _) => ""
    case Unary(_, inner) => Render(inner, d)
    case Paren(_, inner) => Render(inner, d)
    case Attr(_, _, inner) => Render(inner, d)
    case Call(_, id, args) => WrapFunc(id, JoinArgs(RenderArgs(f, args, d)))
    case CallVar(_, id, args, _) => WrapFunc(id, JoinArgs(RenderArgs(f, args, d)))
    case _ => Literal(f, d)
  }

  function RenderArgs(f: Formula, args: seq<Formula>, d: Dialect): (r: seq<string>)
    requires forall i :: 0 <= i < |args| ==> args[i] < f && WellFormed(args[i], d)
    ensures |r| == |args|
    decreases f, 0, |args|
  {
    if args == [] then [] else RenderArgs(f, args[..|args| - 1], d) + [Render(args[|args| - 1], d)]
  }

  /* ---------------------------------------------------------------- caps */

  function Tokens(f: Formula): nat
    decreases f, 1
  {
    match f
    case Concat(_, left, right) => Tokens(left) + Tokens(right) + 1
    case Binary(_, left, right) => Tokens(left) + Tokens(right) + 1
    case Unary(_, inner) => Tokens(inner) + 1
    case Paren(_, inner) => Tokens(inner) + 1
    case Attr(_, _, inner) => Tokens(inner) + 1
    case Call(_, _, args) => TokensOf(f, args) + 1
    case CallVar(_, _, args, _) => TokensOf(f, args) + 1
    case _ => 1
  }

  function TokensOf(f: Formula, args: seq<Formula>): nat
    requires forall i :: 0 <= i < |args| ==> args[i] < f
    decreases f, 0, |args|
  {
    if args == [] then 0 else TokensOf(f, args[..|args| - 1]) + Tokens(args[|args| - 1])
  }

  /** The tree folds with `room` free stack slots, without an operand longer than the cap and without a call of more
      arguments than the folder takes. */
  predicate Fits(f: Formula, d: Dialect, room: int)
    requires WellFormed(f, d)
    decreases f
  {
    && room >= 1 && |Render(f, d)| <= MAX_TEXT
    && match f
       case Concat(_, left, right) => Fits(left, d, room) && Fits(right, d, room - 1)
       case Binary(_, left, right) => Fits(left, d, room) && Fits(right, d, room - 1)
       case Unary(_, inner) => Fits(inner, d, room)
       case Paren(_, inner) => Fits(inner, d, room)
       case Attr(_, _, inner) => Fits(inner, d, room)
       case Call(_, _, args) => forall i :: 0 <= i < |args| ==> Fits(args[i], d, room - i)
       case CallVar(_, _, args, _) => |args| <= MAX_ARGS && forall i :: 0 <= i < |args| ==> Fits(args[i], d, room - i)
       case _ => true
  }

  /* ---------------------------------------------------------------- one token */

  lemma StrTurnIs(f: Formula, d: Dialect, unread: seq<byte>, stack: seq<string>)
    requires f.Str? && TokenOk(f, d) && |Literal(f, d)| <= MAX_TEXT && |stack| < MAX_DEPTH
    ensures StrTurn(Token(f, d) + unread, stack, d) == Next(stack + [Literal(f, d)], unread)
  {
    var b := Token(f, d) + unread;
    assert b[3..3 + |f.body|] == f.body && b[3 + |f.body|..] == unread;
  }

  lemma RefTurnIs(f: Formula, d: Dialect, unread: seq<byte>, stack: seq<string>)
    requires f.Ref? && TokenOk(f, d) && |Literal(f, d)| <= MAX_TEXT && |stack| < MAX_DEPTH
    ensures RefTurn(Token(f, d) + unread, stack, d) == Next(stack + [Literal(f, d)], unread)
  {
    hide CellName, Placeholder;
    var b := Token(f, d) + unread;
    assert b[..1 + |f.raw|] == [f.op] + f.raw && b[1 + |f.raw|..] == unread;
    assert d.refs ==> RefCell(b, d) == RefCell([f.op] + f.raw, d);
  }

  /** A literal or reference token pushes what the node renders to. */
  lemma {:induction false} LeafTurn(f: Formula, d: Dialect, unread: seq<byte>, stack: seq<string>)
    requires IsLeaf(f) && TokenOk(f, d) && Opcode(f.op) == Base(f) && |Literal(f, d)| <= MAX_TEXT && |stack| < MAX_DEPTH
    ensures Dispatch(Token(f, d) + unread, stack, d) == Next(stack + [Literal(f, d)], unread)
  {
    hide Numeral, StrTurn, RefTurn, RefCell, Placeholder;
    var b := Token(f, d) + unread;
    if f.Str? {
      StrTurnIs(f, d, unread, stack);
    } else if f.Ref? {
      RefTurnIs(f, d, unread, stack);
    } else if f.Int? {
      assert Word(b, 1) == f.value && b[3..] == unread;
    } else {
      assert b[|Token(f, d)|..] == unread;
    }
  }

  /** The popped operands are the ones pushed last, in order. */
  lemma OperandsAre(stack: seq<string>, args: seq<string>)
    ensures Operands(stack + args, |args|) == args && Popped(stack + args, |args|) == stack
  {
  }

  /** An operator or function token replaces its operands by what the node renders to. */
  lemma {:induction false} OperatorTurnIs(f: Formula, d: Dialect, unread: seq<byte>, stack: seq<string>,
                                          args: seq<string>, text: string)
    requires !IsLeaf(f) && !f.Attr? && TokenOk(f, d) && Opcode(f.op) == Base(f)
    requires |stack| < MAX_DEPTH && |text| <= MAX_TEXT
    requires f.Concat? ==> |args| == 2 && text == args[0] + args[1]
    requires f.Binary? ==> |args| == 2 && text == ""
    requires f.Unary? || f.Paren? ==> args == [text]
    requires f.Call? ==> |args| == |f.args| && text == WrapFunc(f.id, JoinArgs(args))
    requires f.CallVar? ==> |args| == |f.args| <= MAX_ARGS && text == WrapFunc(f.id, JoinArgs(args))
    ensures Dispatch(Token(f, d) + unread, stack + args, d) == Next(stack + [text], unread)
  {
    hide WrapFunc, JoinArgs, Operands, Popped;
    OperandsAre(stack, args);
    var b := Token(f, d) + unread;
    if f.Call? {
      assert Word(b, 1) == f.id && b[3..] == unread;
    } else if f.CallVar? {
      assert Word(b, 2) == f.id && b[4 + |f.trailer|..] == unread;
    } else {
      assert b[1..] == unread;
    }
  }

  /** A call of more arguments than the folder takes: only the last of them are its operands. */
  lemma LongCallTurn(f: Formula, d: Dialect, unread: seq<byte>, stack: seq<string>, args: seq<string>)
    requires f.CallVar? && TokenOk(f, d) && Opcode(f.op) == Base(f) && MAX_ARGS < |f.args| && |args| == MAX_ARGS
    requires |stack| < MAX_DEPTH && |WrapFunc(f.id, JoinArgs(args))| <= MAX_TEXT
    ensures Dispatch(Token(f, d) + unread, stack + args, d) == Next(stack + [WrapFunc(f.id, JoinArgs(args))], unread)
  {
    hide WrapFunc, JoinArgs, Operands, Popped;
    OperandsAre(stack, args);
    var b := Token(f, d) + unread;
    assert Word(b, 2) == f.id && b[4 + |f.trailer|..] == unread;
  }

  lemma AttrTurnIs(f: Formula, d: Dialect, unread: seq<byte>, stack: seq<string>)
    requires f.Attr? && TokenOk(f, d) && Opcode(f.op) == Base(f)
    ensures Dispatch(Token(f, d) + unread, stack, d) == Next(stack, unread)
  {
    var b := Token(f, d) + unread;
    assert b[..1 + |f.raw|] == [f.op] + f.raw && b[1 + |f.raw|..] == unread;
  }
}
