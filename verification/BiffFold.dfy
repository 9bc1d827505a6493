/** The folder as it runs: one loop over a position and an operand stack. */
module BiffFold {
  import opened Basics
  import opened BiffText
  import opened BiffPtg

  /** Removes the top operand; an empty stack yields an empty operand. */
  method PopStack(stack: seq<string>) returns (top: string, rest: seq<string>)
    ensures top == Operands(stack, 1)[0] && rest == Popped(stack, 1)
  {
    if |stack| == 0 {
      return "", stack;
    }
    return stack[|stack| - 1], stack[..|stack| - 1];
  }

  method Reverse(args: seq<string>) returns (r: seq<string>)
    ensures |r| == |args| && forall k :: 0 <= k < |args| ==> r[k] == args[|args| - 1 - k]
  {
    r := args;
    var i, j := 0, |args| - 1;
    while i < j
      invariant 0 <= i && i + j == |args| - 1 && |r| == |args|
      invariant forall k :: 0 <= k < |args| && (k < i || j < k) ==> r[k] == args[|args| - 1 - k]
      invariant forall k :: i <= k <= j ==> r[k] == args[k]
    {
      r := r[i := r[j]][j := r[i]];
      i, j := i + 1, j - 1;
    }
  }

  /** Pops `n` operands, most recent first, and puts them back into source order. */
  method PopArgs(stack: seq<string>, n: nat) returns (args: seq<string>, rest: seq<string>)
    ensures args == Operands(stack, n) && rest == Popped(stack, n)
  {
    var popped: seq<string> := [];
    rest := stack;
    for i := 0 to n
      invariant |popped| == i && rest == Popped(stack, i)
      invariant forall k :: 0 <= k < i ==> popped[k] == if |stack| - 1 - k >= 0 then stack[|stack| - 1 - k] else ""
    {
      var top;
      top, rest := PopStack(rest);
      popped := popped + [top];
    }
    args := Reverse(popped);
  }

  method JoinStack(stack: seq<string>) returns (r: string)
    ensures r == Join(stack)
  {
    if |stack| == 1 {
      return stack[0];
    }
    r := "";
    for i := 0 to |stack|
      invariant r == Concatenated(stack[..i])
    {
      assert stack[..i + 1][..i] == stack[..i];
      r := r + stack[i];
    }
    assert stack[..|stack|] == stack;
    if |r| > MAX_TEXT {
      r := r[..MAX_TEXT];
    }
  }

  /** What a handler at `pos` did, compared with the machine's turn on the unread bytes. */
  ghost predicate Did(turn: Turn, data: seq<byte>, ok: bool, next: nat, stack: seq<string>) {
    turn == if ok then Next(stack, Drop(data, next)) else Stop
  }

  method FoldStr(data: seq<byte>, pos: nat, stack: seq<string>, d: Dialect)
    returns (ok: bool, next: nat, pushed: seq<string>)
    requires pos < |data|
    ensures Did(StrTurn(data[pos..], stack, d), data, ok, next, pushed)
  {
    if pos + 2 >= |data| {
      return false, pos, stack;
    }
    var wide := d.biff12 || data[pos + 2] == 1;
    var size: nat := data[pos + 1];
    if d.biff12 {
      size := 2 * (data[pos + 1] as int + 256 * data[pos + 2] as int);
    } else if wide {
      size := 2 * size;
    }
    if size > |data| - pos - 3 {
      return false, pos, stack;
    }
    var body := data[pos + 3..pos + 3 + size];
    assert body == data[pos..][3..3 + size];
    assert data[pos + 3 + size..] == data[pos..][3 + size..];
    return true, pos + 3 + size, Push(stack, if wide then d.utf16(body) else Chars(body));
  }

  method FoldRef(data: seq<byte>, pos: nat, stack: seq<string>, d: Dialect)
    returns (ok: bool, next: nat, pushed: seq<string>)
    requires pos < |data|
    ensures Did(RefTurn(data[pos..], stack, d), data, ok, next, pushed)
  {
    hide CellName, Placeholder;
    var size := if d.biff12 then 7 else 5;
    DropDrops(data, pos, size);
    if !d.refs {
      if d.biff12 && pos + size > |data| {
        return false, pos, stack;
      }
      return true, pos + size, Push(stack, "");
    }
    if pos + size > |data| {
      return false, pos, stack;
    }
    return true, pos + size, Push(stack, Placeholder(RefCell(data[pos..], d)));
  }

  lemma DropDrops(data: seq<byte>, pos: nat, n: nat)
    requires pos <= |data|
    ensures Drop(data[pos..], n) == Drop(data, pos + n)
  {
  }

  method FoldOperand(ptg: int, data: seq<byte>, pos: nat, stack: seq<string>, d: Dialect)
    returns (ok: bool, next: nat, pushed: seq<string>)
    requires pos < |data|
    ensures Did(OperandTurn(ptg, data[pos..], stack, d), data, ok, next, pushed)
  {
    hide Numeral, StrTurn, RefTurn, Push;
    ok, next, pushed := false, pos, stack;
    if ptg == PTG_STR {
      ok, next, pushed := FoldStr(data, pos, stack, d);
    } else if ptg == PTG_INT {
      if pos + 2 < |data| {
        DropDrops(data, pos, 3);
        return true, pos + 3, Push(stack, Numeral(data[pos + 1] as int + 256 * data[pos + 2] as int, 10));
      }
    } else if ptg == PTG_BOOL {
      if pos + 1 < |data| {
        DropDrops(data, pos, 2);
        return true, pos + 2, Push(stack, if data[pos + 1] != 0 then "TRUE" else "FALSE");
      }
    } else if ptg == PTG_NUM {
      if pos + 8 < |data| {
        DropDrops(data, pos, 9);
        return true, pos + 9, Push(stack, "");
      }
    } else if ptg == PTG_MISSING {
      DropDrops(data, pos, 1);
      return true, pos + 1, Push(stack, "");
    } else if ptg == PTG_REF {
      ok, next, pushed := FoldRef(data, pos, stack, d);
    } else if IsSkipped(ptg) {
      var size := SkipSize(ptg, d);
      DropDrops(data, pos, size);
      if IsUncheckedSkip(ptg) || !d.checked || pos + size <= |data| {
        return true, pos + size, Push(stack, "");
      }
    }
  }

  method SkipAttr(data: seq<byte>, pos: nat) returns (ok: bool, next: nat)
    requires pos < |data|
    ensures var b := data[pos..];
            ok == (|b| >= 4 && |b| >= AttrSize(b)) && (ok ==> next == pos + AttrSize(b))
  {
    if pos + 4 > |data| {
      return false, pos;
    }
    var skip := 4;
    if data[pos + 1] / 4 % 2 == 1 {
      skip := skip + (data[pos + 2] as int + 256 * data[pos + 3] as int + 1) * 2;
    }
    return pos + skip <= |data|, pos + skip;
  }

  method FoldCall(data: seq<byte>, pos: nat, stack: seq<string>, variadic: bool)
    returns (ok: bool, next: nat, pushed: seq<string>)
    requires pos < |data|
    ensures Did(OperatorTurn(if variadic then PTG_FUNC_VAR else PTG_FUNC, data[pos..], stack), data, ok, next, pushed)
  {
    hide WrapFunc, JoinArgs, Push, Operands, Popped;
    var args, rest;
    if !variadic {
      if pos + 2 >= |data| {
        return false, pos, stack;
      }
      var id := data[pos + 1] as int + 256 * data[pos + 2] as int;
      args, rest := PopArgs(stack, Arity(id));
      DropDrops(data, pos, 3);
      return true, pos + 3, Push(rest, WrapFunc(id, JoinArgs(args)));
    }
    if pos + 3 >= |data| {
      return false, pos, stack;
    }
    var argc: nat := data[pos + 1];
    var id := data[pos + 2] as int + 256 * data[pos + 3] as int;
    next := pos + 4;
    if id == FUNC_USER_DEFINED {
      next := next + 9;
    }
    if argc > MAX_ARGS {
      argc := MAX_ARGS;
    }
    args, rest := PopArgs(stack, argc);
    DropDrops(data, pos, next - pos);
    return true, next, Push(rest, WrapFunc(id, JoinArgs(args)));
  }

  method FoldOperator(ptg: int, data: seq<byte>, pos: nat, stack: seq<string>)
    returns (ok: bool, next: nat, pushed: seq<string>)
    requires pos < |data| && IsOperator(ptg)
    ensures Did(OperatorTurn(ptg, data[pos..], stack), data, ok, next, pushed)
  {
    hide WrapFunc, JoinArgs, Push, Popped;
    DropDrops(data, pos, 1);
    if ptg == PTG_FUNC || ptg == PTG_FUNC_VAR {
      ok, next, pushed := FoldCall(data, pos, stack, ptg == PTG_FUNC_VAR);
    } else if ptg == PTG_ATTR {
      pushed := stack;
      ok, next := SkipAttr(data, pos);
      if ok {
        DropDrops(data, pos, next - pos);
      }
    } else if ptg == PTG_PAREN {
      return true, pos + 1, stack;
    } else if IsUnary(ptg) {
      var v, rest := PopStack(stack);
      return true, pos + 1, Push(rest, v);
    } else {
      var args, rest := PopArgs(stack, 2);
      return true, pos + 1, Push(rest, if ptg == PTG_CONCAT then args[0] + args[1] else "");
    }
  }

  /** Folds a formula's token stream into text. */
  method FoldStream(data: seq<byte>, d: Dialect) returns (text: string)
    ensures text == Fold(data, d)
  {
    hide OperatorTurn, OperandTurn, Join, IsOperator, Opcode;
    var stack: seq<string> := [];
    var pos, tokens := 0, 0;
    while pos < |data| && tokens < MAX_TOKENS
      invariant 0 <= pos && 0 <= tokens
      invariant Exec(Drop(data, pos), stack, tokens, d) == Exec(data, [], 0, d)
      decreases MAX_TOKENS - tokens
    {
      var ptg := Opcode(data[pos]);
      var ok, next, pushed;
      if IsOperator(ptg) {
        ok, next, pushed := FoldOperator(ptg, data, pos, stack);
      } else {
        ok, next, pushed := FoldOperand(ptg, data, pos, stack, d);
      }
      if !ok {
        text := JoinStack(stack);
        return;
      }
      stack, pos, tokens := pushed, next, tokens + 1;
    }
    text := JoinStack(stack);
  }
}
