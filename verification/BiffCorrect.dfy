/** Folding is rendering: the compiler-correctness theorem of the formula folder. */
module BiffCorrect {
  import opened Basics
  import opened BiffText
  import opened BiffPtg
  import opened BiffFormula

  lemma OneTurn(b: seq<byte>, stack: seq<string>, tokens: nat, d: Dialect)
    requires b != [] && tokens < MAX_TOKENS && Dispatch(b, stack, d).Next?
    ensures var t := Dispatch(b, stack, d); Exec(b, stack, tokens, d) == Exec(t.unread, t.stack, tokens + 1, d)
  {
    hide Dispatch;
  }

  ghost predicate Ready(f: Formula, d: Dialect, stack: seq<string>, tokens: nat) {
    WellFormed(f, d) && Understood(f) && Fits(f, d, MAX_DEPTH - |stack|) && tokens + Tokens(f) <= MAX_TOKENS
  }

  ghost predicate ReadyArgs(f: Formula, args: seq<Formula>, d: Dialect, stack: seq<string>, tokens: nat) {
    && (forall i :: 0 <= i < |args| ==> args[i] < f && WellFormed(args[i], d) && Understood(args[i]))
    && (forall i :: 0 <= i < |args| ==> Fits(args[i], d, MAX_DEPTH - |stack| - i))
    && tokens + TokensOf(f, args) <= MAX_TOKENS
  }

  lemma AssociateFour<T>(a: seq<T>, b: seq<T>, c: seq<T>, d: seq<T>)
    ensures (a + b + c) + d == a + (b + (c + d))
  {
  }

  lemma Associate<T>(a: seq<T>, b: seq<T>, c: seq<T>)
    ensures (a + b) + c == a + (b + c)
  {
  }

  /** Running the encoding of a tree, whatever follows it and whatever is on the stack already, pushes
      exactly the tree's text. */
  lemma {:induction false} FoldsTree(f: Formula, d: Dialect, unread: seq<byte>, stack: seq<string>, tokens: nat)
    requires Ready(f, d, stack, tokens)
    ensures Exec(Encode(f, d) + unread, stack, tokens, d) == Exec(unread, stack + [Render(f, d)], tokens + Tokens(f), d)
    decreases f, 2
  {
    if IsLeaf(f) {
      FoldsLeaf(f, d, unread, stack, tokens);
    } else if f.Concat? || f.Binary? {
      FoldsPair(f, d, unread, stack, tokens);
    } else if f.Attr? {
      FoldsAttr(f, d, unread, stack, tokens);
    } else if f.Unary? || f.Paren? {
      FoldsWrapped(f, d, unread, stack, tokens);
    } else {
      FoldsCall(f, d, unread, stack, tokens);
    }
  }

  lemma {:induction false} FoldsLeaf(f: Formula, d: Dialect, unread: seq<byte>, stack: seq<string>, tokens: nat)
    requires IsLeaf(f) && Ready(f, d, stack, tokens)
    ensures Exec(Encode(f, d) + unread, stack, tokens, d) == Exec(unread, stack + [Render(f, d)], tokens + Tokens(f), d)
  {
    hide Exec, Dispatch, Token, TokenOk, Literal, Spells, Opcode;
    LeafTurn(f, d, unread, stack);
    OneTurn(Token(f, d) + unread, stack, tokens, d);
  }

  lemma {:induction false} FoldsPair(f: Formula, d: Dialect, unread: seq<byte>, stack: seq<string>, tokens: nat)
    requires (f.Concat? || f.Binary?) && Ready(f, d, stack, tokens)
    ensures Exec(Encode(f, d) + unread, stack, tokens, d) == Exec(unread, stack + [Render(f, d)], tokens + Tokens(f), d)
    decreases f, 1
  {
    hide Exec, Dispatch, Token, TokenOk, Spells, Opcode;
    var l, r := f.left, f.right;
    var last := Token(f, d) + unread;
    AssociateFour(Encode(l, d), Encode(r, d), Token(f, d), unread);
    FoldsTree(l, d, Encode(r, d) + last, stack, tokens);
    FoldsTree(r, d, last, stack + [Render(l, d)], tokens + Tokens(l));
    var args := [Render(l, d), Render(r, d)];
    assert stack + [Render(l, d)] + [Render(r, d)] == stack + args;
    OperatorTurnIs(f, d, unread, stack, args, Render(f, d));
    OneTurn(last, stack + args, tokens + Tokens(l) + Tokens(r), d);
  }

  lemma {:induction false} FoldsWrapped(f: Formula, d: Dialect, unread: seq<byte>, stack: seq<string>, tokens: nat)
    requires (f.Unary? || f.Paren?) && Ready(f, d, stack, tokens)
    ensures Exec(Encode(f, d) + unread, stack, tokens, d) == Exec(unread, stack + [Render(f, d)], tokens + Tokens(f), d)
    decreases f, 1
  {
    hide Exec, Dispatch, Token, TokenOk, Spells, Opcode;
    var last := Token(f, d) + unread;
    assert Encode(f, d) + unread == Encode(f.inner, d) + last;
    FoldsTree(f.inner, d, last, stack, tokens);
    OperatorTurnIs(f, d, unread, stack, [Render(f.inner, d)], Render(f, d));
    OneTurn(last, stack + [Render(f.inner, d)], tokens + Tokens(f.inner), d);
  }

  lemma {:induction false} FoldsAttr(f: Formula, d: Dialect, unread: seq<byte>, stack: seq<string>, tokens: nat)
    requires f.Attr? && Ready(f, d, stack, tokens)
    ensures Exec(Encode(f, d) + unread, stack, tokens, d) == Exec(unread, stack + [Render(f, d)], tokens + Tokens(f), d)
    decreases f, 1
  {
    hide Exec, Dispatch, Token, TokenOk, Spells, Opcode;
    var after := Encode(f.inner, d) + unread;
    assert Encode(f, d) + unread == Token(f, d) + after;
    AttrTurnIs(f, d, after, stack);
    OneTurn(Token(f, d) + after, stack, tokens, d);
    FoldsTree(f.inner, d, unread, stack, tokens + 1);
  }

  lemma {:induction false} FoldsCall(f: Formula, d: Dialect, unread: seq<byte>, stack: seq<string>, tokens: nat)
    requires (f.Call? || f.CallVar?) && Ready(f, d, stack, tokens)
    ensures Exec(Encode(f, d) + unread, stack, tokens, d) == Exec(unread, stack + [Render(f, d)], tokens + Tokens(f), d)
    decreases f, 1
  {
    hide Exec, Dispatch, Token, TokenOk, Spells, Opcode, WrapFunc, JoinArgs;
    var last := Token(f, d) + unread;
    assert Encode(f, d) + unread == EncodeArgs(f, f.args, d) + last;
    FoldsArgs(f, f.args, d, last, stack, tokens);
    OperatorTurnIs(f, d, unread, stack, RenderArgs(f, f.args, d), Render(f, d));
    OneTurn(last, stack + RenderArgs(f, f.args, d), tokens + TokensOf(f, f.args), d);
  }

  lemma {:induction false} FoldsArgs(f: Formula, args: seq<Formula>, d: Dialect, unread: seq<byte>, stack: seq<string>,
                                     tokens: nat)
    requires ReadyArgs(f, args, d, stack, tokens)
    ensures Exec(EncodeArgs(f, args, d) + unread, stack, tokens, d)
         == Exec(unread, stack + RenderArgs(f, args, d), tokens + TokensOf(f, args), d)
    decreases f, 0, |args|
  {
    hide Exec, Dispatch, Token, Encode, Render, WellFormed, Understood, Fits, Tokens;
    if args == [] {
      assert EncodeArgs(f, args, d) + unread == unread;
      assert stack + RenderArgs(f, args, d) == stack;
    } else {
      var front, last := args[..|args| - 1], args[|args| - 1];
      var after := Encode(last, d) + unread;
      Associate(EncodeArgs(f, front, d), Encode(last, d), unread);
      FoldsArgs(f, front, d, after, stack, tokens);
      var mid := stack + RenderArgs(f, front, d);
      FoldsTree(last, d, unread, mid, tokens + TokensOf(f, front));
      Associate(stack, RenderArgs(f, front, d), [Render(last, d)]);
    }
  }

  /** What a call of 65 to 255 arguments leaves: all but its last 64 arguments stay behind as operands of whatever is
      around it, and the call is made of the last 64. */
  lemma {:induction false} LongCallFolds(f: Formula, d: Dialect, unread: seq<byte>, stack: seq<string>, tokens: nat)
    requires f.CallVar? && WellFormed(f, d) && Understood(f) && MAX_ARGS < |f.args| && tokens + Tokens(f) <= MAX_TOKENS
    requires forall i :: 0 <= i < |f.args| ==> Fits(f.args[i], d, MAX_DEPTH - |stack| - i)
    requires |WrapFunc(f.id, JoinArgs(RenderArgs(f, f.args, d)[|f.args| - MAX_ARGS..]))| <= MAX_TEXT
    ensures var texts := RenderArgs(f, f.args, d);
            var call := WrapFunc(f.id, JoinArgs(texts[|texts| - MAX_ARGS..]));
            Exec(Encode(f, d) + unread, stack, tokens, d)
            == Exec(unread, stack + (texts[..|texts| - MAX_ARGS] + [call]), tokens + Tokens(f), d)
  {
    hide Exec, Dispatch, Token, TokenOk, Spells, Opcode, WrapFunc, JoinArgs;
    var last := Token(f, d) + unread;
    assert Encode(f, d) + unread == EncodeArgs(f, f.args, d) + last;
    FoldsArgs(f, f.args, d, last, stack, tokens);
    var texts := RenderArgs(f, f.args, d);
    var behind, args := texts[..|texts| - MAX_ARGS], texts[|texts| - MAX_ARGS..];
    assert texts == behind + args;
    Associate(stack, behind, args);
    RoomForLast(f.args, d, |stack|);
    LongCallTurn(f, d, unread, stack + behind, args);
    OneTurn(last, stack + behind + args, tokens + TokensOf(f, f.args), d);
    Associate(stack, behind, [WrapFunc(f.id, JoinArgs(args))]);
  }

  lemma RoomForLast(args: seq<Formula>, d: Dialect, used: nat)
    requires args != [] && forall i :: 0 <= i < |args| ==>
             WellFormed(args[i], d) && Fits(args[i], d, MAX_DEPTH - used - i)
    ensures used + |args| <= MAX_DEPTH
  {
    var last := |args| - 1;
    assert Fits(args[last], d, MAX_DEPTH - used - last);
  }

  /** For every formula within the caps, in every dialect and for every spelling that the folder
      recognises, folding the encoding gives exactly the text that the formula stands for. */
  lemma {:induction false} FoldIsRender(f: Formula, d: Dialect)
    requires WellFormed(f, d) && Understood(f) && Fits(f, d, MAX_DEPTH) && Tokens(f) <= MAX_TOKENS
    ensures Fold(Encode(f, d), d) == Render(f, d)
    ensures Exec(Encode(f, d), [], 0, d).unread == 0
  {
    hide Encode, Render, Fits, Understood, WellFormed, Tokens, Dispatch;
    FoldsTree(f, d, [], [], 0);
    assert Encode(f, d) + [] == Encode(f, d);
    assert [] + [Render(f, d)] == [Render(f, d)];
  }

  /* ---------------------------------------------------------------- spellings that stop the fold */

  /** The variants that the format allows and the folder does not know. */
  predicate Unknown(op: byte, base: int) {
    || (base == PTG_MEM_AREA && op % 128 != base)
    || ((base == PTG_NAME_X || base == PTG_REF_3D || base == PTG_AREA_3D) && op % 128 == base + 0x40)
  }

  /** An opcode byte is mapped to the opcode it spells unless it is a class variant of a memory area or the
      array-class variant of an external name, a 3-D reference or a 3-D area; such a byte ends the fold. */
  lemma {:induction false} UnknownSpellings(op: byte, base: int, tail: seq<byte>, stack: seq<string>, d: Dialect)
    requires Spells(op, base) && (IsOperator(base) || IsOperand(base))
    ensures Opcode(op) == base <==> !Unknown(op, base)
    ensures Unknown(op, base) ==> Dispatch([op] + tail, stack, d) == Stop
  {
  }

  /** The operands that the tree has left on the stack when the fold stops at its first unknown spelling. */
  function Residue(f: Formula, d: Dialect): seq<string>
    requires WellFormed(f, d) && !Understood(f)
    decreases f, 1
  {
    match f
    case Concat(_, left, right) => ResidueOfPair(f, left, right, d)
    case Binary(_, left, right) => ResidueOfPair(f, left, right, d)
    case Unary(_, inner) => if Understood(inner) then [Render(inner, d)] else Residue(inner, d)
    case Paren(_, inner) => if Understood(inner) then [Render(inner, d)] else Residue(inner, d)
    case Attr(_, _, inner) => if Understood(inner) then [] else Residue(inner, d)
    case Call(_, _, args) => ResidueOfArgs(f, args, d)
    case CallVar(_, _, args, _) => ResidueOfArgs(f, args, d)
    case _ => []
  }

  function ResidueOfPair(f: Formula, left: Formula, right: Formula, d: Dialect): seq<string>
    requires left < f && right < f && WellFormed(left, d) && WellFormed(right, d)
    decreases f, 0, 0
  {
    if !Understood(left) then Residue(left, d)
    else if !Understood(right) then [Render(left, d)] + Residue(right, d)
    else [Render(left, d), Render(right, d)]
  }

  /** The arguments up to the first one with an unknown spelling, and what is left of that one. */
  function ResidueOfArgs(f: Formula, args: seq<Formula>, d: Dialect): seq<string>
    requires forall i :: 0 <= i < |args| ==> args[i] < f && WellFormed(args[i], d)
    decreases f, 0, |args|
  {
    if args == [] then []
    else
      var front, last := args[..|args| - 1], args[|args| - 1];
      if exists i :: 0 <= i < |front| && !Understood(front[i]) then ResidueOfArgs(f, front, d)
      else RenderArgs(f, front, d) + if Understood(last) then [Render(last, d)] else Residue(last, d)
  }

  lemma ResidueOfFirst(f: Formula, args: seq<Formula>, d: Dialect)
    requires args != [] && forall i :: 0 <= i < |args| ==> args[i] < f && WellFormed(args[i], d)
    ensures var front, last := args[..|args| - 1], args[|args| - 1];
            if exists i :: 0 <= i < |front| && !Understood(front[i])
            then ResidueOfArgs(f, args, d) == ResidueOfArgs(f, front, d)
            else !Understood(last) ==> ResidueOfArgs(f, args, d) == RenderArgs(f, front, d) + Residue(last, d)
  {
    hide Residue, Render, WellFormed, Understood;
  }

  lemma {:induction false} StopsHere(f: Formula, d: Dialect, after: seq<byte>, unread: seq<byte>, stack: seq<string>,
                                     tokens: nat)
    requires TokenOk(f, d) && Spells(f.op, Base(f)) && Opcode(f.op) != Base(f) && |after| >= |unread|
    ensures Exec(Token(f, d) + after, stack, tokens, d).unread > |unread|
    ensures Exec(Token(f, d) + after, stack, tokens, d).stack == stack
  {
    var b := Token(f, d) + after;
    assert b == [f.op] + b[1..];
    UnknownSpellings(f.op, Base(f), b[1..], stack, d);
  }

  ghost predicate Fitting(f: Formula, d: Dialect, stack: seq<string>, tokens: nat) {
    WellFormed(f, d) && Fits(f, d, MAX_DEPTH - |stack|) && tokens + Tokens(f) <= MAX_TOKENS
  }

  /** A tree with an unknown spelling is never read to its end, and leaves exactly its residue. */
  lemma {:induction false} StopsInTree(f: Formula, d: Dialect, unread: seq<byte>, stack: seq<string>, tokens: nat)
    requires Fitting(f, d, stack, tokens) && !Understood(f)
    ensures Exec(Encode(f, d) + unread, stack, tokens, d).unread > |unread|
    ensures Exec(Encode(f, d) + unread, stack, tokens, d).stack == stack + Residue(f, d)
    decreases f, 2
  {
    if IsLeaf(f) {
      hide Exec, Token, TokenOk, Literal, Spells, Opcode;
      StopsHere(f, d, unread, unread, stack, tokens);
    } else if f.Concat? || f.Binary? {
      StopsInPair(f, d, unread, stack, tokens);
    } else if f.Call? || f.CallVar? {
      StopsInCall(f, d, unread, stack, tokens);
    } else {
      StopsInWrapped(f, d, unread, stack, tokens);
    }
  }

  lemma {:induction false} StopsInPair(f: Formula, d: Dialect, unread: seq<byte>, stack: seq<string>, tokens: nat)
    requires (f.Concat? || f.Binary?) && Fitting(f, d, stack, tokens) && !Understood(f)
    ensures Exec(Encode(f, d) + unread, stack, tokens, d).unread > |unread|
    ensures Exec(Encode(f, d) + unread, stack, tokens, d).stack == stack + Residue(f, d)
    decreases f, 1
  {
    hide Exec, Dispatch, Token, TokenOk, Spells, Opcode;
    var l, r := f.left, f.right;
    var last := Token(f, d) + unread;
    AssociateFour(Encode(l, d), Encode(r, d), Token(f, d), unread);
    if !Understood(l) {
      StopsInTree(l, d, Encode(r, d) + last, stack, tokens);
    } else {
      FoldsTree(l, d, Encode(r, d) + last, stack, tokens);
      var next := stack + [Render(l, d)];
      if !Understood(r) {
        StopsInTree(r, d, last, next, tokens + Tokens(l));
      } else {
        FoldsTree(r, d, last, next, tokens + Tokens(l));
        StopsHere(f, d, unread, unread, next + [Render(r, d)], tokens + Tokens(l) + Tokens(r));
      }
    }
  }

  lemma WrapsAreSpelledPlainly(f: Formula, d: Dialect)
    requires (f.Unary? || f.Paren? || f.Attr?) && WellFormed(f, d)
    ensures Opcode(f.op) == Base(f)
  {
  }

  lemma {:induction false} StopsInWrapped(f: Formula, d: Dialect, unread: seq<byte>, stack: seq<string>, tokens: nat)
    requires (f.Unary? || f.Paren? || f.Attr?) && Fitting(f, d, stack, tokens) && !Understood(f)
    ensures Exec(Encode(f, d) + unread, stack, tokens, d).unread > |unread|
    ensures Exec(Encode(f, d) + unread, stack, tokens, d).stack == stack + Residue(f, d)
    decreases f, 1
  {
    hide Exec, Dispatch, Token, TokenOk, Spells, Opcode;
    WrapsAreSpelledPlainly(f, d);
    var last := Token(f, d) + unread;
    var after := Encode(f.inner, d) + unread;
    if f.Attr? {
      assert Encode(f, d) + unread == Token(f, d) + after;
      AttrTurnIs(f, d, after, stack);
      OneTurn(Token(f, d) + after, stack, tokens, d);
      StopsInTree(f.inner, d, unread, stack, tokens + 1);
    } else {
      assert Encode(f, d) + unread == Encode(f.inner, d) + last;
      StopsInTree(f.inner, d, last, stack, tokens);
    }
  }

  lemma {:induction false} StopsInCall(f: Formula, d: Dialect, unread: seq<byte>, stack: seq<string>, tokens: nat)
    requires (f.Call? || f.CallVar?) && Fitting(f, d, stack, tokens) && !Understood(f)
    ensures Exec(Encode(f, d) + unread, stack, tokens, d).unread > |unread|
    ensures Exec(Encode(f, d) + unread, stack, tokens, d).stack == stack + Residue(f, d)
    decreases f, 1
  {
    hide Exec, Dispatch, Token, TokenOk;
    var last := Token(f, d) + unread;
    assert Encode(f, d) + unread == EncodeArgs(f, f.args, d) + last;
    StopsInArgs(f, f.args, d, last, stack, tokens);
  }

  lemma {:induction false} StopsInArgs(f: Formula, args: seq<Formula>, d: Dialect, unread: seq<byte>,
                                       stack: seq<string>, tokens: nat)
    requires forall i :: 0 <= i < |args| ==> args[i] < f && WellFormed(args[i], d)
    requires forall i :: 0 <= i < |args| ==> Fits(args[i], d, MAX_DEPTH - |stack| - i)
    requires tokens + TokensOf(f, args) <= MAX_TOKENS
    requires exists i :: 0 <= i < |args| && !Understood(args[i])
    ensures Exec(EncodeArgs(f, args, d) + unread, stack, tokens, d).unread > |unread|
    ensures Exec(EncodeArgs(f, args, d) + unread, stack, tokens, d).stack == stack + ResidueOfArgs(f, args, d)
    decreases f, 0, |args|
  {
    hide Exec, Dispatch, Token, Encode, Render, WellFormed, Understood, Fits, Tokens, Residue, ResidueOfArgs;
    var front, last := args[..|args| - 1], args[|args| - 1];
    var after := Encode(last, d) + unread;
    Associate(EncodeArgs(f, front, d), Encode(last, d), unread);
    ResidueOfFirst(f, args, d);
    if exists i :: 0 <= i < |front| && !Understood(front[i]) {
      StopsInArgs(f, front, d, after, stack, tokens);
    } else {
      assert !Understood(last);
      FoldsArgs(f, front, d, after, stack, tokens);
      StopsInTree(last, d, unread, stack + RenderArgs(f, front, d), tokens + TokensOf(f, front));
      Associate(stack, RenderArgs(f, front, d), Residue(last, d));
    }
  }

  /** The folder reads a formula to its end exactly when it knows every spelling in it. */
  lemma {:induction false} ReadToTheEnd(f: Formula, d: Dialect)
    requires WellFormed(f, d) && Fits(f, d, MAX_DEPTH) && Tokens(f) <= MAX_TOKENS
    ensures Exec(Encode(f, d), [], 0, d).unread == 0 <==> Understood(f)
  {
    hide Encode, Render, Fits, Understood, WellFormed, Tokens, Dispatch;
    assert Encode(f, d) + [] == Encode(f, d);
    if Understood(f) {
      FoldIsRender(f, d);
    } else {
      StopsInTree(f, d, [], [], 0);
    }
  }

  /** What folding gives for every formula within the caps, known spellings or not; so the text is right exactly
      when every spelling is known, or when the operands before the first unknown one happen to be the text. */
  lemma {:induction false} FoldExactly(f: Formula, d: Dialect)
    requires WellFormed(f, d) && Fits(f, d, MAX_DEPTH) && Tokens(f) <= MAX_TOKENS
    ensures Fold(Encode(f, d), d) == if Understood(f) then Render(f, d) else Join(Residue(f, d))
    ensures Fold(Encode(f, d), d) == Render(f, d) <==> Understood(f) || Join(Residue(f, d)) == Render(f, d)
  {
    hide Encode, Render, Fits, Understood, WellFormed, Tokens, Dispatch, Join, Residue;
    if Understood(f) {
      FoldIsRender(f, d);
    } else {
      StopsInTree(f, d, [], [], 0);
      assert Encode(f, d) + [] == Encode(f, d);
      assert [] + Residue(f, d) == Residue(f, d);
    }
  }

  /** `EXEC` of a 3-D cell, spelled with the array-class reference. */
  function HiddenExec(d: Dialect): Formula {
    CallVar(0x22, 110, [Skipped(0x7A, PTG_REF_3D, seq(SkipSize(PTG_REF_3D, d) - 1, _ => 0))], [])
  }

  lemma HiddenExecIs(d: Dialect)
    ensures WellFormed(HiddenExec(d), d) && Fits(HiddenExec(d), d, MAX_DEPTH) && Render(HiddenExec(d), d) == "=EXEC()"
  {
    var f := HiddenExec(d);
    var arg := f.args[0];
    HiddenArgIs(d);
    ExecIs();
    hide WrapFunc, Spells;
    assert f.args == [arg] && f.args[..0] == [];
    assert RenderArgs(f, f.args, d) == [""];
    assert Spells(0x22, PTG_FUNC_VAR) by { PlainCall(); }
  }

  lemma PlainCall()
    ensures Spells(0x22, PTG_FUNC_VAR)
  {
  }

  lemma ExecIs()
    ensures WrapFunc(110, "") == "=EXEC()"
  {
  }

  lemma HiddenArgIs(d: Dialect)
    ensures var arg := HiddenExec(d).args[0];
            WellFormed(arg, d) && Render(arg, d) == "" && forall room :: room >= 1 ==> Fits(arg, d, room)
  {
  }

  lemma HiddenExecStarts(d: Dialect)
    requires WellFormed(HiddenExec(d), d)
    ensures |Encode(HiddenExec(d), d)| > 0 && Encode(HiddenExec(d), d)[0] == 0x7A
  {
    var f := HiddenExec(d);
    assert f.args[..0] == [] && EncodeArgs(f, f.args[..0], d) == [];
    assert EncodeArgs(f, f.args, d) == Encode(f.args[0], d);
  }

  /** An unknown spelling costs more than its own operand: the call around it is never rendered, in any dialect. */
  lemma {:induction false} UnknownSpellingHidesCall(d: Dialect)
    ensures WellFormed(HiddenExec(d), d) && Fits(HiddenExec(d), d, MAX_DEPTH)
    ensures Render(HiddenExec(d), d) == "=EXEC()" && Fold(Encode(HiddenExec(d), d), d) == ""
  {
    hide HiddenExec, Encode, Render, WellFormed, Fits, Dispatch;
    HiddenExecIs(d);
    HiddenExecStarts(d);
    var b := Encode(HiddenExec(d), d);
    assert b == [0x7A] + b[1..];
    UnknownSpellings(0x7A, PTG_REF_3D, b[1..], [], d);
  }

  /* ---------------------------------------------------------------- reassembled strings */

  predicate Printable(w: string) {
    forall i :: 0 <= i < |w| ==> PrintableCode(w[i] as int)
  }

  function CharCall(c: char): Formula {
    Call(0x41, FUNC_CHAR, [Int(0x1E, c as nat)])
  }

  /** A string spelled as concatenated `CHAR` calls. */
  function CharChain(w: string): Formula
    requires w != []
  {
    if |w| == 1 then CharCall(w[0]) else Concat(0x08, CharChain(w[..|w| - 1]), CharCall(w[|w| - 1]))
  }

  lemma CharCallIs(c: char, d: Dialect, room: int)
    requires PrintableCode(c as int) && room >= 1
    ensures WellFormed(CharCall(c), d) && Understood(CharCall(c)) && Fits(CharCall(c), d, room)
    ensures Render(CharCall(c), d) == [c] && Tokens(CharCall(c)) == 2
  {
    hide Numeral, FoldChar;
    var f := CharCall(c);
    var args := f.args;
    assert args[..0] == [] && TokensOf(f, args[..0]) == 0 && Tokens(args[0]) == 1;
    assert TokensOf(f, args) == 1;
    assert Render(args[0], d) == Numeral(c as nat, 10);
    assert RenderArgs(f, args, d) == [Numeral(c as nat, 10)];
    CharOfNumeral(c as nat);
    NumeralIsShort(c as nat);
  }

  lemma NumeralIsShort(n: nat)
    requires n < 1000
    ensures |Numeral(n, 10)| <= 3
  {
    if n >= 100 {
      assert n / 10 / 10 < 10;
      assert Numeral(n / 10, 10) == Numeral(n / 10 / 10, 10) + [Digit(n / 10 % 10)];
    }
  }

  /** Two formulas under one `&`. */
  lemma ConcatIs(l: Formula, r: Formula, d: Dialect, room: int)
    requires WellFormed(l, d) && Understood(l) && Fits(l, d, room)
    requires WellFormed(r, d) && Understood(r) && Fits(r, d, room - 1)
    requires |Render(l, d) + Render(r, d)| <= MAX_TEXT
    ensures var f := Concat(0x08, l, r);
            && WellFormed(f, d) && Understood(f) && Fits(f, d, room)
            && Render(f, d) == Render(l, d) + Render(r, d) && Tokens(f) == Tokens(l) + Tokens(r) + 1
  {
  }

  lemma {:induction false} CharChainIs(w: string, d: Dialect, room: int)
    requires w != [] && Printable(w) && |w| <= MAX_TEXT && room >= 2
    ensures WellFormed(CharChain(w), d) && Understood(CharChain(w)) && Fits(CharChain(w), d, room)
    ensures Render(CharChain(w), d) == w && Tokens(CharChain(w)) == 3 * |w| - 1
  {
    hide CharCall, WellFormed, Understood, Fits, Render, Tokens;
    if |w| == 1 {
      CharCallIs(w[0], d, room);
      assert [w[0]] == w;
    } else {
      var front, last := w[..|w| - 1], w[|w| - 1];
      CharChainIs(front, d, room);
      CharCallIs(last, d, room - 1);
      assert front + [last] == w;
      ConcatIs(CharChain(front), CharCall(last), d, room);
    }
  }

  /** What the folder is for: a printable string hidden as `CHAR(..)&CHAR(..)&..` is read back exactly. */
  lemma HiddenStringIsRestored(w: string, d: Dialect)
    requires w != [] && Printable(w) && 3 * |w| - 1 <= MAX_TOKENS
    ensures WellFormed(CharChain(w), d) && Fold(Encode(CharChain(w), d), d) == w
  {
    hide CharChain, Encode, Fold;
    CharChainIs(w, d, MAX_DEPTH);
    FoldIsRender(CharChain(w), d);
  }
}
