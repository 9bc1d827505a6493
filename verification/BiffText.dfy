/** The text a folded formula is made of.  A Go string is modelled byte by byte: one `char` a byte. */
module BiffText {
  import opened Basics

  predicate AllDigits(s: string) {
    forall i :: 0 <= i < |s| ==> IsDigit(s[i])
  }

  function DecimalValue(s: string): nat
    requires AllDigits(s)
  {
    if s == [] then 0 else DecimalValue(s[..|s| - 1]) * 10 + (s[|s| - 1] - '0') as nat
  }

  /** White space as trimming sees it; unlike a regular expression it includes the vertical tab. */
  predicate IsTrimmed(c: char) {
    c == ' ' || '\t' <= c <= '\r'
  }

  function TrimLeft(s: string): string {
    if s != [] && IsTrimmed(s[0]) then TrimLeft(s[1..]) else s
  }

  function TrimRight(s: string): string {
    if s != [] && IsTrimmed(s[|s| - 1]) then TrimRight(s[..|s| - 1]) else s
  }

  /** A signed decimal integer, as a whole. */
  function ParseInt(s: string): Option<int> {
    var digits := if s != [] && (s[0] == '+' || s[0] == '-') then s[1..] else s;
    if digits == [] || !AllDigits(digits) then None
    else Some(if s[0] == '-' then 0 - DecimalValue(digits) as int else DecimalValue(digits) as int)
  }

  predicate PrintableCode(n: int) {
    32 <= n <= 127 || n == 9 || n == 10 || n == 13
  }

  /** The character that a `CHAR` call stands for, when its argument is a literal printable code. */
  function FoldChar(args: string): Option<string> {
    match ParseInt(TrimRight(TrimLeft(args)))
    case None => None
    case Some(n) => if PrintableCode(n) then Some([n as char]) else None
  }

  const FUNC_CHAR := 111
  const FUNC_USER_DEFINED := 0x806D

  const NAMES: map<nat, string> := map[
    31 := "MID", 53 := "GOTO", 54 := "HALT", 108 := "SET.VALUE", 110 := "EXEC", 111 := "CHAR", 132 := "FOPEN",
    137 := "FWRITELN", 138 := "FWRITE", 149 := "REGISTER", 150 := "CALL", 175 := "INITIATE", 177 := "POKE",
    178 := "EXECUTE", 179 := "TERMINATE", 201 := "UNREGISTER", 267 := "REGISTER.ID", 336 := "CONCATENATE",
    32769 := "OPEN", 32774 := "FILE.DELETE", 32778 := "QUIT", 32785 := "RUN", 32864 := "FORMULA",
    32893 := "APP.ACTIVATE", 32899 := "SEND.KEYS", 33151 := "WORKBOOK.HIDE"]

  const ARITY: map<nat, nat> := map[30 := 2, 31 := 3, 39 := 2, 65 := 3, 66 := 3, 117 := 2, 119 := 4]

  function Arity(id: nat): nat {
    if id in ARITY then ARITY[id] else 1
  }

  function WrapFunc(id: nat, args: string): string {
    if id == FUNC_CHAR && FoldChar(args).Some? then FoldChar(args).value
    else if id in NAMES then "=" + NAMES[id] + "(" + args + ")"
    else "FUNC_" + Numeral(id, 16) + "(" + args + ")"
  }

  function Letters(n: nat): string {
    if n == 0 then [] else Letters((n - 1) / 26) + ['A' + ((n - 1) % 26) as char]
  }

  /** `A1` notation of a 0-based cell; the two high bits of the column are flags.  Empty when out of range. */
  function CellName(row: nat, col: nat): string {
    if row > 1_048_575 then "" else Letters(col % 0x4000 + 1) + Numeral(row + 1, 10)
  }

  function Placeholder(cell: string): string {
    if cell == "" then "" else "[[REF:" + cell + "]]"
  }

  /* ---------------------------------------------------------------- facts */

  lemma {:induction false} NumeralReadsBack(n: nat)
    ensures AllDigits(Numeral(n, 10)) && DecimalValue(Numeral(n, 10)) == n
  {
    if n < 10 {
      assert Numeral(n, 10)[..0] == [];
    } else {
      NumeralReadsBack(n / 10);
      var s := Numeral(n, 10);
      assert s[..|s| - 1] == Numeral(n / 10, 10);
    }
  }

  /** A decimal literal folds to its character exactly when its code is printable. */
  lemma CharOfNumeral(n: nat)
    ensures FoldChar(Numeral(n, 10)) == if PrintableCode(n) then Some([n as char]) else None
  {
    NumeralReadsBack(n);
    var s := Numeral(n, 10);
    assert IsDigit(s[0]) && IsDigit(s[|s| - 1]);
  }
}
