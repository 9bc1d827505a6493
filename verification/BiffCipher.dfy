/** The record-aware stream decryptors for legacy workbooks, byte offset by byte offset. */
module BiffCipher {
  import opened Basics

  const MAX_OUT: nat := 8388608
  const BLOCK: nat := 1024

  function Word(w: seq<bv8>, i: nat): nat
    requires i + 2 <= |w|
  {
    w[i] as int + 256 * w[i + 1] as int
  }

  /** Record types whose bodies are never encrypted. */
  predicate ClearType(t: nat) {
    t == 0x0809 || t == 0x002F || t == 0x0194 || t == 0x01A7 || t == 0x00E1 || t == 0x0196 || t == 0x0138
  }

  const BOUND_SHEET: nat := 0x0085

  /* ---------------------------------------------------------------- framing */

  predicate WholeRecord(w: seq<bv8>, off: nat) {
    off + 4 <= |w| && off + 4 + Word(w, off + 2) <= |w|
  }

  function RecordEnd(w: seq<bv8>, off: nat): nat
    requires off + 4 <= |w|
  {
    off + 4 + Word(w, off + 2)
  }

  /** Where the complete records end. */
  function Complete(w: seq<bv8>, off: nat): nat
    decreases |w| - off
  {
    if WholeRecord(w, off) then Complete(w, RecordEnd(w, off)) else off
  }

  /** The header, a clear body, and the first four bytes of a sheet record's body. */
  predicate ClearInRecord(w: seq<bv8>, off: nat, p: nat)
    requires off + 4 <= |w|
  {
    p < off + 4 || ClearType(Word(w, off)) || (Word(w, off) == BOUND_SHEET && Word(w, off + 2) >= 4 && p < off + 8)
  }

  /** Whether the byte at `p` is clear, for records from `off` on; an incomplete record is clear. */
  predicate Clear(w: seq<bv8>, off: nat, p: nat)
    decreases |w| - off
  {
    if !WholeRecord(w, off) then true
    else if p < RecordEnd(w, off) then ClearInRecord(w, off, p)
    else Clear(w, RecordEnd(w, off), p)
  }

  /** The first `n` bytes of `w`, with `f` applied to those that are not clear. */
  function Transform(w: seq<bv8>, n: nat, f: (nat, bv8) -> bv8): seq<bv8>
    requires n <= |w|
  {
    seq(n, p requires 0 <= p < n => if Clear(w, 0, p) then w[p] else f(p, w[p]))
  }

  lemma {:induction false} CompleteIsWithin(w: seq<bv8>, off: nat)
    requires off <= |w|
    ensures off <= Complete(w, off) <= |w|
    decreases |w| - off
  {
    if WholeRecord(w, off) {
      CompleteIsWithin(w, RecordEnd(w, off));
    }
  }

  /** Bytes that agree on the clear positions of a record agree on its header. */
  lemma SameHeader(w: seq<bv8>, d: seq<bv8>, off: nat)
    requires off + 4 <= |w| && off + 4 <= |d| && w[off..off + 4] == d[off..off + 4]
    ensures Word(d, off) == Word(w, off) && Word(d, off + 2) == Word(w, off + 2)
  {
    assert w[off] == w[off..off + 4][0] == d[off] && w[off + 1] == w[off..off + 4][1] == d[off + 1];
    assert w[off + 2] == w[off..off + 4][2] == d[off + 2] && w[off + 3] == w[off..off + 4][3] == d[off + 3];
  }

  ghost predicate AgreeOnClear(w: seq<bv8>, d: seq<bv8>, off: nat, n: nat) {
    n <= |w| && n <= |d| && forall p :: off <= p < n && Clear(w, off, p) ==> d[p] == w[p]
  }

  lemma AgreeOnNextRecord(w: seq<bv8>, d: seq<bv8>, off: nat, n: nat)
    requires WholeRecord(w, off) && RecordEnd(w, off) <= n && AgreeOnClear(w, d, off, n)
    ensures w[off..off + 4] == d[off..off + 4] && AgreeOnClear(w, d, RecordEnd(w, off), n)
  {
    forall p | off <= p < off + 4 ensures d[p] == w[p] {
      assert Clear(w, off, p);
    }
  }

  /** Decryption keeps the framing: the same records end at the same places and the same bytes are clear. */
  lemma {:induction false} FramingKept(w: seq<bv8>, d: seq<bv8>, off: nat)
    requires off <= |w| && |d| == Complete(w, off) <= |w| && AgreeOnClear(w, d, off, |d|)
    ensures Complete(d, off) == |d| && forall p :: off <= p < |d| ==> Clear(d, off, p) == Clear(w, off, p)
    decreases |w| - off
  {
    hide Word;
    if WholeRecord(w, off) {
      CompleteIsWithin(w, RecordEnd(w, off));
      AgreeOnNextRecord(w, d, off, |d|);
      SameHeader(w, d, off);
      FramingKept(w, d, RecordEnd(w, off));
    }
  }

  /* ---------------------------------------------------------------- RC4 */

  /** Byte `i` of the keystream of block `b`. */
  type KeyStream = (nat, nat) -> bv8

  function Keyed(key: KeyStream): (nat, bv8) -> bv8 {
    (p: nat, b: bv8) => b ^ key(p / BLOCK, p % BLOCK)
  }

  /** The complete records of the capped stream: clear bytes as they are, every other byte with the
      keystream byte of its absolute offset. */
  function Rc4Decrypted(w: seq<bv8>, key: KeyStream): seq<bv8> {
    CompleteIsWithin(Clamped(w, MAX_OUT), 0);
    Transform(Clamped(w, MAX_OUT), Complete(Clamped(w, MAX_OUT), 0), Keyed(key))
  }

  /** Decryption twice gives back the complete records. */
  lemma Rc4IsAnInvolution(w: seq<bv8>, key: KeyStream)
    ensures var n := Complete(Clamped(w, MAX_OUT), 0);
            && n <= |Clamped(w, MAX_OUT)| && |Rc4Decrypted(w, key)| == n && Complete(Rc4Decrypted(w, key), 0) == n
            && Rc4Decrypted(Rc4Decrypted(w, key), key) == Clamped(w, MAX_OUT)[..n]
  {
    var c := Clamped(w, MAX_OUT);
    CompleteIsWithin(c, 0);
    var d := Rc4Decrypted(w, key);
    FramingKept(c, d, 0);
    assert Clamped(d, MAX_OUT) == d;
    var dd := Rc4Decrypted(d, key);
    forall p | 0 <= p < |d| ensures dd[p] == c[p] {
      var k := key(p / BLOCK, p % BLOCK);
      XorTwice(c[p], k);
    }
  }

  lemma XorTwice(b: bv8, k: bv8)
    ensures b ^ k ^ k == b
  {
  }

  /* ---------------------------------------------------------------- XOR obfuscation */

  function Ror5(b: bv8): bv8 {
    (b >> 5) | (b << 3)
  }

  function Rol5(b: bv8): bv8 {
    (b << 5) | (b >> 3)
  }

  lemma RotationsCancel(b: bv8)
    ensures Ror5(Rol5(b)) == b && Rol5(Ror5(b)) == b
  {
  }

  /** A rotation to the right by five: the low five bits move up, the high three come down. */
  lemma Ror5Is(b: bv8)
    ensures Ror5(b) as int == b as int / 32 + b as int % 32 * 8
  {
    var high, low := b >> 5, b & 31;
    assert b == (high << 5) + low && high < 8 && low < 32;
    assert Ror5(b) == high + (low << 3);
    assert high as int == b as int / 32 && low as int == b as int % 32;
    assert (low << 3) as int == low as int * 8;
  }

  function UnmaskByte(b: bv8, k: bv8): bv8 {
    Ror5(b ^ k)
  }

  function MaskByte(b: bv8, k: bv8): bv8 {
    Rol5(b) ^ k
  }

  function Deobfuscate(mask: seq<bv8>): (nat, bv8) -> bv8
    requires |mask| == 16
  {
    (p: nat, b: bv8) => UnmaskByte(b, mask[p % 16])
  }

  function Obfuscate(mask: seq<bv8>): (nat, bv8) -> bv8
    requires |mask| == 16
  {
    (p: nat, b: bv8) => MaskByte(b, mask[p % 16])
  }

  /** How much is written: whole records up to the cap, and a truncated last record verbatim; fewer than
      four trailing bytes are dropped. */
  function XorLength(w: seq<bv8>, off: nat): nat
    decreases |w| - off
  {
    if off + 4 > |w| || off >= MAX_OUT then off
    else if !WholeRecord(w, off) then |w|
    else XorLength(w, RecordEnd(w, off))
  }

  lemma {:induction false} XorLengthIsWithin(w: seq<bv8>, off: nat)
    requires off <= |w|
    ensures off <= XorLength(w, off) <= |w|
    decreases |w| - off
  {
    if off + 4 <= |w| && off < MAX_OUT && WholeRecord(w, off) {
      XorLengthIsWithin(w, RecordEnd(w, off));
    }
  }

  function XorWalked(w: seq<bv8>, f: (nat, bv8) -> bv8): seq<bv8> {
    XorLengthIsWithin(w, 0);
    Transform(w, XorLength(w, 0), f)
  }

  function XorDecrypted(w: seq<bv8>, mask: seq<bv8>): seq<bv8>
    requires |mask| == 16
  {
    XorWalked(w, Deobfuscate(mask))
  }

  /** The encoder of the format. */
  function XorEncrypted(w: seq<bv8>, mask: seq<bv8>): seq<bv8>
    requires |mask| == 16
  {
    XorWalked(w, Obfuscate(mask))
  }

  lemma {:induction false} XorFramingKept(w: seq<bv8>, d: seq<bv8>, off: nat)
    requires off <= |w| && |d| == XorLength(w, off) <= |w| && AgreeOnClear(w, d, off, |d|)
    ensures XorLength(d, off) == |d| && forall p :: off <= p < |d| ==> Clear(d, off, p) == Clear(w, off, p)
    decreases |w| - off
  {
    hide Word;
    if off + 4 <= |w| && off < MAX_OUT {
      if WholeRecord(w, off) {
        XorLengthIsWithin(w, RecordEnd(w, off));
        AgreeOnNextRecord(w, d, off, |d|);
        SameHeader(w, d, off);
        XorFramingKept(w, d, RecordEnd(w, off));
      } else {
        forall p | off <= p < |d| ensures d[p] == w[p] {
          assert Clear(w, off, p);
        }
        SameHeader(w, d, off);
      }
    }
  }

  lemma WalkAndBack(w: seq<bv8>, f: (nat, bv8) -> bv8, g: (nat, bv8) -> bv8)
    requires forall p, b :: g(p, f(p, b)) == b
    ensures var n := XorLength(w, 0); n <= |w| && |XorWalked(w, f)| == n && XorWalked(XorWalked(w, f), g) == w[..n]
  {
    XorLengthIsWithin(w, 0);
    var d := XorWalked(w, f);
    XorFramingKept(w, d, 0);
  }

  lemma MaskCancels(b: bv8, k: bv8)
    ensures UnmaskByte(MaskByte(b, k), k) == b && MaskByte(UnmaskByte(b, k), k) == b
  {
    XorTwice(Rol5(b), k);
    RotationsCancel(b);
    RotationsCancel(b ^ k);
    XorTwice(b, k);
  }

  lemma MasksCancel(mask: seq<bv8>, p: nat, b: bv8)
    requires |mask| == 16
    ensures Deobfuscate(mask)(p, Obfuscate(mask)(p, b)) == b
    ensures Obfuscate(mask)(p, Deobfuscate(mask)(p, b)) == b
  {
    hide MaskByte, UnmaskByte;
    MaskCancels(b, mask[p % 16]);
  }

  /** Decryption inverts the encoder, and the encoder inverts decryption, up to the bytes that either drops. */
  lemma XorIsInverted(w: seq<bv8>, mask: seq<bv8>)
    requires |mask| == 16
    ensures var n := XorLength(w, 0);
            && n <= |w|
            && XorDecrypted(XorEncrypted(w, mask), mask) == w[..n]
            && XorEncrypted(XorDecrypted(w, mask), mask) == w[..n]
  {
    hide Ror5, Rol5, Obfuscate, Deobfuscate, XorWalked;
    forall p: nat, b: bv8 ensures Deobfuscate(mask)(p, Obfuscate(mask)(p, b)) == b {
      MasksCancel(mask, p, b);
    }
    forall p: nat, b: bv8 ensures Obfuscate(mask)(p, Deobfuscate(mask)(p, b)) == b {
      MasksCancel(mask, p, b);
    }
    WalkAndBack(w, Obfuscate(mask), Deobfuscate(mask));
    WalkAndBack(w, Deobfuscate(mask), Obfuscate(mask));
  }
}
