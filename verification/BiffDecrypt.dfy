/** The decryptors as they run: chunk by chunk over the records. */
module BiffDecrypt {
  import opened BiffCipher

  /** One RC4 stream: it remembers how much keystream it has used. */
  class Cipher {
    const key: KeyStream
    const block: nat
    var used: nat

    constructor (key: KeyStream, block: nat)
      ensures this.key == key && this.block == block && used == 0
    {
      this.key, this.block, used := key, block, 0;
    }

    method XorKeyStream(src: seq<bv8>) returns (dst: seq<bv8>)
      modifies this
      ensures used == old(used) + |src| && |dst| == |src|
      ensures forall i :: 0 <= i < |src| ==> dst[i] == src[i] ^ key(block, old(used) + i)
    {
      var from := used;
      dst := seq(|src|, i requires 0 <= i < |src| => src[i] ^ key(block, from + i));
      used := used + |src|;
    }
  }

  /** The state of one decryption: an output buffer, a position and the stream of the current block. */
  class Rc4Decryptor {
    const workbook: seq<bv8>
    const key: KeyStream
    const out: array<bv8>
    var pos: nat
    var stream: Cipher

    /** Inside a block the stream stands exactly at the position. */
    ghost predicate Valid()
      reads this, stream
    {
      && out.Length == |workbook| && pos <= |workbook|
      && (pos % BLOCK != 0 ==> stream.key == key && stream.block == pos / BLOCK && stream.used == pos % BLOCK)
    }

    constructor (w: seq<bv8>, key: KeyStream)
      ensures Valid() && workbook == w && this.key == key && pos == 0 && fresh(out) && fresh(stream)
    {
      workbook, this.key := w, key;
      out := new bv8[|w|];
      pos := 0;
      stream := new Cipher(key, 0);
    }

    /** What a byte at `p` becomes. */
    function Byte(p: nat, clear: bool): bv8
      requires p < |workbook|
    {
      if clear then workbook[p] else Keyed(key)(p, workbook[p])
    }

    /** One step inside one block: clear bytes use up keystream too. */
    method Step(step: nat, clear: bool)
      requires Valid() && 0 < step && pos + step <= |workbook| && step <= BLOCK - pos % BLOCK
      modifies this`pos, this`stream, stream, out
      ensures Valid() && pos == old(pos) + step && (stream == old(stream) || fresh(stream))
      ensures forall p :: 0 <= p < old(pos) ==> out[p] == old(out[p])
      ensures forall p :: old(pos) <= p < pos ==> out[p] == Byte(p, clear)
    {
      if pos % BLOCK == 0 {
        stream := new Cipher(key, pos / BLOCK);
      }
      var from, block, used := pos, stream.block, stream.used;
      var src := workbook[from..from + step];
      var dst;
      if clear {
        dst := stream.XorKeyStream(seq(step, _ => 0));
        dst := src;
      } else {
        dst := stream.XorKeyStream(src);
      }
      forall i | 0 <= i < step {
        out[from + i] := dst[i];
      }
      pos := from + step;
      forall p | from <= p < pos ensures out[p] == Byte(p, clear) {
        SameBlock(from, p);
        assert out[from + (p - from)] == dst[p - from];
      }
      BlockMoves(from, step);
    }

    /** `n` bytes, block by block. */
    method Crypt(n: nat, clear: bool)
      requires Valid() && pos + n <= |workbook|
      modifies this`pos, this`stream, stream, out
      ensures Valid() && pos == old(pos) + n && (stream == old(stream) || fresh(stream))
      ensures forall p :: 0 <= p < old(pos) ==> out[p] == old(out[p])
      ensures forall p :: old(pos) <= p < pos ==> out[p] == Byte(p, clear)
    {
      var left := n;
      while left > 0
        invariant Valid() && 0 <= left && pos + left == old(pos) + n && old(pos) <= pos
        invariant stream == old(stream) || fresh(stream)
        invariant forall p :: 0 <= p < old(pos) ==> out[p] == old(out[p])
        invariant forall p :: old(pos) <= p < pos ==> out[p] == Byte(p, clear)
      {
        var step := if left < BLOCK - pos % BLOCK then left else BLOCK - pos % BLOCK;
        Step(step, clear);
        left := left - step;
      }
    }
  }

  lemma SameBlock(from: nat, p: nat)
    requires from <= p < from + (BLOCK - from % BLOCK)
    ensures p / BLOCK == from / BLOCK && p % BLOCK == from % BLOCK + (p - from)
  {
  }

  lemma BlockMoves(from: nat, step: nat)
    requires 0 < step <= BLOCK - from % BLOCK
    ensures (from + step) % BLOCK != 0 ==>
              (from + step) / BLOCK == from / BLOCK && (from + step) % BLOCK == from % BLOCK + step
  {
    if step < BLOCK - from % BLOCK {
      SameBlock(from, from + step);
    }
  }

  /** What `Clear` says about the bytes of one whole record. */
  lemma ClearOfRecord(w: seq<bv8>, off: nat, p: nat)
    requires WholeRecord(w, off) && off <= p
    ensures p < RecordEnd(w, off) ==> Clear(w, off, p) == ClearInRecord(w, off, p)
    ensures p >= RecordEnd(w, off) ==> Clear(w, off, p) == Clear(w, RecordEnd(w, off), p)
  {
  }

  /** The walk so far is the beginning of the walk from the start. */
  ghost predicate Reached(w: seq<bv8>, off: nat) {
    off <= |w| && Complete(w, off) == Complete(w, 0) && forall p :: p >= off ==> Clear(w, 0, p) == Clear(w, off, p)
  }

  lemma ReachNext(w: seq<bv8>, off: nat)
    requires Reached(w, off) && WholeRecord(w, off)
    ensures Reached(w, RecordEnd(w, off))
    ensures forall p :: off <= p < RecordEnd(w, off) ==> Clear(w, 0, p) == ClearInRecord(w, off, p)
  {
    forall p: nat | p >= off
      ensures p < RecordEnd(w, off) ==> Clear(w, 0, p) == ClearInRecord(w, off, p)
      ensures p >= RecordEnd(w, off) ==> Clear(w, 0, p) == Clear(w, RecordEnd(w, off), p)
    {
      ClearOfRecord(w, off, p);
    }
  }

  /** Decrypts the complete records of a workbook stream. */
  method Rc4DecryptBiff(input: seq<bv8>, key: KeyStream) returns (plain: seq<bv8>)
    ensures plain == Rc4Decrypted(input, key)
  {
    hide Word, Complete, Clear, Reached;
    var workbook := input;
    if |workbook| > MAX_OUT {
      workbook := workbook[..MAX_OUT];
    }
    var d := new Rc4Decryptor(workbook, key);
    StartReached(workbook);
    while d.pos + 4 <= |workbook| && WholeRecord(workbook, d.pos)
      invariant d.Valid() && d.workbook == workbook && d.key == key && fresh(d) && fresh(d.out) && fresh(d.stream)
      invariant Reached(workbook, d.pos)
      invariant forall p :: 0 <= p < d.pos ==> d.out[p] == d.Byte(p, Clear(workbook, 0, p))
      decreases |workbook| - d.pos
    {
      var off := d.pos;
      var recType, recLen := Word(workbook, off), Word(workbook, off + 2);
      ReachNext(workbook, off);
      d.Crypt(4, true);
      var clear := ClearType(recType);
      if recType == BOUND_SHEET && recLen >= 4 && !clear {
        d.Crypt(4, true);
        recLen := recLen - 4;
      }
      d.Crypt(recLen, clear);
    }
    StopReached(workbook, d.pos);
    plain := d.out[..d.pos];
  }

  lemma StartReached(w: seq<bv8>)
    ensures Reached(w, 0)
  {
  }

  lemma StopReached(w: seq<bv8>, off: nat)
    requires Reached(w, off) && !WholeRecord(w, off)
    ensures Complete(w, 0) == off
  {
  }

  /** The bytes from `from` to `to`, deobfuscated by their absolute offsets. */
  method Unmask(body: seq<bv8>, mask: seq<bv8>, streamPos: nat) returns (dec: seq<bv8>)
    requires |mask| == 16
    ensures |dec| == |body| && forall i :: 0 <= i < |body| ==> dec[i] == Deobfuscate(mask)(streamPos + i, body[i])
  {
    dec := [];
    var at := streamPos;
    for i := 0 to |body|
      invariant |dec| == i && at == streamPos + i
      invariant forall k :: 0 <= k < i ==> dec[k] == Deobfuscate(mask)(streamPos + k, body[k])
    {
      dec := dec + [Ror5(body[i] ^ mask[at % 16])];
      at := at + 1;
    }
  }

  ghost predicate XorReached(w: seq<bv8>, off: nat) {
    off <= |w| && XorLength(w, off) == XorLength(w, 0) && forall p :: p >= off ==> Clear(w, 0, p) == Clear(w, off, p)
  }

  lemma XorReachNext(w: seq<bv8>, off: nat)
    requires XorReached(w, off) && WholeRecord(w, off) && off < MAX_OUT
    ensures XorReached(w, RecordEnd(w, off))
    ensures forall p :: off <= p < RecordEnd(w, off) ==> Clear(w, 0, p) == ClearInRecord(w, off, p)
  {
    forall p: nat | p >= off
      ensures p < RecordEnd(w, off) ==> Clear(w, 0, p) == ClearInRecord(w, off, p)
      ensures p >= RecordEnd(w, off) ==> Clear(w, 0, p) == Clear(w, RecordEnd(w, off), p)
    {
      ClearOfRecord(w, off, p);
    }
  }

  lemma XorStops(w: seq<bv8>, off: nat)
    requires XorReached(w, off)
    ensures off + 4 > |w| || off >= MAX_OUT ==> XorLength(w, 0) == off
    ensures off + 4 <= |w| && off < MAX_OUT && !WholeRecord(w, off) ==>
              XorLength(w, 0) == |w| && forall p :: p >= off ==> Clear(w, 0, p)
  {
  }

  lemma XorStarts(w: seq<bv8>)
    ensures XorReached(w, 0)
  {
  }

  ghost predicate Walked(w: seq<bv8>, mask: seq<bv8>, out: seq<bv8>)
    requires |mask| == 16
  {
    |out| <= |w| && forall p :: 0 <= p < |out| ==> out[p] == if Clear(w, 0, p) then w[p] else Deobfuscate(mask)(p, w[p])
  }

  /** Undoes the XOR obfuscation of a workbook stream. */
  method DecryptXorMethod1(workbook: seq<bv8>, mask: seq<bv8>) returns (out: seq<bv8>)
    requires |mask| == 16
    ensures out == XorDecrypted(workbook, mask)
  {
    hide Word, Clear, XorLength, XorReached, Deobfuscate;
    out := [];
    var streamPos, off := 0, 0;
    XorStarts(workbook);
    while off + 4 <= |workbook| && |out| < MAX_OUT
      invariant XorReached(workbook, off) && |out| == off && streamPos == off <= |workbook|
      invariant Walked(workbook, mask, out)
      decreases |workbook| - off
    {
      var recType, recLen := Word(workbook, off), Word(workbook, off + 2);
      var bodyOff := off + 4;
      XorStops(workbook, off);
      ghost var before := out;
      out := out + workbook[off..off + 4];
      streamPos := streamPos + 4;
      if bodyOff + recLen > |workbook| {
        out := out + workbook[bodyOff..];
        return;
      }
      XorReachNext(workbook, off);
      var body := workbook[bodyOff..bodyOff + recLen];
      if ClearType(recType) {
        out := out + body;
      } else if recType == BOUND_SHEET && recLen >= 4 {
        var dec := Unmask(body[4..], mask, streamPos + 4);
        out := out + body[..4] + dec;
      } else {
        var dec := Unmask(body, mask, streamPos);
        out := out + dec;
      }
      forall p | off <= p < bodyOff + recLen
        ensures out[p] == if Clear(workbook, 0, p) then workbook[p] else Deobfuscate(mask)(p, workbook[p])
      {
        if p >= bodyOff {
          assert workbook[p] == body[p - bodyOff];
        }
      }
      streamPos := streamPos + recLen;
      off := bodyOff + recLen;
    }
    XorStops(workbook, off);
  }
}
