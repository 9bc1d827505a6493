/** The binary frames that carry a compiler trace. */
module RuleFrames {
  import opened Basics

  type Bytes = seq<byte>

  function Pow256(n: nat): (p: nat)
    ensures p >= 1
  {
    if n == 0 then 1 else 256 * Pow256(n - 1)
  }

  /** `n` in `width` bytes, least significant first. */
  function Little(n: nat, width: nat): (b: Bytes)
    ensures |b| == width
  {
    if width == 0 then [] else [n % 256] + Little(n / 256, width - 1)
  }

  function Value(b: Bytes): nat {
    if b == [] then 0 else b[0] as int + 256 * Value(b[1..])
  }

  lemma {:induction false} ValueOfLittle(n: nat, width: nat)
    requires n < Pow256(width)
    ensures Value(Little(n, width)) == n
  {
    if width > 0 {
      ValueOfLittle(n / 256, width - 1);
    }
  }

  lemma {:induction false} LittleOfValue(b: Bytes)
    ensures Value(b) < Pow256(|b|) && Little(Value(b), |b|) == b
  {
    if b != [] {
      LittleOfValue(b[1..]);
      assert Value(b) / 256 == Value(b[1..]) && Value(b) % 256 == b[0];
    }
  }

  /* ---------------------------------------------------------------- frames */

  datatype Frame = Frame(kind: byte, name: Bytes, payload: Bytes)

  const HEADER: nat := 17

  predicate Sized(f: Frame) {
    |f.name| < Pow256(8) && |f.payload| < Pow256(8)
  }

  function Header(f: Frame): (b: Bytes)
    ensures |b| == HEADER
  {
    [f.kind] + Little(|f.name|, 8) + Little(|f.payload|, 8)
  }

  function FrameBytes(f: Frame): Bytes {
    Header(f) + f.name + f.payload
  }

  function Log(frames: seq<Frame>): Bytes {
    if frames == [] then [] else FrameBytes(frames[0]) + Log(frames[1..])
  }

  lemma {:induction false} LogAppends(frames: seq<Frame>, f: Frame)
    ensures Log(frames + [f]) == Log(frames) + FrameBytes(f)
  {
    hide FrameBytes;
    if frames == [] {
      assert frames + [f] == [f] && [f][1..] == [];
      assert Log([f]) == FrameBytes(f) + Log([]);
    } else {
      LogAppends(frames[1..], f);
      assert (frames + [f])[1..] == frames[1..] + [f];
    }
  }

  /** The frame at the front of the data, if it is not truncated. */
  function FirstFrame(data: Bytes): Option<Frame> {
    if |data| < HEADER then None
    else
      var nameSize, size := Value(data[1..9]), Value(data[9..17]);
      if nameSize + size > |data| - HEADER then None
      else Some(Frame(data[0], data[17..17 + nameSize], data[17 + nameSize..17 + nameSize + size]))
  }

  function FrameSize(f: Frame): nat {
    HEADER + |f.name| + |f.payload|
  }

  lemma FirstFrameFits(data: Bytes)
    ensures FirstFrame(data).Some? ==> FrameSize(FirstFrame(data).value) <= |data|
  {
  }

  /** All frames, or nothing when the data ends inside a frame. */
  function Events(data: Bytes): Option<seq<Frame>>
    decreases |data|
  {
    if data == [] then Some([])
    else
      FirstFrameFits(data);
      match FirstFrame(data)
      case None => None
      case Some(f) =>
        match Events(data[FrameSize(f)..])
        case None => None
        case Some(frames) => Some([f] + frames)
  }

  lemma FirstFrameOf(f: Frame, rest: Bytes)
    requires Sized(f)
    ensures FirstFrame(FrameBytes(f) + rest) == Some(f) && (FrameBytes(f) + rest)[FrameSize(f)..] == rest
  {
    var data := FrameBytes(f) + rest;
    ValueOfLittle(|f.name|, 8);
    ValueOfLittle(|f.payload|, 8);
    assert data[1..9] == Little(|f.name|, 8);
    assert data[9..17] == Little(|f.payload|, 8);
    assert data[17..17 + |f.name|] == f.name;
    assert data[17 + |f.name|..17 + |f.name| + |f.payload|] == f.payload;
  }

  /** Parsing what the producer wrote gives back its frames. */
  lemma {:induction false} EventsOfLog(frames: seq<Frame>)
    requires forall i :: 0 <= i < |frames| ==> Sized(frames[i])
    ensures Events(Log(frames)) == Some(frames)
  {
    if frames != [] {
      hide FirstFrame, FrameBytes;
      FirstFrameOf(frames[0], Log(frames[1..]));
      EventsOfLog(frames[1..]);
      assert [frames[0]] + frames[1..] == frames;
      SomeBytes(frames[0], Log(frames[1..]));
    }
  }

  lemma SomeBytes(f: Frame, rest: Bytes)
    ensures FrameBytes(f) + rest != []
  {
  }

  /** Parsing loses nothing: only one byte string has these frames. */
  lemma {:induction false} LogOfEvents(data: Bytes)
    requires Events(data).Some?
    ensures Log(Events(data).value) == data
    decreases |data|
  {
    hide FrameBytes, FirstFrame, FrameSize;
    if data != [] {
      FirstFrameFits(data);
      var f := FirstFrame(data).value;
      var frames := Events(data).value;
      LogOfEvents(data[FrameSize(f)..]);
      assert frames[1..] == Events(data[FrameSize(f)..]).value && frames[0] == f;
      FrameIsPrefix(data);
      assert data == data[..FrameSize(f)] + data[FrameSize(f)..];
    }
  }

  lemma FrameIsPrefix(data: Bytes)
    requires FirstFrame(data).Some?
    ensures var f := FirstFrame(data).value; FrameSize(f) <= |data| && FrameBytes(f) == data[..FrameSize(f)]
  {
    var f := FirstFrame(data).value;
    LittleOfValue(data[1..9]);
    LittleOfValue(data[9..17]);
    assert Header(f) == data[..17];
  }
}
