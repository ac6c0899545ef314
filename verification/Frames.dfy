/** The framing of the peer protocol: a two-byte big-endian length, counting the stream id but not itself;
    the stream id; the payload. */
module Frames {
  import opened Bytes

  const SHORT := 0x1_0000

  datatype Frame = Frame(virtid: Byte, payload: seq<Byte>)

  /** The longest payload whose length field does not overflow. */
  const MAX_PAYLOAD := SHORT - 2

  predicate Encodable(frames: seq<Frame>) {
    forall f <- frames :: |f.payload| <= MAX_PAYLOAD
  }

  /** `htons(length + 1)`, in memory order. */
  function LengthField(length: nat): seq<Byte> {
    var n := (length + 1) % SHORT;
    [n / 256, n % 256]
  }

  /** `ntohs` of the first two bytes. */
  function ReadShort(bytes: seq<Byte>): nat
    requires |bytes| >= 2
  {
    bytes[0] as int * 256 + bytes[1] as int
  }

  function Encode(f: Frame): seq<Byte> {
    LengthField(|f.payload|) + [f.virtid] + f.payload
  }

  function EncodeAll(frames: seq<Frame>): seq<Byte> {
    if frames == [] then [] else Encode(frames[0]) + EncodeAll(frames[1..])
  }

  /** How many bytes the first frame takes, or nothing if it is not all there. */
  function FirstFrame(bytes: seq<Byte>): Option<nat> {
    if |bytes| < 3 then None
    else
      var length := if ReadShort(bytes) == 0 then SHORT - 1 else ReadShort(bytes) - 1;
      if length > |bytes| - 3 then None else Some(3 + length)
  }

  /** The frames that a parser takes off the front of a buffer. */
  function Parse(bytes: seq<Byte>): seq<Frame>
    decreases |bytes|
  {
    match FirstFrame(bytes)
    case None => []
    case Some(n) => [Frame(bytes[2], bytes[3..n])] + Parse(bytes[n..])
  }

  /** Where the parser stops. */
  function StopPoint(bytes: seq<Byte>): nat
    decreases |bytes|
  {
    match FirstFrame(bytes)
    case None => 0
    case Some(n) => n + StopPoint(bytes[n..])
  }

  lemma LengthFieldReads(length: nat)
    requires length <= MAX_PAYLOAD
    ensures |LengthField(length)| == 2 && ReadShort(LengthField(length)) == length + 1
  {
  }

  lemma FirstFrameOfEncoded(f: Frame, tail: seq<Byte>)
    requires |f.payload| <= MAX_PAYLOAD
    ensures var bytes := Encode(f) + tail;
      && FirstFrame(bytes) == Some(3 + |f.payload|)
      && bytes[2] == f.virtid && bytes[3..3 + |f.payload|] == f.payload
      && bytes[3 + |f.payload|..] == tail
  {
    LengthFieldReads(|f.payload|);
    var bytes := Encode(f) + tail;
    assert bytes[0] == LengthField(|f.payload|)[0] && bytes[1] == LengthField(|f.payload|)[1];
  }

  /** The first two bytes count what follows them, high byte first; the third one is the stream. */
  lemma EncodedBytes(f: Frame)
    requires |f.payload| <= MAX_PAYLOAD
    ensures |Encode(f)| == 3 + |f.payload| && Encode(f)[0] as int * 256 + Encode(f)[1] as int == |f.payload| + 1
    ensures Encode(f)[2] == f.virtid && Encode(f)[3..] == f.payload
  {
  }

  /** A frame is there when all that its first two bytes count is; a count of nothing stands for 0xFFFF behind the
      third byte. */
  lemma FirstFrameIs(bytes: seq<Byte>, n: nat)
    ensures FirstFrame(bytes) == Some(n) <==>
      && 3 <= |bytes| && 3 <= n <= |bytes|
      && var counted := bytes[0] as int * 256 + bytes[1] as int;
         n == if counted == 0 then 0x1_0002 else 2 + counted
  {
  }

  lemma Regroup<T>(a: seq<T>, b: seq<T>, c: seq<T>)
    ensures a + b + c == a + (b + c)
  {
  }

  lemma HeadAndTail<T>(xs: seq<T>, ys: seq<T>)
    requires xs != []
    ensures [xs[0]] + (xs[1..] + ys) == xs + ys
  {
  }

  /** One whole frame is parsed as itself. */
  lemma ParseFirst(f: Frame, tail: seq<Byte>)
    requires |f.payload| <= MAX_PAYLOAD
    ensures |Encode(f)| == 3 + |f.payload|
    ensures Parse(Encode(f) + tail) == [f] + Parse(tail)
    ensures StopPoint(Encode(f) + tail) == |Encode(f)| + StopPoint(tail)
  {
    LengthFieldReads(|f.payload|);
    FirstFrameOfEncoded(f, tail);
  }

  lemma {:induction false} EncodeAllConcat(fs: seq<Frame>, gs: seq<Frame>)
    ensures EncodeAll(fs + gs) == EncodeAll(fs) + EncodeAll(gs)
  {
    if fs == [] {
      assert fs + gs == gs;
    } else {
      assert (fs + gs)[1..] == fs[1..] + gs;
      EncodeAllConcat(fs[1..], gs);
    }
  }

  /** Whole frames parse to themselves, and whatever follows them is parsed next. */
  lemma {:induction false} ParseEncoded(frames: seq<Frame>, tail: seq<Byte>)
    requires Encodable(frames)
    ensures Parse(EncodeAll(frames) + tail) == frames + Parse(tail)
    ensures StopPoint(EncodeAll(frames) + tail) == |EncodeAll(frames)| + StopPoint(tail)
  {
    if frames == [] {
      assert EncodeAll(frames) + tail == tail;
    } else {
      var rest := EncodeAll(frames[1..]) + tail;
      Regroup(Encode(frames[0]), EncodeAll(frames[1..]), tail);
      ParseFirst(frames[0], rest);
      ParseEncoded(frames[1..], tail);
      HeadAndTail(frames, Parse(tail));
    }
  }

  /** The parser, given the first `size` bytes of whole frames, gets the first `k` frames and stops behind
      them, because the next frame is not all there. */
  ghost predicate CutAfter(frames: seq<Frame>, size: nat, k: nat)
    requires size <= |EncodeAll(frames)|
  {
    var bytes := EncodeAll(frames);
    && k <= |frames|
    && Parse(bytes[..size]) == frames[..k]
    && StopPoint(bytes[..size]) == |EncodeAll(frames[..k])| <= size
    && bytes[StopPoint(bytes[..size])..] == EncodeAll(frames[k..])
  }

  /** The length field in front of whole frames gives where the second one begins. */
  lemma HeadOfEncoded(frames: seq<Frame>)
    requires Encodable(frames) && frames != []
    ensures var (bytes, n) := (EncodeAll(frames), 3 + |frames[0].payload|);
      && n == |Encode(frames[0])| <= |bytes| && ReadShort(bytes) + 2 == n
      && bytes[n..] == EncodeAll(frames[1..])
  {
    var e, rest := Encode(frames[0]), EncodeAll(frames[1..]);
    LengthFieldReads(|frames[0].payload|);
    assert e[0] == LengthField(|frames[0].payload|)[0] && e[1] == LengthField(|frames[0].payload|)[1];
    assert (e + rest)[|e|..] == rest;
  }

  /** Reading whole frames of which only the first `size` bytes have come through: the first one is all there
      or it is not. */
  lemma FirstOfCut(frames: seq<Frame>, size: nat)
    requires Encodable(frames) && frames != [] && size <= |EncodeAll(frames)|
    ensures var (bytes, n) := (EncodeAll(frames), |Encode(frames[0])|);
      && n <= |bytes|
      && (size < n ==> FirstFrame(bytes[..size]) == None)
      && (size >= n ==>
            && Parse(bytes[..size]) == [frames[0]] + Parse(bytes[n..][..size - n])
            && StopPoint(bytes[..size]) == n + StopPoint(bytes[n..][..size - n]))
  {
    hide Encode, FirstFrame, Parse, StopPoint;
    var e, rest := Encode(frames[0]), EncodeAll(frames[1..]);
    if size < |e| {
      TruncatedFrame(frames[0], rest, size);
    } else {
      TakeOver(e, rest, size - |e|);
      ParseFirst(frames[0], rest[..size - |e|]);
      assert (e + rest)[|e|..] == rest;
    }
  }

  lemma CutLater(frames: seq<Frame>, size: nat, j: nat)
    requires Encodable(frames) && frames != [] && |Encode(frames[0])| <= size <= |EncodeAll(frames)|
    requires |EncodeAll(frames)| - |Encode(frames[0])| == |EncodeAll(frames[1..])|
    requires CutAfter(frames[1..], size - |Encode(frames[0])|, j)
    ensures CutAfter(frames, size, j + 1)
  {
    hide Encode, FirstFrame, Parse, StopPoint;
    FirstOfCut(frames, size);
    SplitHead(frames, j);
    var e, rest := Encode(frames[0]), EncodeAll(frames[1..]);
    assert (e + rest)[|e|..] == rest;
    var stop := StopPoint(rest[..size - |e|]);
    assert (e + rest)[|e| + stop..] == rest[stop..];
  }

  lemma TakeOver<T>(a: seq<T>, b: seq<T>, n: nat)
    requires n <= |b|
    ensures (a + b)[..|a| + n] == a + b[..n]
  {
  }

  lemma SplitHead(frames: seq<Frame>, j: nat)
    requires j < |frames|
    ensures frames[..j + 1] == [frames[0]] + frames[1..][..j] && frames[j + 1..] == frames[1..][j..]
    ensures EncodeAll(frames[..j + 1]) == Encode(frames[0]) + EncodeAll(frames[1..][..j])
  {
    assert frames[..j + 1][1..] == frames[1..][..j];
  }

  /** Cutting a run of whole frames anywhere: some number of frames are all there. */
  lemma {:induction false} ParseCut(frames: seq<Frame>, size: nat) returns (k: nat)
    requires Encodable(frames) && size <= |EncodeAll(frames)|
    ensures CutAfter(frames, size, k)
  {
    if frames == [] {
      k := 0;
    } else if size < |Encode(frames[0])| {
      k := 0;
      FirstOfCut(frames, size);
      assert EncodeAll(frames)[0..] == EncodeAll(frames) && frames[..0] == [] && frames[0..] == frames;
    } else {
      var j := ParseCut(frames[1..], size - |Encode(frames[0])|);
      CutLater(frames, size, j);
      k := j + 1;
    }
  }

  lemma TruncatedFrame(f: Frame, rest: seq<Byte>, size: nat)
    requires |f.payload| <= MAX_PAYLOAD && size < |Encode(f)|
    ensures FirstFrame((Encode(f) + rest)[..size]) == None
  {
    LengthFieldReads(|f.payload|);
    var cut := (Encode(f) + rest)[..size];
    if size >= 3 {
      assert cut[0] == LengthField(|f.payload|)[0] && cut[1] == LengthField(|f.payload|)[1];
    }
  }
}
