/** `MessagePacker`: a message is framed like the payload of a stream, with a command id for a stream id. */
module MessagePackers {
  import opened Bytes
  import opened Frames
  import opened CommandRunners

  /** Copies the header and the packet into the buffer, and touches nothing behind them. */
  method Pack(buffer: array<Byte>, id: Byte, packet: seq<Byte>)
    requires buffer.Length >= |packet| + 3
    modifies buffer
    ensures buffer[..|packet| + 3] == Encode(Frame(id, packet))
    ensures buffer[|packet| + 3..] == old(buffer[|packet| + 3..])
  {
    var netlen := LengthField(|packet|);
    Copy(netlen, buffer, 0);
    Copy([id], buffer, 2);
    Copy(packet, buffer, 3);
    assert buffer[..|packet| + 3] == netlen + [id] + packet;
  }

  /** `std::copy`. */
  method Copy(source: seq<Byte>, buffer: array<Byte>, start: nat)
    requires start + |source| <= buffer.Length
    modifies buffer
    ensures buffer[..] == old(buffer[..start]) + source + old(buffer[start + |source|..])
  {
    var i := 0;
    while i < |source|
      invariant 0 <= i <= |source|
      invariant buffer[start..start + i] == source[..i]
      invariant forall k | 0 <= k < buffer.Length && !(start <= k < start + i) :: buffer[k] == old(buffer[k])
    {
      buffer[start + i] := source[i];
      i := i + 1;
    }
  }

  method Package(id: Byte, packet: seq<Byte>) returns (res: seq<Byte>)
    ensures res == Encode(Frame(id, packet))
  {
    var buffer := new Byte[|packet| + 3](_ => 0);
    Pack(buffer, id, packet);
    res := buffer[..];
  }

  /** A package is parsed as one whole frame exactly if the packet is shorter than 0x10000 bytes: the longest
      one has a length field of 0, which the parser's own subtraction turns back. */
  lemma PackageReadsBack(f: Frame, rest: seq<Byte>)
    ensures FirstFrame(Encode(f) + rest) == Some(3 + |f.payload|) <==> |f.payload| < SHORT
    ensures (Encode(f) + rest)[2] == f.virtid
    ensures (Encode(f) + rest)[3..3 + |f.payload|] == f.payload && (Encode(f) + rest)[3 + |f.payload|..] == rest
  {
    var bytes, length := Encode(f) + rest, LengthField(|f.payload|);
    assert bytes[0] == length[0] && bytes[1] == length[1];
    assert ReadShort(bytes) == (|f.payload| + 1) % SHORT;
  }

  /** A packaged request at the start of a stream creates the command it names, which then runs on what
      follows the request in the same frame. */
  lemma RequestCreatesCommand<C>(
    center: Center<C>, s: State<C>, virtid: Byte, cid: Byte, request: seq<Byte>, rest: seq<Byte>, c: C)
    requires virtid in s.commands ==> center.finished(s.commands[virtid])
    requires |request| < SHORT && center.command(cid, request) == Some(c)
    ensures var t := Handle(center, s, Frame(virtid, Encode(Frame(cid, request)) + rest));
      && t.events == s.events + [Created(virtid, cid, request), Ran(virtid, c, rest)]
      && (!center.finished(c) ==> t.commands == s.commands[virtid := center.run(c, rest)])
      && (center.finished(c) ==> t.commands == s.commands)
  {
    PackageReadsBack(Frame(cid, request), rest);
  }
}
