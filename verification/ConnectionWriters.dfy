/** `BufferedConnectionWriter`: writes on many streams share one bounded buffer of frames and one socket,
    which may take only part of what it is given. */
module ConnectionWriters {
  import opened Bytes
  import opened Frames

  /** The frames a receiver parses out of the buffers that arrive, one after the other. */
  ghost function Delivered(arrived: seq<seq<Byte>>): seq<Frame> {
    if arrived == [] then [] else Delivered(arrived[..|arrived| - 1]) + Parse(arrived[|arrived| - 1])
  }

  /** The bytes of one stream. */
  ghost function PayloadOf(frames: seq<Frame>, virtid: Byte): seq<Byte> {
    if frames == [] then []
    else
      var last := frames[|frames| - 1];
      PayloadOf(frames[..|frames| - 1], virtid) + if last.virtid == virtid then last.payload else []
  }

  lemma DeliveredOneMore(arrived: seq<seq<Byte>>, bytes: seq<Byte>)
    ensures Delivered(arrived + [bytes]) == Delivered(arrived) + Parse(bytes)
  {
    assert (arrived + [bytes])[..|arrived|] == arrived;
  }

  lemma {:induction false} PayloadOfConcat(fs: seq<Frame>, gs: seq<Frame>, virtid: Byte)
    ensures PayloadOf(fs + gs, virtid) == PayloadOf(fs, virtid) + PayloadOf(gs, virtid)
  {
    if gs == [] {
      assert fs + gs == fs;
    } else {
      var n := |gs| - 1;
      assert (fs + gs)[..|fs| + n] == fs + gs[..n];
      PayloadOfConcat(fs, gs[..n], virtid);
    }
  }

  /** All of these frames are on one stream, of bounded size, and their payloads in order are these bytes. */
  ghost predicate Carries(frames: seq<Frame>, virtid: Byte, bytes: seq<Byte>, bound: nat) {
    && (forall f <- frames :: f.virtid == virtid && |f.payload| <= bound)
    && PayloadOf(frames, virtid) == bytes
  }

  lemma NothingCarried(virtid: Byte, bound: nat)
    ensures Carries([], virtid, [], bound)
  {
  }

  /** Framing the next `size` of the bytes that remain. */
  lemma CarriesMore(before: seq<Frame>, framed: seq<Frame>, f: Frame, done: seq<Byte>, rest: seq<Byte>, bound: nat)
    requires Carries(framed, f.virtid, done, bound)
    requires |f.payload| <= |rest| && f.payload == rest[..|f.payload|] && |f.payload| <= bound
    ensures Carries(framed + [f], f.virtid, done + f.payload, bound)
    ensures before + framed + [f] == before + (framed + [f])
    ensures done + rest == (done + f.payload) + rest[|f.payload|..]
  {
    assert (framed + [f])[..|framed|] == framed;
  }

  lemma StopsAtOnce(bytes: seq<Byte>)
    requires FirstFrame(bytes) == None || bytes == []
    ensures StopPoint(bytes) == 0
  {
  }

  lemma ParsesToItself(frames: seq<Frame>)
    requires Encodable(frames)
    ensures Parse(EncodeAll(frames)) == frames && Parse([]) == []
  {
    ParseEncoded(frames, []);
    assert EncodeAll(frames) + [] == EncodeAll(frames);
  }

  /** The receiver parses what came of a cut buffer up to the frame that the sender retains. */
  lemma TailRetained(arrived: seq<seq<Byte>>, frames: seq<Frame>, size: nat, k: nat)
    requires size <= |EncodeAll(frames)| && CutAfter(frames, size, k)
    ensures Delivered(arrived + [EncodeAll(frames)[..size]]) + frames[k..] == Delivered(arrived) + frames
  {
    hide Parse, StopPoint, EncodeAll;
    DeliveredOneMore(arrived, EncodeAll(frames)[..size]);
    assert Delivered(arrived) + frames[..k] + frames[k..] == Delivered(arrived) + frames;
  }

  /** What a non-blocking send was offered, and what it reported. */
  datatype Attempt = Attempt(offered: seq<Byte>, took: int) {
    predicate FellShort() {
      took < |offered|
    }
  }

  /** The connection, seen from both ends: every buffer sent arrives as one buffer of the bytes the send
      reported. */
  class Socket {
    var arrived: seq<seq<Byte>>
    var attempts: seq<Attempt>

    constructor ()
      ensures arrived == [] && attempts == []
    {
      arrived, attempts := [], [];
    }

    /** A blocking send takes everything. */
    method Send(data: seq<Byte>) returns (sent: int)
      modifies this
      ensures sent == |data| && arrived == old(arrived) + [data] && attempts == old(attempts)
    {
      sent := |data|;
      arrived := arrived + [data];
    }

    /** A non-blocking send fails, or takes any part of the data. */
    method TrySend(data: seq<Byte>) returns (sent: int)
      modifies this
      ensures -1 <= sent <= |data|
      ensures arrived == old(arrived) + if sent > 0 then [data[..sent]] else []
      ensures attempts == old(attempts) + [Attempt(data, sent)]
    {
      sent :| -1 <= sent <= |data|;
      attempts := attempts + [Attempt(data, sent)];
      if sent > 0 {
        arrived := arrived + [data[..sent]];
      }
    }
  }

  /** What an `unsigned` makes of a sum. */
  function Narrowed(n: nat): (r: nat)
    ensures n < 0x1_0000_0000 ==> r == n
  {
    n % 0x1_0000_0000
  }

  /** The `int` that a count is returned as, and the count it stands for. */
  function AsInt(n: nat): int
    requires n < 0x1_0000_0000
  {
    if n < 0x8000_0000 then n else n - 0x1_0000_0000
  }

  function CountOf(r: int): nat
    requires -0x8000_0000 <= r
  {
    if r < 0 then r + 0x1_0000_0000 else r
  }

  /** Bytes whose length is an `unsigned`. */
  type Bytes32 = s: seq<Byte> | |s| < 0x1_0000_0000

  /** Some of the attempts made since then fell short. */
  ghost predicate Short(was: seq<Attempt>, now: seq<Attempt>) {
    exists i :: |was| <= i < |now| && now[i].FellShort()
  }

  /** How a write has been framed that is not at its end: in full frames. */
  ghost predicate Framing(
    buff: seq<Byte>, done: seq<Byte>, rest: seq<Byte>, framed: seq<Frame>, virtid: Byte, capacity: nat)
  {
    && buff == done + rest && Carries(framed, virtid, done, capacity)
    && (framed == [] ==> done == []) && (framed != [] ==> |buff| > capacity)
    && forall f <- framed :: |f.payload| == capacity
  }

  /** How the first `n` bytes of a write were framed. */
  ghost predicate Framed(buff: seq<Byte>, n: nat, framed: seq<Frame>, virtid: Byte, capacity: nat) {
    && n <= |buff| && Carries(framed, virtid, buff[..n], capacity)
    && (forall i | 0 <= i < |framed| && (i + 1 < |framed| || n < |buff|) :: |framed[i].payload| == capacity)
    && (buff != [] ==> forall f <- framed :: f.payload != [])
    && (0 < |buff| <= capacity && n > 0 ==> framed == [Frame(virtid, buff)])
    && (n == 0 < |buff| ==> framed == [])
  }

  lemma NothingFramed(buff: seq<Byte>, virtid: Byte, capacity: nat)
    ensures Framing(buff, [], buff, [], virtid, capacity)
  {
    NothingCarried(virtid, capacity);
  }

  lemma FramedSoFar(buff: seq<Byte>, done: seq<Byte>, rest: seq<Byte>, framed: seq<Frame>, virtid: Byte, capacity: nat)
    requires 0 < capacity && Framing(buff, done, rest, framed, virtid, capacity) && (rest == [] ==> framed == [])
    ensures Framed(buff, |buff| - |rest|, framed, virtid, capacity)
  {
    assert buff[..|done|] == done;
    CarriesNothing(framed, virtid, done, capacity);
    hide Carries;
    assert forall i | 0 <= i < |framed| :: framed[i] in framed;
  }

  lemma CarriesNothing(framed: seq<Frame>, virtid: Byte, done: seq<Byte>, capacity: nat)
    requires Carries(framed, virtid, done, capacity) && forall f <- framed :: |f.payload| == capacity
    ensures framed != [] ==> |done| >= capacity
  {
  }

  lemma FramedMore(
    buff: seq<Byte>, done: seq<Byte>, rest: seq<Byte>, framed: seq<Frame>, virtid: Byte, capacity: nat,
    taken: nat, more: seq<Frame>, before: seq<Frame>)
    requires 0 < capacity && Framing(buff, done, rest, framed, virtid, capacity) && (rest == [] ==> framed == [] && buff == [])
    requires taken == if |rest| <= capacity then |rest| else capacity
    requires more == [Frame(virtid, rest[..taken])] || (more == [] && rest == [])
    ensures if taken == |rest| then Framed(buff, |buff|, framed + more, virtid, capacity)
            else Framing(buff, done + rest[..taken], rest[taken..], framed + more, virtid, capacity)
    ensures before + framed + more == before + (framed + more)
    ensures rest != [] && |buff| <= capacity ==> framed + more == [Frame(virtid, buff)]
    ensures buff == [] ==> framed + more == more
  {
    hide Carries;
    var all := framed + more;
    if more != [] {
      CarriesMore(before, framed, more[0], done, rest, capacity);
      assert all[..|framed|] == framed && all[|framed|] == more[0];
    }
    assert taken == |rest| ==> done + rest[..taken] == buff && buff[..|buff|] == buff && rest[..taken] == rest;
    assert forall i | 0 <= i < |framed| :: all[i] == framed[i] && framed[i] in framed;
    assert framed == [] ==> rest == buff;
  }

  class BufferedConnectionWriter {
    const sock: Socket
    const capacity: nat
    var buffer: seq<Byte>
    /** The frames in the buffer. */
    ghost var pending: seq<Frame>

    constructor (sock: Socket, packetsize: nat)
      requires 4 <= packetsize <= SHORT + 1
      ensures Valid() && fresh(this) && this.sock == sock && capacity == packetsize - 3
      ensures buffer == [] && pending == []
    {
      this.sock, capacity, buffer, pending := sock, packetsize - 3, [], [];
    }

    /** The buffer holds whole frames, each short enough for its length field, and at most three bytes more
        than the capacity. */
    ghost predicate Valid()
      reads this
    {
      && 1 <= capacity <= MAX_PAYLOAD
      && (forall f <- pending :: |f.payload| <= capacity)
      && buffer == EncodeAll(pending) && |buffer| <= capacity + 3
    }

    /** Every frame so far: those the receiver has, then those still buffered. */
    ghost function Stream(): seq<Frame>
      reads this, sock
    {
      Delivered(sock.arrived) + pending
    }

    method PushBytes(virtid: Byte, bytes: seq<Byte>)
      requires Valid() && |buffer| + |bytes| <= capacity
      modifies this
      ensures Valid() && pending == old(pending) + [Frame(virtid, bytes)]
      ensures Stream() == old(Stream()) + [Frame(virtid, bytes)]
      ensures |buffer| == |old(buffer)| + 3 + |bytes|
    {
      var f := Frame(virtid, bytes);
      ParseFirst(f, []);
      EncodeAllConcat(pending, [f]);
      assert EncodeAll([f]) == Encode(f) + EncodeAll([]);
      buffer := buffer + LengthField(|bytes|);
      buffer := buffer + [virtid];
      buffer := buffer + bytes;
      pending := pending + [f];
    }

    /** Where the first frame begins that is not all within the first `size` bytes: where the receiver's
        parser stops. */
    static method FindFirstTruncatedPacket(buff: seq<Byte>, size: nat, ghost frames: seq<Frame>) returns (i: nat)
      requires Encodable(frames) && buff == EncodeAll(frames) && size <= |buff|
      ensures i == StopPoint(buff[..size]) <= size
    {
      hide Encode, Parse, StopPoint, FirstFrame;
      i := 0;
      ghost var rest := frames;
      assert buff[0..] == buff;
      while i < size
        invariant 0 <= i <= size && Encodable(rest) && buff[i..] == EncodeAll(rest)
        invariant StopPoint(buff[..size]) == i + StopPoint(buff[i..][..size - i])
        decreases size - i
      {
        assert rest != [];
        HeadOfEncoded(rest);
        FirstOfCut(rest, size - i);
        var packetLen := ReadShort(buff[i..]);
        if packetLen + i + 2 > size {
          StopsAtOnce(buff[i..][..size - i]);
          return i;
        }
        assert buff[i..][2 + packetLen..] == buff[i + 2 + packetLen..];
        i := i + 2 + packetLen;
        rest := rest[1..];
      }
      StopsAtOnce(buff[i..][..size - i]);
    }

    /** Sends what is buffered. Whatever the socket takes, the receiver's frames followed by the frames still
        buffered stay the same. */
    method FlushInternal(blocking: bool) returns (good: bool)
      requires Valid()
      modifies this, sock
      ensures Valid() && Stream() == old(Stream())
      ensures good ==> buffer == [] && pending == []
      ensures good ==> sock.arrived == old(sock.arrived) + if old(buffer) == [] then [] else [old(buffer)]
      ensures !good && !blocking && old(buffer) != [] ==> pending != []
      ensures blocking ==> good == (old(buffer) != []) && buffer == [] && pending == []
      // what is buffered is offered to the socket once, and has to be taken whole
      ensures blocking ==> sock.arrived == old(sock.arrived) + [old(buffer)] && sock.attempts == old(sock.attempts)
      ensures !blocking ==>
        && |sock.attempts| == |old(sock.attempts)| + 1 && old(sock.attempts) <= sock.attempts
        && var a := sock.attempts[|old(sock.attempts)|];
           a.offered == old(buffer) && good == !a.FellShort()
    {
      hide Encode, Parse, StopPoint, FirstFrame;
      ParsesToItself(pending);
      if blocking {
        var buff := buffer;
        buffer := [];
        DeliveredOneMore(sock.arrived, buff);
        pending := [];
        var sent := sock.Send(buff);
        return sent != 0;
      } else {
        ghost var before := sock.arrived;
        var res := sock.TrySend(buffer);
        if res == |buffer| {
          assert buffer[..res] == buffer;
          DeliveredOneMore(before, buffer);
          assert buffer == [] ==> pending == [] && sock.arrived == before;
          buffer := [];
          pending := [];
          return true;
        }
        if res > 0 {
          ghost var k := ParseCut(pending, res);
          TailRetained(before, pending, res, k);
          var i := FindFirstTruncatedPacket(buffer, res, pending);
          buffer := buffer[i..];
          pending := pending[k..];
        } else {
          assert sock.arrived == before;
        }
        return false;
      }
    }

    method Flush(blocking: bool) returns (good: bool)
      requires Valid()
      modifies this, sock
      ensures Valid() && Stream() == old(Stream()) && (good ==> buffer == [] && pending == [])
      ensures good ==> sock.arrived == old(sock.arrived) + if old(buffer) == [] then [] else [old(buffer)]
      ensures blocking ==> sock.arrived == old(sock.arrived) + [old(buffer)] && buffer == []
      ensures !blocking ==>
        && |sock.attempts| == |old(sock.attempts)| + 1 && old(sock.attempts) <= sock.attempts
        && var a := sock.attempts[|old(sock.attempts)|];
           a.offered == old(buffer) && good == !a.FellShort()
    {
      good := FlushInternal(blocking);
    }

    /** Accepts a prefix of the bytes, as the frames `framed`. */
    method Write(virtid: Byte, buff: Bytes32, blocking: bool) returns (r: int, ghost framed: seq<Frame>)
      requires Valid()
      modifies this, sock
      ensures Valid() && Stream() == old(Stream()) + framed
      ensures -0x8000_0000 <= r < 0x8000_0000
      ensures CountOf(r) <= |buff| && Carries(framed, virtid, buff[..CountOf(r)], capacity)
      ensures blocking ==> CountOf(r) == |buff|
      // fewer bytes are accepted only if the socket takes less than it is offered
      ensures old(sock.attempts) <= sock.attempts
      ensures CountOf(r) < |buff| ==> Short(old(sock.attempts), sock.attempts)
      // what fits is one frame, and waits for more unless it fills the buffer
      ensures 0 < |buff| && |old(buffer)| + |buff| <= capacity ==>
        CountOf(r) == |buff| && framed == [Frame(virtid, buff)]
      ensures |old(buffer)| + |buff| < capacity ==> sock.attempts == old(sock.attempts) && sock.arrived == old(sock.arrived)
      // all frames but the last are as long as they may be
      ensures forall i | 0 <= i < |framed| && (i + 1 < |framed| || CountOf(r) < |buff|) :: |framed[i].payload| == capacity
      ensures buff != [] ==> forall f <- framed :: f.payload != []
      // a short write is one frame or nothing
      ensures 0 < |buff| <= capacity && r > 0 ==> framed == [Frame(virtid, buff)]
      ensures r == 0 < |buff| ==> framed == []
      // an empty write is a frame of its own, unless the buffer is exactly full or cannot be flushed
      ensures buff == [] && |old(buffer)| < capacity ==> framed == [Frame(virtid, [])]
      ensures buff == [] && |old(buffer)| == capacity ==> framed == []
      ensures buff == [] && |old(buffer)| > capacity ==>
        framed == if Delivered(sock.arrived) == old(Stream()) then [Frame(virtid, [])] else []
    {
      hide Encode, EncodeAll, Parse, StopPoint, Delivered, Carries, Short, Framing;
      var rest := buff;
      var good := true;
      ghost var before, done := Stream(), [];
      framed := [];
      NothingFramed(buff, virtid, capacity);
      if |buffer| > 0 && |buffer| + |rest| > capacity {
        good := FlushInternal(blocking);
        FellShortAtEnd(old(sock.attempts), old(sock.attempts), sock.attempts);
      }
      while good
        invariant Valid() && Stream() == before + framed
        invariant Framing(buff, done, rest, framed, virtid, capacity)
        invariant rest == [] ==> framed == [] && buff == []
        invariant if good then |buffer| == 0 || |buffer| + |rest| <= capacity else !blocking && pending != []
        invariant old(sock.attempts) <= sock.attempts && (good || Short(old(sock.attempts), sock.attempts))
        invariant |old(buffer)| + |buff| <= capacity ==>
          good && rest == buff && buffer == old(buffer) && sock.attempts == old(sock.attempts) && sock.arrived == old(sock.arrived)
        invariant buff == [] && |old(buffer)| > capacity ==> !good || pending == []
        decreases |rest|, good
      {
        ghost var was := sock.attempts;
        var taken;
        ghost var more;
        taken, good, more := PushSome(virtid, rest, blocking);
        FramedMore(buff, done, rest, framed, virtid, capacity, taken, more, before);
        ShortOnwards(old(sock.attempts), was, sock.attempts);
        framed, done := framed + more, done + rest[..taken];
        rest := rest[taken..];
        if rest == [] {
          r := AsInt(|buff|);
          return;
        }
      }
      FramedSoFar(buff, done, rest, framed, virtid, capacity);
      r := AsInt(|buff| - |rest|);
    }

    /** Once around the loop of `write`: frames as much of the rest as the buffer has room for, or all there is. */
    method PushSome(virtid: Byte, rest: Bytes32, blocking: bool) returns (taken: nat, good: bool, ghost more: seq<Frame>)
      requires Valid() && (|buffer| == 0 || |buffer| + |rest| <= capacity)
      modifies this, sock
      ensures Valid() && Stream() == old(Stream()) + more && taken <= |rest|
      ensures more == if |old(buffer)| < capacity then [Frame(virtid, rest[..taken])] else []
      ensures taken == if |rest| <= capacity then |rest| else capacity
      ensures good ==> taken == |rest| || buffer == []
      ensures !good ==> !blocking && pending != []
      ensures old(sock.attempts) <= sock.attempts && (good || Short(old(sock.attempts), sock.attempts))
      ensures |old(buffer)| + |rest| < capacity ==> good && sock.attempts == old(sock.attempts) && sock.arrived == old(sock.arrived)
    {
      hide Encode, EncodeAll, Parse, StopPoint, Delivered, Narrowed, Short;
      more := [];
      var packetSize := Narrowed(|buffer| + |rest|);
      if packetSize >= capacity {
        if |buffer| < capacity {
          packetSize := capacity - |buffer|;
          PushBytes(virtid, rest[..packetSize]);
          more := [Frame(virtid, rest[..packetSize])];
        }
        good := FlushInternal(blocking);
        FellShortAtEnd(old(sock.attempts), old(sock.attempts), sock.attempts);
      } else {
        packetSize := |rest|;
        PushBytes(virtid, rest);
        more := [Frame(virtid, rest)];
        good := true;
      }
      taken := if packetSize <= |rest| then packetSize else |rest|;
      assert taken == |rest| ==> rest[..taken] == rest;
    }
  }

  lemma FellShortAtEnd(was: seq<Attempt>, before: seq<Attempt>, now: seq<Attempt>)
    requires was <= before
    ensures |now| == |before| + 1 && now[|before|].FellShort() ==> Short(was, now)
  {
  }

  lemma ShortOnwards(was: seq<Attempt>, before: seq<Attempt>, now: seq<Attempt>)
    requires was <= before <= now
    ensures Short(before, now) ==> Short(was, now)
  {
  }

  datatype Call = Write(virtid: Byte, bytes: Bytes32, blocking: bool) | Flush(blocking: bool)

  /** The counts fit the calls they belong to. */
  ghost predicate CountsFit(calls: seq<Call>, counts: seq<nat>) {
    && |counts| <= |calls|
    && forall i | 0 <= i < |counts| && calls[i].Write? :: counts[i] <= |calls[i].bytes|
  }

  /** The bytes of one stream that the first calls reported as accepted. */
  ghost function Accepted(calls: seq<Call>, counts: seq<nat>, virtid: Byte): seq<Byte>
    requires CountsFit(calls, counts)
  {
    if counts == [] then []
    else
      var last := |counts| - 1;
      Accepted(calls, counts[..last], virtid) +
      if calls[last].Write? && calls[last].virtid == virtid then calls[last].bytes[..counts[last]] else []
  }

  /** One more call, as it looks on one stream. */
  lemma AcceptedOneMore(
    calls: seq<Call>, counts: seq<nat>, count: nat, before: seq<Frame>, framed: seq<Frame>, bound: nat, v: Byte)
    requires |counts| < |calls| && CountsFit(calls, counts) && CountsFit(calls, counts + [count])
    requires PayloadOf(before, v) == Accepted(calls, counts, v)
    requires calls[|counts|].Flush? ==> framed == []
    requires calls[|counts|].Write? ==> Carries(framed, calls[|counts|].virtid, calls[|counts|].bytes[..count], bound)
    ensures PayloadOf(before + framed, v) == Accepted(calls, counts + [count], v)
  {
    hide PayloadOf;
    var more, call := counts + [count], calls[|counts|];
    assert more[..|counts|] == counts && more[|counts|] == count;
    PayloadOfConcat(before, framed, v);
    if call.Flush? || call.virtid != v {
      OtherStream(framed, if call.Write? then call.virtid else (v + 1) % 256, v);
    }
  }

  lemma {:induction false} OtherStream(frames: seq<Frame>, virtid: Byte, other: Byte)
    requires virtid != other && forall f <- frames :: f.virtid == virtid
    ensures PayloadOf(frames, other) == []
  {
    if frames != [] {
      OtherStream(frames[..|frames| - 1], virtid, other);
    }
  }

  /** A connection over any run of calls, whatever the socket takes of each send: on every stream, what the
      receiver has parsed followed by what is still buffered is exactly what the calls reported as accepted. */
  method Converse(sock: Socket, packetsize: nat, calls: seq<Call>)
    returns (writer: BufferedConnectionWriter, counts: seq<nat>)
    requires 4 <= packetsize <= SHORT + 1 && sock.arrived == []
    modifies sock
    ensures fresh(writer) && writer.sock == sock && writer.Valid()
    ensures |counts| == |calls| && CountsFit(calls, counts)
    ensures forall v: Byte ::
        PayloadOf(Delivered(sock.arrived) + writer.pending, v) == Accepted(calls, counts, v)
  {
    writer := new BufferedConnectionWriter(sock, packetsize);
    counts := [];
    assert writer.Stream() == [];
    while |counts| < |calls|
      invariant writer.Valid() && CountsFit(calls, counts)
      invariant forall v: Byte :: PayloadOf(writer.Stream(), v) == Accepted(calls, counts, v)
      decreases |calls| - |counts|
    {
      hide PayloadOf, Accepted, Carries, Delivered, EncodeAll;
      var count := 0;
      ghost var before, framed := writer.Stream(), [];
      match calls[|counts|] {
        case Write(virtid, bytes, blocking) =>
          var r;
          r, framed := writer.Write(virtid, bytes, blocking);
          count := CountOf(r);
        case Flush(blocking) =>
          var good := writer.Flush(blocking);
      }
      assert CountsFit(calls, counts + [count]);
      forall v: Byte ensures PayloadOf(before + framed, v) == Accepted(calls, counts + [count], v) {
        AcceptedOneMore(calls, counts, count, before, framed, writer.capacity, v);
      }
      counts := counts + [count];
    }
  }
}
