/** `PeerCommandRunner`: the frames of one peer, from any number of streams, are demultiplexed into one
    command per stream. */
module CommandRunners {
  import opened Bytes
  import opened Frames
  import opened ConnectionWriters

  /** Bytes not read yet. */
  class DataBuffer {
    var bytes: seq<Byte>

    constructor (bytes: seq<Byte>)
      ensures this.bytes == bytes
    {
      this.bytes := bytes;
    }

    method Assign(other: DataBuffer)
      modifies this
      ensures bytes == old(other.bytes)
    {
      bytes := other.bytes;
    }

    method Skip(size: nat)
      modifies this
      ensures bytes == if size <= |old(bytes)| then old(bytes)[size..] else []
    {
      var n := if size > |bytes| then |bytes| else size;
      bytes := bytes[n..];
    }

    method Read(size: nat) returns (read: seq<Byte>)
      modifies this
      ensures read + bytes == old(bytes) && (|read| == size || (bytes == [] && |read| < size))
    {
      var n := if size > |bytes| then |bytes| else size;
      read, bytes := bytes[..n], bytes[n..];
    }
  }

  class PacketParser {
    const buff: DataBuffer

    constructor (buff: DataBuffer)
      ensures this.buff == buff
    {
      this.buff := buff;
    }

    /** Takes the first frame off the buffer. Without a whole frame there the header, if it is there, is lost. */
    method GetNext(next: DataBuffer) returns (found: bool, virtid: Byte)
      requires next != buff
      modifies buff, next
      ensures found == FirstFrame(old(buff.bytes)).Some?
      ensures match FirstFrame(old(buff.bytes))
              case Some(n) =>
                virtid == old(buff.bytes)[2] && next.bytes == old(buff.bytes)[3..n] && buff.bytes == old(buff.bytes)[n..]
              case None =>
                next.bytes == old(next.bytes) &&
                buff.bytes == if |old(buff.bytes)| < 3 then old(buff.bytes) else old(buff.bytes)[3..]
    {
      virtid := 0;
      if |buff.bytes| < 3 {
        return false, virtid;
      }
      ghost var whole := buff.bytes;
      var length := (ReadShort(buff.bytes) + SHORT - 1) % SHORT;
      buff.Skip(2);
      virtid := buff.bytes[0];
      buff.Skip(1);
      assert buff.bytes == whole[3..];
      if length > |buff.bytes| {
        return false, virtid;
      }
      var payload := new DataBuffer(buff.bytes[..length]);
      next.Assign(payload);
      buff.Skip(length);
      return true, virtid;
    }
  }

  /** What the command center and the commands do: a command's behaviour depends on how it was created and on
      what it was run on. No command may come of an unknown id. */
  datatype Center<!C> = Center(
    command: (Byte, seq<Byte>) -> Option<C>,
    run: (C, seq<Byte>) -> C,
    finished: C -> bool)

  datatype Event<C> =
    | Created(virtid: Byte, cid: Byte, bytes: seq<Byte>)
    | Ran(virtid: Byte, command: C, bytes: seq<Byte>)

  datatype State<C> = State(commands: map<Byte, C>, events: seq<Event<C>>)

  /** One frame. Without a running command on its stream, the payload starts with a frame that creates one. */
  function Handle<C>(center: Center<C>, s: State<C>, f: Frame): State<C> {
    if f.virtid in s.commands && !center.finished(s.commands[f.virtid]) then
      var c := s.commands[f.virtid];
      State(s.commands[f.virtid := center.run(c, f.payload)], s.events + [Ran(f.virtid, c, f.payload)])
    else
      match FirstFrame(f.payload)
      case None => s
      case Some(n) =>
        var (cid, bytes, rest) := (f.payload[2], f.payload[3..n], f.payload[n..]);
        var events := s.events + [Created(f.virtid, cid, bytes)];
        match center.command(cid, bytes)
        case None => State(s.commands, events)
        case Some(c) =>
          // a command that is finished from the start is run but not kept
          State(if center.finished(c) then s.commands else s.commands[f.virtid := center.run(c, rest)],
                events + [Ran(f.virtid, c, rest)])
  }

  function Handled<C>(center: Center<C>, s: State<C>, frames: seq<Frame>): State<C> {
    if frames == [] then s
    else Handle(center, Handled(center, s, frames[..|frames| - 1]), frames[|frames| - 1])
  }

  lemma HandledOneMore<C>(center: Center<C>, s: State<C>, frames: seq<Frame>, f: Frame)
    ensures Handled(center, s, frames + [f]) == Handle(center, Handled(center, s, frames), f)
  {
    assert (frames + [f])[..|frames|] == frames;
  }

  lemma {:induction false} HandledConcat<C>(center: Center<C>, s: State<C>, fs: seq<Frame>, gs: seq<Frame>)
    ensures Handled(center, s, fs + gs) == Handled(center, Handled(center, s, fs), gs)
  {
    if gs == [] {
      assert fs + gs == fs;
    } else {
      var n := |gs| - 1;
      assert (fs + gs)[..|fs| + n] == fs + gs[..n];
      HandledConcat(center, s, fs, gs[..n]);
    }
  }

  lemma NothingHandled<C>(center: Center<C>, s: State<C>)
    ensures Handled(center, s, Delivered([])) == s
  {
  }

  lemma BufferHandled<C>(center: Center<C>, s: State<C>, done: seq<seq<Byte>>, buffer: seq<Byte>)
    ensures Handled(center, s, Delivered(done + [buffer]))
         == Handled(center, Handled(center, s, Delivered(done)), Parse(buffer))
  {
    DeliveredOneMore(done, buffer);
    HandledConcat(center, s, Delivered(done), Parse(buffer));
  }

  function EventsOf<C>(events: seq<Event<C>>, virtid: Byte): seq<Event<C>> {
    if events == [] then []
    else
      var last := events[|events| - 1];
      EventsOf(events[..|events| - 1], virtid) + if last.virtid == virtid then [last] else []
  }

  function FramesOf(frames: seq<Frame>, virtid: Byte): seq<Frame> {
    if frames == [] then []
    else
      var last := frames[|frames| - 1];
      FramesOf(frames[..|frames| - 1], virtid) + if last.virtid == virtid then [last] else []
  }

  /** Two states that one stream cannot tell apart. */
  ghost predicate SameOn<C>(s: State<C>, t: State<C>, virtid: Byte) {
    && (virtid in s.commands <==> virtid in t.commands)
    && (virtid in s.commands ==> s.commands[virtid] == t.commands[virtid])
    && EventsOf(s.events, virtid) == EventsOf(t.events, virtid)
  }

  lemma EventsOfOneMore<C>(events: seq<Event<C>>, e: Event<C>, virtid: Byte)
    ensures EventsOf(events + [e], virtid) == EventsOf(events, virtid) + if e.virtid == virtid then [e] else []
  {
    assert (events + [e])[..|events|] == events;
  }

  lemma HandleOwn<C>(center: Center<C>, s: State<C>, t: State<C>, f: Frame)
    requires SameOn(s, t, f.virtid)
    ensures SameOn(Handle(center, s, f), Handle(center, t, f), f.virtid)
  {
    hide EventsOf;
    var v := f.virtid;
    if v in s.commands && !center.finished(s.commands[v]) {
      BothAppend(s.events, t.events, Ran(v, s.commands[v], f.payload), v);
    } else if FirstFrame(f.payload).Some? {
      var n := FirstFrame(f.payload).value;
      var created := Event<C>.Created(v, f.payload[2], f.payload[3..n]);
      BothAppend(s.events, t.events, created, v);
      match center.command(f.payload[2], f.payload[3..n])
      case None =>
      case Some(c) =>
        BothAppend(s.events + [created], t.events + [created], Ran(v, c, f.payload[n..]), v);
    }
  }

  lemma BothAppend<C>(xs: seq<Event<C>>, ys: seq<Event<C>>, e: Event<C>, virtid: Byte)
    requires EventsOf(xs, virtid) == EventsOf(ys, virtid)
    ensures EventsOf(xs + [e], virtid) == EventsOf(ys + [e], virtid)
  {
    EventsOfOneMore(xs, e, virtid);
    EventsOfOneMore(ys, e, virtid);
  }

  lemma HandleOther<C>(center: Center<C>, s: State<C>, f: Frame, virtid: Byte)
    requires f.virtid != virtid
    ensures SameOn(Handle(center, s, f), s, virtid)
  {
    hide EventsOf;
    var v := f.virtid;
    if v in s.commands && !center.finished(s.commands[v]) {
      EventsOfOneMore(s.events, Ran(v, s.commands[v], f.payload), virtid);
    } else if FirstFrame(f.payload).Some? {
      var n := FirstFrame(f.payload).value;
      var created := Event<C>.Created(v, f.payload[2], f.payload[3..n]);
      EventsOfOneMore(s.events, created, virtid);
      match center.command(f.payload[2], f.payload[3..n])
      case None =>
      case Some(c) =>
        EventsOfOneMore(s.events + [created], Ran(v, c, f.payload[n..]), virtid);
    }
  }

  /** Multiplexing is transparent: what a stream's commands see, and the command it is left with, is what
      handling its own frames alone would give, whatever the other streams send in between and whatever
      commands they had. */
  lemma {:induction false} StreamsAreIndependent<C>(
    center: Center<C>, s: State<C>, t: State<C>, frames: seq<Frame>, virtid: Byte)
    requires SameOn(s, t, virtid)
    ensures SameOn(Handled(center, s, frames), Handled(center, t, FramesOf(frames, virtid)), virtid)
  {
    if frames != [] {
      var (init, last) := (frames[..|frames| - 1], frames[|frames| - 1]);
      StreamsAreIndependent(center, s, t, init, virtid);
      var before := Handled(center, s, init);
      if last.virtid == virtid {
        HandleOwn(center, before, Handled(center, t, FramesOf(init, virtid)), last);
        HandledOneMore(center, t, FramesOf(init, virtid), last);
      } else {
        HandleOther(center, before, last, virtid);
        assert FramesOf(frames, virtid) == FramesOf(init, virtid);
      }
    }
  }

  // ---- what a command is run on ----

  /** What becomes of a command that is run on these bytes, chunk by chunk. */
  function RunOver<C>(center: Center<C>, c: C, chunks: seq<seq<Byte>>): C {
    if chunks == [] then c else center.run(RunOver(center, c, chunks[..|chunks| - 1]), chunks[|chunks| - 1])
  }

  /** It is unfinished before each of them. */
  predicate StaysUnfinished<C>(center: Center<C>, c: C, chunks: seq<seq<Byte>>) {
    forall k | 0 <= k < |chunks| :: !center.finished(RunOver(center, c, chunks[..k]))
  }

  function RunsOf<C>(center: Center<C>, virtid: Byte, c: C, chunks: seq<seq<Byte>>): seq<Event<C>> {
    seq(|chunks|, k requires 0 <= k < |chunks| => Ran(virtid, RunOver(center, c, chunks[..k]), chunks[k]))
  }

  function Payloads(frames: seq<Frame>): seq<seq<Byte>> {
    seq(|frames|, k requires 0 <= k < |frames| => frames[k].payload)
  }

  lemma PayloadsOneMore(frames: seq<Frame>)
    requires frames != []
    ensures var n := |frames| - 1; Payloads(frames) == Payloads(frames[..n]) + [frames[n].payload]
  {
  }

  lemma RunsOneMore<C>(center: Center<C>, virtid: Byte, c: C, chunks: seq<seq<Byte>>, chunk: seq<Byte>)
    ensures RunsOf(center, virtid, c, chunks + [chunk])
         == RunsOf(center, virtid, c, chunks) + [Ran(virtid, RunOver(center, c, chunks), chunk)]
    ensures RunOver(center, c, chunks + [chunk]) == center.run(RunOver(center, c, chunks), chunk)
    ensures StaysUnfinished(center, c, chunks + [chunk]) ==>
      StaysUnfinished(center, c, chunks) && !center.finished(RunOver(center, c, chunks))
  {
    var more := chunks + [chunk];
    assert more[..|chunks|] == chunks;
    assert forall k | 0 <= k <= |chunks| :: more[..k] == chunks[..k];
  }

  /** A command that does not finish is run on the payload of each frame of its stream, in order, and nothing else
      happens. */
  lemma {:induction false} RunsOnEachPayload<C>(center: Center<C>, s: State<C>, frames: seq<Frame>, virtid: Byte)
    requires virtid in s.commands && StaysUnfinished(center, s.commands[virtid], Payloads(frames))
    requires forall f <- frames :: f.virtid == virtid
    ensures var (t, c) := (Handled(center, s, frames), s.commands[virtid]);
      && t.commands == s.commands[virtid := RunOver(center, c, Payloads(frames))]
      && t.events == s.events + RunsOf(center, virtid, c, Payloads(frames))
  {
    if frames != [] {
      var n := |frames| - 1;
      PayloadsOneMore(frames);
      RunsOneMore(center, virtid, s.commands[virtid], Payloads(frames[..n]), frames[n].payload);
      hide RunsOf, StaysUnfinished, Payloads, RunOver;
      RunsOnEachPayload(center, s, frames[..n], virtid);
    }
  }

  /** The first frame of a stream that has no running command creates one, if it begins with a request; and that one
      is run on what follows the request, and then on the payload of each frame. */
  lemma RunsBehindItsRequest<C>(center: Center<C>, s: State<C>, frames: seq<Frame>, virtid: Byte, n: nat, c: C)
    requires virtid in s.commands ==> center.finished(s.commands[virtid])
    requires frames != [] && (forall f <- frames :: f.virtid == virtid) && FirstFrame(frames[0].payload) == Some(n)
    requires center.command(frames[0].payload[2], frames[0].payload[3..n]) == Some(c)
    requires StaysUnfinished(center, c, [frames[0].payload[n..]] + Payloads(frames[1..]))
    ensures var (t, first) := (Handled(center, s, frames), frames[0].payload);
      var chunks := [first[n..]] + Payloads(frames[1..]);
      && t.commands == s.commands[virtid := RunOver(center, c, chunks)]
      && t.events == s.events + [Created(virtid, first[2], first[3..n])] + RunsOf(center, virtid, c, chunks)
  {
    var (first, rest) := (frames[0].payload, frames[1..]);
    var u := Handle(center, s, frames[0]);
    hide RunsOf, StaysUnfinished, Payloads, RunOver, Handle, Handled, FirstFrame;
    FirstRun(center, virtid, c, first[n..], Payloads(rest));
    CreatedAndRun(center, s, frames[0], n, c);
    FirstHandled(center, s, frames);
    RunsOnEachPayload(center, u, rest, virtid);
  }

  lemma CreatedAndRun<C>(center: Center<C>, s: State<C>, f: Frame, n: nat, c: C)
    requires (f.virtid in s.commands ==> center.finished(s.commands[f.virtid])) && FirstFrame(f.payload) == Some(n)
    requires center.command(f.payload[2], f.payload[3..n]) == Some(c) && !center.finished(c)
    ensures Handle(center, s, f)
         == State(s.commands[f.virtid := center.run(c, f.payload[n..])],
                  s.events + [Created(f.virtid, f.payload[2], f.payload[3..n])] + [Ran(f.virtid, c, f.payload[n..])])
  {
  }

  lemma FirstHandled<C>(center: Center<C>, s: State<C>, frames: seq<Frame>)
    requires frames != []
    ensures Handled(center, s, frames) == Handled(center, Handle(center, s, frames[0]), frames[1..])
  {
    assert [frames[0]] + frames[1..] == frames;
    HandledConcat(center, s, [frames[0]], frames[1..]);
    HandledOneMore(center, s, [], frames[0]);
    assert [] + [frames[0]] == [frames[0]];
  }

  lemma {:induction false} RunOverMore<C>(center: Center<C>, c: C, chunk: seq<Byte>, chunks: seq<seq<Byte>>)
    ensures RunOver(center, c, [chunk] + chunks) == RunOver(center, center.run(c, chunk), chunks)
  {
    var all := [chunk] + chunks;
    if chunks == [] {
      assert all == [chunk] && [chunk][..0] == [];
    } else {
      assert all[..|chunks|] == [chunk] + chunks[..|chunks| - 1];
      RunOverMore(center, c, chunk, chunks[..|chunks| - 1]);
    }
  }

  lemma FirstRun<C>(center: Center<C>, virtid: Byte, c: C, chunk: seq<Byte>, chunks: seq<seq<Byte>>)
    requires StaysUnfinished(center, c, [chunk] + chunks)
    ensures !center.finished(c) && StaysUnfinished(center, center.run(c, chunk), chunks)
    ensures RunOver(center, c, [chunk] + chunks) == RunOver(center, center.run(c, chunk), chunks)
    ensures RunsOf(center, virtid, c, [chunk] + chunks)
         == [Ran(virtid, c, chunk)] + RunsOf(center, virtid, center.run(c, chunk), chunks)
  {
    var all, next := [chunk] + chunks, center.run(c, chunk);
    assert all[..0] == [];
    forall k | 0 <= k <= |chunks| ensures RunOver(center, c, all[..k + 1]) == RunOver(center, next, chunks[..k]) {
      assert all[..k + 1] == [chunk] + chunks[..k];
      RunOverMore(center, c, chunk, chunks[..k]);
    }
    assert all[..|chunks| + 1] == all && chunks[..|chunks|] == chunks;
    forall k | 0 <= k < |chunks| ensures !center.finished(RunOver(center, next, chunks[..k])) {
      assert !center.finished(RunOver(center, c, all[..k + 1]));
    }
  }

  class PeerCommandRunner<C(!new)> {
    const center: Center<C>
    var buffers: seq<seq<Byte>>
    var commands: map<Byte, C>
    /** What the commands were made to do so far. */
    var events: seq<Event<C>>

    constructor (center: Center<C>)
      ensures this.center == center && buffers == [] && Effects() == State(map[], [])
    {
      this.center, buffers, commands, events := center, [], map[], [];
    }

    ghost function Effects(): State<C>
      reads this
    {
      State(commands, events)
    }

    /** Handles the whole frames at the front of the buffer, and drops the rest of it. */
    method ParseAndRun(buffer: seq<Byte>)
      modifies this`commands, this`events
      ensures Effects() == Handled(center, old(Effects()), Parse(buffer))
    {
      var unparsed := new DataBuffer(buffer);
      var packetGrabber := new PacketParser(unparsed);
      var buff := new DataBuffer([]);
      ghost var done := [];
      while |unparsed.bytes| > 0
        invariant fresh(buff) && fresh(unparsed) && buff != unparsed && packetGrabber.buff == unparsed
        invariant Parse(buffer) == done + Parse(unparsed.bytes)
        invariant Effects() == Handled(center, old(Effects()), done)
        decreases |unparsed.bytes|
      {
        hide Handled;
        ghost var rest := unparsed.bytes;
        label before:
        var found, virtid := packetGrabber.GetNext(buff);
        if !found {
          assert Parse(rest) == [];
          break;
        }
        ghost var f := Frame(virtid, buff.bytes);
        HandledOneMore(center, old(Effects()), done, f);
        Regroup(done, [f], Parse(unparsed.bytes));
        done := done + [f];
        HandleFrame(virtid, buff);
      }
      assert Parse(buffer) == done;
    }

    /** One frame: finds or creates the stream's command and runs it on what is left of the payload. */
    method HandleFrame(virtid: Byte, buff: DataBuffer)
      modifies this`commands, this`events, buff
      ensures Effects() == Handle(center, old(Effects()), Frame(virtid, old(buff.bytes)))
      // a command that is not finished is run on the payload
      ensures virtid in old(commands) && !center.finished(old(commands)[virtid]) ==>
        var c := old(commands)[virtid];
        && commands == old(commands)[virtid := center.run(c, old(buff.bytes))]
        && events == old(events) + [Ran(virtid, c, old(buff.bytes))]
      // otherwise the payload has to begin with a request
      ensures (virtid in old(commands) ==> center.finished(old(commands)[virtid])) ==>
        match FirstFrame(old(buff.bytes))
        case None => commands == old(commands) && events == old(events)
        case Some(n) =>
          var (bytes, created) := (old(buff.bytes), old(events) + [Created(virtid, old(buff.bytes)[2], old(buff.bytes)[3..n])]);
          match center.command(bytes[2], bytes[3..n])
          case None => commands == old(commands) && events == created
          case Some(c) =>
            && events == created + [Ran(virtid, c, bytes[n..])]
            && commands == if center.finished(c) then old(commands) else old(commands)[virtid := center.run(c, bytes[n..])]
    {
      if virtid !in commands || center.finished(commands[virtid]) {
        var commandFinder := new PacketParser(buff);
        var commandBuff := new DataBuffer(buff.bytes);
        var found, cid := commandFinder.GetNext(commandBuff);
        if !found {
          buff.Assign(commandBuff);
          return;
        }
        events := events + [Created(virtid, cid, commandBuff.bytes)];
        var command := center.command(cid, commandBuff.bytes);
        if command == None {
          return;
        }
        events := events + [Ran(virtid, command.value, buff.bytes)];
        if !center.finished(command.value) {
          commands := commands[virtid := center.run(command.value, buff.bytes)];
        }
      } else {
        events := events + [Ran(virtid, commands[virtid], buff.bytes)];
        commands := commands[virtid := center.run(commands[virtid], buff.bytes)];
      }
    }

    /** Works off the queue. */
    method DoWork()
      modifies this
      ensures buffers == []
      ensures Effects() == Handled(center, old(Effects()), Delivered(old(buffers)))
    {
      hide Handled, Delivered, Parse;
      ghost var done := [];
      NothingHandled(center, Effects());
      while buffers != []
        invariant done + buffers == old(buffers)
        invariant Effects() == Handled(center, old(Effects()), Delivered(done))
        decreases |buffers|
      {
        var buffer := buffers[0];
        buffers := buffers[1..];
        BufferHandled(center, old(Effects()), done, buffer);
        ParseAndRun(buffer);
        done := done + [buffer];
      }
      assert done == old(buffers);
    }
  }

  function Flattened(chunks: seq<seq<Frame>>): seq<Frame> {
    if chunks == [] then [] else Flattened(chunks[..|chunks| - 1]) + chunks[|chunks| - 1]
  }

  /** Each chunk of frames is one buffer. */
  ghost predicate InBuffers(chunks: seq<seq<Frame>>, buffers: seq<seq<Byte>>) {
    && |buffers| == |chunks|
    && forall i | 0 <= i < |chunks| :: Encodable(chunks[i]) && buffers[i] == EncodeAll(chunks[i])
  }

  lemma {:induction false} BuffersDeliverTheirFrames(chunks: seq<seq<Frame>>, buffers: seq<seq<Byte>>)
    requires InBuffers(chunks, buffers)
    ensures Delivered(buffers) == Flattened(chunks)
  {
    if chunks != [] {
      var n := |chunks| - 1;
      BuffersDeliverTheirFrames(chunks[..n], buffers[..n]);
      ParsesToItself(chunks[n]);
    }
  }

  /** However the frames of all streams are interleaved, and however they are split into buffers, each stream
      fares as if its frames alone had come, all in one. */
  lemma MultiplexingIsTransparent<C>(
    center: Center<C>, s: State<C>, chunks: seq<seq<Frame>>, buffers: seq<seq<Byte>>, virtid: Byte)
    requires InBuffers(chunks, buffers)
    ensures SameOn(Handled(center, s, Delivered(buffers)),
                   Handled(center, s, FramesOf(Flattened(chunks), virtid)), virtid)
  {
    BuffersDeliverTheirFrames(chunks, buffers);
    StreamsAreIndependent(center, s, s, Flattened(chunks), virtid);
  }
}
