/** Both ends of a connection between peers: writes on many streams at one, commands at the other. */
module PeerConnections {
  import opened Bytes
  import opened Frames
  import opened ConnectionWriters
  import opened CommandRunners

  lemma {:induction false} PayloadOfOwnFrames(frames: seq<Frame>, virtid: Byte)
    ensures PayloadOf(FramesOf(frames, virtid), virtid) == PayloadOf(frames, virtid)
  {
    if frames != [] {
      var init, last := frames[..|frames| - 1], frames[|frames| - 1];
      PayloadOfOwnFrames(init, virtid);
      PayloadOfConcat(FramesOf(init, virtid), if last.virtid == virtid then [last] else [], virtid);
      assert last.virtid == virtid ==> PayloadOf([last], virtid) == last.payload by {
        assert [last][..0] == [];
      }
    }
  }

  function Concat(chunks: seq<seq<Byte>>): seq<Byte> {
    if chunks == [] then [] else Concat(chunks[..|chunks| - 1]) + chunks[|chunks| - 1]
  }

  lemma {:induction false} OwnPayloads(frames: seq<Frame>, virtid: Byte)
    requires forall f <- frames :: f.virtid == virtid
    ensures PayloadOf(frames, virtid) == Concat(Payloads(frames))
  {
    if frames != [] {
      OwnPayloads(frames[..|frames| - 1], virtid);
      PayloadsOneMore(frames);
      var n := |frames| - 1;
      assert Payloads(frames)[..n] == Payloads(frames[..n]);
    }
  }

  lemma {:induction false} ConcatFirst(chunk: seq<Byte>, chunks: seq<seq<Byte>>)
    ensures Concat([chunk] + chunks) == chunk + Concat(chunks)
  {
    var all := [chunk] + chunks;
    if chunks == [] {
      assert all == [chunk] && [chunk][..0] == [];
    } else {
      assert all[..|chunks|] == [chunk] + chunks[..|chunks| - 1];
      ConcatFirst(chunk, chunks[..|chunks| - 1]);
    }
  }

  lemma {:induction false} AllOwn(frames: seq<Frame>, virtid: Byte)
    ensures forall f <- FramesOf(frames, virtid) :: f.virtid == virtid
  {
    if frames != [] {
      AllOwn(frames[..|frames| - 1], virtid);
    }
  }

  /** The stream has this command, which was run on exactly these chunks, in order. */
  ghost predicate WasRunOn<C>(
    center: Center<C>, s: State<C>, t: State<C>, virtid: Byte, created: seq<Event<C>>, c: C, chunks: seq<seq<Byte>>)
  {
    && virtid in t.commands && t.commands[virtid] == RunOver(center, c, chunks)
    && EventsOf(t.events, virtid) == EventsOf(s.events, virtid) + created + RunsOf(center, virtid, c, chunks)
  }

  /** A command that the stream has, and that does not finish, is run on what was accepted for the stream, but for what
      is left behind; and so is one that the first frame creates, on what was accepted behind its request. */
  ghost predicate RunsOnAccepted<C(!new)>(
    center: Center<C>, s: State<C>, t: State<C>, virtid: Byte, own: seq<Frame>, left: seq<Byte>, accepted: seq<Byte>)
  {
    && (virtid in s.commands && StaysUnfinished(center, s.commands[virtid], Payloads(own)) ==>
          && WasRunOn(center, s, t, virtid, [], s.commands[virtid], Payloads(own))
          && Concat(Payloads(own)) + left == accepted)
    && (forall n, c |
          && (virtid in s.commands ==> center.finished(s.commands[virtid]))
          && own != [] && FirstFrame(own[0].payload) == Some(n)
          && center.command(own[0].payload[2], own[0].payload[3..n]) == Some(c)
          && StaysUnfinished(center, c, [own[0].payload[n..]] + Payloads(own[1..])) ::
          var (first, chunks) := (own[0].payload, [own[0].payload[n..]] + Payloads(own[1..]));
          && WasRunOn(center, s, t, virtid, [Created(virtid, first[2], first[3..n])], c, chunks)
          && first[..n] + Concat(chunks) + left == accepted)
  }

  lemma EventsBehind<C>(events: seq<Event<C>>, more: seq<Event<C>>, virtid: Byte)
    requires forall e <- more :: e.virtid == virtid
    ensures EventsOf(events + more, virtid) == EventsOf(events, virtid) + more
  {
    if more == [] {
      assert events + more == events;
    } else {
      var n := |more| - 1;
      assert (events + more)[..|events| + n] == events + more[..n];
      EventsBehind(events, more[..n], virtid);
    }
  }

  lemma RunOnAll<C>(center: Center<C>, s: State<C>, t: State<C>, virtid: Byte, own: seq<Frame>)
    requires (forall f <- own :: f.virtid == virtid) && SameOn(t, Handled(center, s, own), virtid)
    requires virtid in s.commands && StaysUnfinished(center, s.commands[virtid], Payloads(own))
    ensures WasRunOn(center, s, t, virtid, [], s.commands[virtid], Payloads(own))
  {
    hide Handled, EventsOf, RunOver, StaysUnfinished, Payloads;
    RunsOnEachPayload(center, s, own, virtid);
    EventsBehind(s.events, RunsOf(center, virtid, s.commands[virtid], Payloads(own)), virtid);
  }

  lemma RunBehindRequest<C>(center: Center<C>, s: State<C>, t: State<C>, virtid: Byte, own: seq<Frame>, n: nat, c: C)
    requires (forall f <- own :: f.virtid == virtid) && SameOn(t, Handled(center, s, own), virtid)
    requires virtid in s.commands ==> center.finished(s.commands[virtid])
    requires own != [] && FirstFrame(own[0].payload) == Some(n)
    requires center.command(own[0].payload[2], own[0].payload[3..n]) == Some(c)
    requires StaysUnfinished(center, c, [own[0].payload[n..]] + Payloads(own[1..]))
    ensures var (first, chunks) := (own[0].payload, [own[0].payload[n..]] + Payloads(own[1..]));
      WasRunOn(center, s, t, virtid, [Created(virtid, first[2], first[3..n])], c, chunks)
  {
    var (first, chunks) := (own[0].payload, [own[0].payload[n..]] + Payloads(own[1..]));
    var created := Event<C>.Created(virtid, first[2], first[3..n]);
    hide Handled, EventsOf, RunOver, StaysUnfinished, Payloads;
    RunsBehindItsRequest(center, s, own, virtid, n, c);
    EventsBehind(s.events, [created], virtid);
    EventsBehind(s.events + [created], RunsOf(center, virtid, c, chunks), virtid);
  }

  lemma PayloadBehindRequest(own: seq<Frame>, virtid: Byte, n: nat)
    requires own != [] && (forall f <- own :: f.virtid == virtid) && n <= |own[0].payload|
    ensures own[0].payload[..n] + Concat([own[0].payload[n..]] + Payloads(own[1..])) == PayloadOf(own, virtid)
  {
    var first := own[0].payload;
    OwnPayloads(own, virtid);
    assert Payloads(own) == [first] + Payloads(own[1..]);
    ConcatFirst(first, Payloads(own[1..]));
    ConcatFirst(first[n..], Payloads(own[1..]));
  }

  lemma AcceptedIsRunOn<C(!new)>(
    center: Center<C>, s: State<C>, t: State<C>, virtid: Byte, own: seq<Frame>, left: seq<Byte>, accepted: seq<Byte>)
    requires (forall f <- own :: f.virtid == virtid) && SameOn(t, Handled(center, s, own), virtid)
    requires PayloadOf(own, virtid) + left == accepted
    ensures RunsOnAccepted(center, s, t, virtid, own, left, accepted)
  {
    hide Handled, SameOn, WasRunOn, StaysUnfinished, RunOver;
    if virtid in s.commands && StaysUnfinished(center, s.commands[virtid], Payloads(own)) {
      RunOnAll(center, s, t, virtid, own);
      OwnPayloads(own, virtid);
    }
    forall n, c |
      && (virtid in s.commands ==> center.finished(s.commands[virtid]))
      && own != [] && FirstFrame(own[0].payload) == Some(n)
      && center.command(own[0].payload[2], own[0].payload[3..n]) == Some(c)
      && StaysUnfinished(center, c, [own[0].payload[n..]] + Payloads(own[1..]))
      ensures var (first, chunks) := (own[0].payload, [own[0].payload[n..]] + Payloads(own[1..]));
        && WasRunOn(center, s, t, virtid, [Created(virtid, first[2], first[3..n])], c, chunks)
        && first[..n] + Concat(chunks) + left == accepted
    {
      RunBehindRequest(center, s, t, virtid, own, n, c);
      PayloadBehindRequest(own, virtid, n);
    }
  }

  /** A run of calls at one end, whatever becomes of each send, and the work it makes at the other: each stream's
      commands fare as if its frames had come alone, and what these frames carry, followed by what is still
      buffered for the stream, is what the calls reported as accepted. A command that does not finish is run on just
      that. */
  method Serve<C(!new)>(sock: Socket, packetsize: nat, calls: seq<Call>, runner: PeerCommandRunner<C>)
    returns (writer: BufferedConnectionWriter, counts: seq<nat>)
    requires 4 <= packetsize <= SHORT + 1 && sock.arrived == [] && runner.buffers == []
    modifies sock, runner
    ensures |counts| == |calls| && CountsFit(calls, counts) && writer.Valid() && runner.buffers == []
    ensures forall v: Byte :: var own := FramesOf(Delivered(sock.arrived), v);
        && SameOn(runner.Effects(), Handled(runner.center, old(runner.Effects()), own), v)
        && PayloadOf(own, v) + PayloadOf(writer.pending, v) == Accepted(calls, counts, v)
    ensures forall v: Byte ::
        RunsOnAccepted(runner.center, old(runner.Effects()), runner.Effects(), v, FramesOf(Delivered(sock.arrived), v),
                       PayloadOf(writer.pending, v), Accepted(calls, counts, v))
  {
    hide Handled, SameOn, PayloadOf, FramesOf, Delivered, Accepted, RunsOnAccepted;
    ghost var start := runner.Effects();
    writer, counts := Converse(sock, packetsize, calls);
    runner.buffers := sock.arrived;
    runner.DoWork();
    ghost var frames := Delivered(sock.arrived);
    forall v: Byte
      ensures SameOn(runner.Effects(), Handled(runner.center, start, FramesOf(frames, v)), v)
      ensures PayloadOf(FramesOf(frames, v), v) + PayloadOf(writer.pending, v) == Accepted(calls, counts, v)
      ensures RunsOnAccepted(runner.center, start, runner.Effects(), v, FramesOf(frames, v),
                             PayloadOf(writer.pending, v), Accepted(calls, counts, v))
    {
      SameOnItself(start, v);
      StreamsAreIndependent(runner.center, start, start, frames, v);
      PayloadOfOwnFrames(frames, v);
      PayloadOfConcat(frames, writer.pending, v);
      AllOwn(frames, v);
      AcceptedIsRunOn(runner.center, start, runner.Effects(), v, FramesOf(frames, v),
                      PayloadOf(writer.pending, v), Accepted(calls, counts, v));
    }
  }

  lemma SameOnItself<C>(s: State<C>, virtid: Byte)
    ensures SameOn(s, s, virtid)
  {
  }
}
