/** What becomes of a write whose unfinished file has been dropped under it: nothing, in any continuation, unless
    another command creates a file of that name before it has ended. */
module LostWrites {
  import opened Bytes
  import opened VectorClocks
  import opened FileStores
  import opened WriteCommands
  import opened Calls
  import opened MirrorChains
  import opened Clusters
  import opened ClusterInvariants
  import opened ReplicationSafety

  /** A command that has been started and has no unfinished file, because it is done or has lost it. */
  ghost predicate Lost(s: Cluster, job: nat) {
    && job in s.jobs && s.jobs[job].inlet in s.streams
    && s.jobs[job].command.started && s.jobs[job].command.writer.Some?
    && !HasItsFile(s.jobs[job].command, Home(s, NodeOf(s, job)))
  }

  /** It still is, and the stream that its write was passed on with has not changed. */
  ghost predicate StillLost(s: Cluster, t: Cluster, job: nat)
    requires Lost(s, job)
  {
    && Lost(t, job) && NodeOf(t, job) == NodeOf(s, job)
    && t.jobs[job].command.writer == s.jobs[job].command.writer && t.jobs[job].outlet == s.jobs[job].outlet
    && (s.jobs[job].outlet.Some? && s.jobs[job].outlet.value in s.streams ==>
          var hop := s.jobs[job].outlet.value; hop in t.streams && t.streams[hop] == s.streams[hop])
  }

  /** A step that leaves the job alone, and creates no file of its version at its node while it runs. */
  lemma LeftAlone(s: Cluster, t: Cluster, job: nat)
    requires Lost(s, job) && job in t.jobs && t.jobs[job] == s.jobs[job]
    requires forall k <- s.streams :: k in t.streams && t.streams[k].dst == s.streams[k].dst
    requires s.jobs[job].outlet.Some? && s.jobs[job].outlet.value in s.streams ==>
      var hop := s.jobs[job].outlet.value; t.streams[hop] == s.streams[hop]
    requires var (n, v) := (NodeOf(s, job), s.jobs[job].command.writer.value);
      s.jobs[job].command.InFlight() && v in Home(t, n).partial ==> v in Home(s, n).partial
    ensures StillLost(s, t, job)
  {
  }

  lemma SendingLeavesAlone(s: Cluster, m: Message, out: nat, job: nat)
    requires Lost(s, job) && !m.AckWrite?
    ensures StillLost(s, if m.OfferWrite? then OfferTaken(s, m) else DemandTaken(s, m, out), job)
  {
    hide VersionsOf, Found, Lost, StillLost, HasItsFile;
    LostInlet(s, job);
    LeftAlone(s, if m.OfferWrite? then OfferTaken(s, m) else DemandTaken(s, m, out), job);
  }

  lemma DropLeavesAlone(g: Setting, s: Cluster, m: Message, job: nat)
    requires Lost(s, job) && m.AckWrite?
    ensures StillLost(s, AckTaken(g, s, m), job)
  {
    hide Drops, Lost, StillLost, HasItsFile;
    LostInlet(s, job);
    LeftAlone(s, AckTaken(g, s, m), job);
  }

  lemma MessageLeavesAlone(g: Setting, s: Cluster, m: Message, out: nat, job: nat)
    requires Lost(s, job)
    ensures StillLost(s, Taken(g, s, m, out), job)
  {
    hide Lost, StillLost, OfferTaken, DemandTaken, AckTaken;
    if m.AckWrite? {
      DropLeavesAlone(g, s, m, job);
    } else {
      SendingLeavesAlone(s, m, out, job);
    }
  }

  lemma LostInlet(s: Cluster, job: nat)
    requires Lost(s, job)
    ensures job in s.jobs && s.jobs[job].inlet in s.streams && s.jobs[job].command.writer.Some?
  {
  }

  lemma OfferLeavesAlone(g: Setting, s: Cluster, src: string, dst: string, version: Clock, offload: Option<nat>, job: nat)
    requires Lost(s, job)
    ensures StillLost(s, Offered(g, s, src, dst, version, offload), job)
  {
    hide VersionsOf, IsMine, Locations, Lost, StillLost, HasItsFile;
    LostInlet(s, job);
    LeftAlone(s, Offered(g, s, src, dst, version, offload), job);
  }

  /** Only a command that ends, here because its connection breaks, changes. */
  lemma DismissLeavesAlone(s: Cluster, other: nat, job: nat)
    requires Lost(s, job)
    ensures StillLost(s, Dismissed(s, other), job)
  {
    if other != job {
      hide Lost, StillLost, HasItsFile;
      LostInlet(s, job);
      LeftAlone(s, Dismissed(s, other), job);
    }
  }

  lemma UploadLeavesAlone(s: Cluster, stream: nat, node: string, given: Clock, copies: Copies, data: seq<Byte>, job: nat)
    requires Lost(s, job)
    ensures StillLost(s, Uploaded(s, stream, node, given, copies, data), job)
  {
    hide Lost, StillLost, HasItsFile;
    LostInlet(s, job);
    LeftAlone(s, Uploaded(s, stream, node, given, copies, data), job);
  }

  lemma BeginLeavesAlone(g: Setting, s: Cluster, other: nat, stream: nat, job: nat)
    requires Lost(s, job)
    ensures StillLost(s, Begun(g, s, other, stream), job)
  {
    hide Lost, StillLost, HasItsFile;
    LostInlet(s, job);
    LeftAlone(s, Begun(g, s, other, stream), job);
  }

  lemma QuietStepLeavesAlone(g: Setting, s: Cluster, step: Step, job: nat)
    requires Sane(g) && Lost(s, job) && !step.Feed?
    ensures StillLost(s, Next(g, s, step), job)
  {
    hide Taken, Offered, Dismissed, Uploaded, Begun, Fed, Lost, StillLost, Sane;
    if step.TakeMessage? {
      if step.message in s.messages {
        MessageLeavesAlone(g, s, step.message, step.out, job);
      } else {
        LostInlet(s, job);
        LeftAlone(s, s, job);
      }
    } else if step.SendOffer? {
      OfferLeavesAlone(g, s, step.src, step.dst, step.version, step.offload, job);
    } else if step.Dismiss? {
      DismissLeavesAlone(s, step.job, job);
    } else if step.Begin? {
      BeginLeavesAlone(g, s, step.job, step.stream, job);
    } else {
      UploadLeavesAlone(s, step.stream, step.node, step.given, step.copies, step.data, job);
    }
  }

  /** Its own call does nothing. */
  lemma OwnCallIsIdle(g: Setting, s: Cluster, job: nat, size: nat, link: bool, out: nat, me: string, now: nat)
    requires Sane(g) && Invariant(g, s) && Lost(s, job) && CanFeed(s, job, size) && out !in s.streams
    ensures StillLost(s, Fed(g, s, job, size, link, out, me, now), job)
  {
    hide Invariant, Called, Idles, Worked, Sane, HasItsFile;
    NotBegun(g, s, job, size, me, now);
    var o := Called(g, s, job, size, me, now);
    IdleIs(s, job, size, o);
    IdleEnds(s.jobs[job].command, Home(s, NodeOf(s, job)), o);
    WorkedIs(s, job, size, o);
  }

  lemma IdleEnds(c: Command, d: Directory, o: Outcome)
    requires Idles(c, d, o) && c.started
    ensures o.notices == [] && o.command.started && o.command.writer == c.writer && !HasItsFile(o.command, d)
  {
  }

  lemma NotBegun(g: Setting, s: Cluster, job: nat, size: nat, me: string, now: nat)
    requires Invariant(g, s) && Lost(s, job) && CanFeed(s, job, size)
    ensures Idles(s.jobs[job].command, Home(s, NodeOf(s, job)), Called(g, s, job, size, me, now))
  {
    hide Invariant, Called, Calling, Idles, HasItsFile;
    FeedDoesOneThing(g, s, job, size, me, now);
    hide Ready, Appended, Committed;
  }

  /** The call creates a file of this version at this node. */
  ghost predicate CreatesFile(s: Cluster, job: nat, o: Outcome, node: string, v: Clock)
    requires job in s.jobs && s.jobs[job].inlet in s.streams
  {
    OpensNow(s.jobs[job], o) && NodeOf(s, job) == node && o.command.writer.value == v
  }

  /** Another command's call, before any callback. */
  lemma WorkLeavesAlone(g: Setting, s: Cluster, other: nat, size: nat, o: Outcome, job: nat)
    requires Lost(s, job) && other != job && CanFeed(s, other, size)
    requires var (c, d, chunk) := (s.jobs[other].command, Home(s, NodeOf(s, other)), Chunk(s, other, size));
      Idles(c, d, o) || Creates(c, d, chunk, o) || Grows(c, d, chunk, o)
    ensures StillLost(s, Worked(s, other, size, o), job) <==>
      !(s.jobs[job].command.InFlight() && CreatesFile(s, other, o, NodeOf(s, job), s.jobs[job].command.writer.value))
  {
    hide Idles, Creates, Grows, Worked, VersionsOf, Ready;
    var t := Worked(s, other, size, o);
    var (c, d, chunk) := (s.jobs[other].command, Home(s, NodeOf(s, other)), Chunk(s, other, size));
    WorkedHomes(s, other, size, o);
    if Creates(c, d, chunk, o) {
      CreatesIs(c, d, chunk, o);
      CreatedIs(s, other, size, o);
    } else {
      if Idles(c, d, o) {
        IdleIs(s, other, size, o);
      } else {
        GrowsIs(c, d, chunk, o);
      }
      WorkedIs(s, other, size, o);
    }
    CalledElsewhere(s, t, other, o, job);
  }

  lemma CalledElsewhere(s: Cluster, t: Cluster, other: nat, o: Outcome, job: nat)
    requires Lost(s, job) && other != job && other in s.jobs && s.jobs[other].inlet in s.streams
    requires t.streams == s.streams && job in t.jobs && t.jobs[job] == s.jobs[job]
    requires t.homes == s.homes[NodeOf(s, other) := o.home]
    requires if OpensNow(s.jobs[other], o)
             then o.home.partial.Keys == Home(s, NodeOf(s, other)).partial.Keys + {o.command.writer.value}
             else o.home.partial.Keys == Home(s, NodeOf(s, other)).partial.Keys
    ensures StillLost(s, t, job) <==>
      !(s.jobs[job].command.InFlight() && CreatesFile(s, other, o, NodeOf(s, job), s.jobs[job].command.writer.value))
  {
    hide OpensNow;
  }

  /** Another command's flush, and its callback. */
  lemma AnswerLeavesAlone(g: Setting, s: Cluster, other: nat, size: nat, o: Outcome, link: bool, out: nat, job: nat)
    requires Flushing(g, s, other, size, o, out) && Lost(s, job) && other != job
    ensures StillLost(s, Answered(g, s, other, size, o, link, out), job)
  {
    hide Flushing, JobsFit, JobsApart, Answered, Passes, Touched, StreamsGrow, Recalls, Told, Lost, StillLost, Hop,
      Acks, Given, OpensNow, HasItsFile;
    FlushedIs(g, s, other, size, o, out);
    LostInlet(s, job);
    StreamIsNew(g, s, other, size, o, out);
    JobsAreApart(g, s, other, size, o, out);
    var t, n, v := Answered(g, s, other, size, o, link, out), NodeOf(s, other), s.jobs[other].command.writer.value;
    WasThere(s.jobs[other].command, Home(s, n));
    AnsweredIs(g, s, other, size, o, link, out);
    var outlet := t.jobs[other].outlet;
    AnsweredTouches(g, s, other, size, o, link, out);
    TouchedElsewhere(s, t, n, v);
    CallbackPasses(g, s, other, size, o, link, out);
    NewOutletIsOwn(g, s, other, v, o.notices[0], out, t.streams, outlet);
    PassingGrows(g, s, s.jobs[other], v, o.notices[0], out, t, outlet);
    GrownLeavesAlone(s, t, other, n, v, outlet, job);
  }

  lemma WasThere(c: Command, d: Directory)
    requires HasItsFile(c, d)
    ensures c.writer.Some? && c.writer.value in d.partial
  {
  }

  lemma JobsAreApart(g: Setting, s: Cluster, job: nat, size: nat, o: Outcome, out: nat)
    requires Flushing(g, s, job, size, o, out)
    ensures JobsFit(g, s) && JobsApart(s)
  {
  }

  lemma GrownLeavesAlone(s: Cluster, t: Cluster, other: nat, n: string, v: Clock, outlet: Option<nat>, job: nat)
    requires Lost(s, job) && other != job && job in t.jobs && t.jobs[job] == s.jobs[job]
    requires Touched(s, t, n, v) && v in Home(s, n).partial && StreamsGrow(s, t, outlet)
    requires forall m | m != n :: Home(t, m) == Home(s, m)
    requires outlet.Some? ==> s.jobs[job].outlet != outlet
    ensures StillLost(s, t, job)
  {
    LeftAlone(s, t, job);
  }

  /** The step creates a file of the command's version at its node while the command still runs. */
  ghost predicate Recreates(g: Setting, s: Cluster, step: Step, job: nat)
    requires Lost(s, job)
  {
    && s.jobs[job].command.InFlight()
    && step.Feed? && CanFeed(s, step.job, step.size) && step.out !in s.streams
    && CreatesFile(s, step.job, Called(g, s, step.job, step.size, step.me, step.now),
                   NodeOf(s, job), s.jobs[job].command.writer.value)
  }

  lemma FeedLeavesAlone(
    g: Setting, s: Cluster, other: nat, size: nat, link: bool, out: nat, me: string, now: nat, job: nat)
    requires Sane(g) && Invariant(g, s) && Lost(s, job)
    ensures StillLost(s, Fed(g, s, other, size, link, out, me, now), job)
       <==> !Recreates(g, s, Feed(other, size, link, out, me, now), job)
  {
    hide Invariant, StillLost, Lost, Called, Calling, Sane, HasItsFile, Idles, Creates, Grows, FillsWindow, Commits,
      Flushing;
    LostInlet(s, job);
    if !CanFeed(s, other, size) || out in s.streams {
      LeftAlone(s, s, job);
    } else if other == job {
      OwnCallIsIdle(g, s, job, size, link, out, me, now);
      LostStarted(s, job);
    } else {
      FeedDoesOneThing(g, s, other, size, me, now);
      var (c, d, chunk, o) :=
        (s.jobs[other].command, Home(s, NodeOf(s, other)), Chunk(s, other, size), Called(g, s, other, size, me, now));
      if FillsWindow(c, d, chunk, o) || Commits(c, d, chunk, o) {
        IsFlushing(g, s, other, size, o, out);
        FlushedIs(g, s, other, size, o, out);
        AnswerLeavesAlone(g, s, other, size, o, link, out, job);
        AnsweredIsFed(g, s, other, size, o, link, out, me, now);
      } else {
        NoNoticeYet(s, other, size, o);
        WorkLeavesAlone(g, s, other, size, o, job);
        hide Worked;
      }
    }
  }

  lemma IsFlushing(g: Setting, s: Cluster, job: nat, size: nat, o: Outcome, out: nat)
    requires Sane(g) && Calling(g, s, job, size) && out !in s.streams
    requires var (c, d, chunk) := (s.jobs[job].command, Home(s, NodeOf(s, job)), Chunk(s, job, size));
      FillsWindow(c, d, chunk, o) || Commits(c, d, chunk, o)
    ensures Flushing(g, s, job, size, o, out)
  {
  }

  lemma LostStarted(s: Cluster, job: nat)
    requires Lost(s, job)
    ensures s.jobs[job].command.started
  {
  }

  lemma NoNoticeYet(s: Cluster, job: nat, size: nat, o: Outcome)
    requires CanFeed(s, job, size)
    requires var (c, d, chunk) := (s.jobs[job].command, Home(s, NodeOf(s, job)), Chunk(s, job, size));
      Idles(c, d, o) || Creates(c, d, chunk, o) || Grows(c, d, chunk, o)
    ensures o.notices == []
  {
    hide HasItsFile, Ready, VersionsOf, Appended;
  }

  lemma NextLeavesAlone(g: Setting, s: Cluster, step: Step, job: nat)
    requires Sane(g) && Invariant(g, s) && Lost(s, job)
    ensures StillLost(s, Next(g, s, step), job) <==> !Recreates(g, s, step, job)
  {
    hide Invariant, StillLost, Lost, Fed, Sane, Taken, Offered;
    if step.Feed? {
      hide Recreates;
      FeedLeavesAlone(g, s, step.job, step.size, step.link, step.out, step.me, step.now, job);
    } else {
      hide Next;
      QuietStepLeavesAlone(g, s, step, job);
    }
  }

  /** In every state of every run, a command without its file stays without it in the next step, and the hop that it
      passed its write on with gets no byte, nor its end, if and only if the step does not create a file of its
      version at its node while it runs. */
  lemma LostUnlessRecreated(g: Setting, steps: seq<Step>, step: Step, job: nat)
    requires Sane(g) && AlwaysAgreed(g, steps) && Lost(After(g, steps), job)
    ensures StillLost(After(g, steps), After(g, steps + [step]), job) <==> !Recreates(g, After(g, steps), step, job)
  {
    hide Next, Sane, Invariant, Lost, StillLost, Recreates, AlwaysAgreed;
    assert (steps + [step])[..|steps|] == steps;
    RunKeeps(g, steps);
    NextLeavesAlone(g, After(g, steps), step, job);
  }

  /** And a step that does so does not agree. */
  lemma RecreatingDisagrees(g: Setting, s: Cluster, step: Step, job: nat)
    requires Lost(s, job) && Recreates(g, s, step, job)
    ensures !Agreed(g, s, step)
  {
    hide Called, HasItsFile;
    var n, v := NodeOf(s, job), s.jobs[job].command.writer.value;
    assert WritesAt(s, job, n, v) && step.job != job;
    assert Busy(s, step.job, n, v);
  }

  lemma StillLostOnwards(s: Cluster, t: Cluster, u: Cluster, job: nat)
    requires Lost(s, job) && StillLost(s, t, job) && StillLost(t, u, job)
    ensures StillLost(s, u, job)
  {
    hide HasItsFile;
  }

  /** So in every continuation of every run, a command without its file stays without it, and the hop that it passed
      its write on with never gets another byte, nor its end. */
  lemma {:induction false} LostWritesStayLost(g: Setting, steps: seq<Step>, more: seq<Step>, job: nat)
    requires Sane(g) && AlwaysAgreed(g, steps + more) && Lost(After(g, steps), job)
    ensures StillLost(After(g, steps), After(g, steps + more), job)
  {
    hide Next, Sane, Invariant, Lost, StillLost, Agreed, AlwaysAgreed, Recreates;
    if more == [] {
      assert steps + more == steps;
      LostInlet(After(g, steps), job);
      LeftAlone(After(g, steps), After(g, steps), job);
    } else {
      var k := |more| - 1;
      var before := steps + more[..k];
      assert (steps + more)[..|steps| + k] == before && |steps + more| == |steps| + k + 1;
      AgreedBefore(g, steps + more);
      LostWritesStayLost(g, steps, more[..k], job);
      RunKeeps(g, before);
      IsLost(After(g, steps), After(g, before), job);
      if Recreates(g, After(g, before), more[k], job) {
        RecreatingDisagrees(g, After(g, before), more[k], job);
      }
      NextLeavesAlone(g, After(g, before), more[k], job);
      StillLostOnwards(After(g, steps), After(g, before), After(g, steps + more), job);
    }
  }

  lemma IsLost(s: Cluster, t: Cluster, job: nat)
    requires Lost(s, job) && StillLost(s, t, job)
    ensures Lost(t, job)
  {
  }

  /** So it is with the writes in flight at a node that drops the key: whatever comes after the drop. */
  lemma DroppedWritesStayLost(g: Setting, steps: seq<Step>, m: Message, out: nat, more: seq<Step>, job: nat)
    requires Sane(g) && AlwaysAgreed(g, steps + [TakeMessage(m, out)] + more)
    requires m in After(g, steps).messages && m.AckWrite? && Drops(g, After(g, steps), m)
    requires job in After(g, steps).jobs && After(g, steps).jobs[job].command.InFlight()
    requires After(g, steps).jobs[job].inlet in After(g, steps).streams && NodeOf(After(g, steps), job) == m.dst
    ensures var dropped := steps + [TakeMessage(m, out)];
      Lost(After(g, dropped), job) && StillLost(After(g, dropped), After(g, dropped + more), job)
  {
    var dropped := steps + [TakeMessage(m, out)];
    assert dropped[..|steps|] == steps;
    assert Lost(After(g, dropped), job) by {
      hide Drops;
    }
    hide After, Lost, StillLost, Drops, AlwaysAgreed;
    LostWritesStayLost(g, dropped, more, job);
  }
}
