/** What holds in every state that a cluster can reach, as long as no file is created under a version that stands
    for another write, or that a command at the node is still writing. */
module ReplicationSafety {
  import opened Bytes
  import opened VectorClocks
  import opened FileStores
  import opened WriteCommands
  import opened Calls
  import opened MirrorChains
  import opened Clusters
  import opened ClusterInvariants
  import SkewCorrectors

  /** In every state of every run, for each write that a client was told is committed, some node has all of that
      version, with the bytes that this client sent, or all of a newer one. */
  lemma NoCommittedWriteIsLost(g: Setting, steps: seq<Step>, w: Write)
    requires Sane(g) && AlwaysAgreed(g, steps) && w in After(g, steps).committed
    ensures var s := After(g, steps);
      exists n, z :: z in Home(s, n).done && AtMost(w.version, z) && z in s.written && Home(s, n).done[z].data == s.written[z]
        && (z == w.version ==> Home(s, n).done[z].data == w.contents)
  {
    RunKeeps(g, steps);
    var s := After(g, steps);
    hide Invariant, After, AlwaysAgreed, Sane;
    assert Covered(s);
    var n :| Covers(s, Home(s, n).done, w.version);
  }

  /** In every state of every run, what a node has committed was committed by a client's write too, and is the end of
      its contents: all of them exactly if it has their size. */
  lemma EveryCopyIsATail(g: Setting, steps: seq<Step>, n: string, v: Clock)
    requires Sane(g) && AlwaysAgreed(g, steps) && v in Home(After(g, steps), n).done
    ensures var (s, data) := (After(g, steps), Home(After(g, steps), n).done[v].data);
      && v in s.written && Write(v, s.written[v]) in s.committed && TailOf(data, s.written[v])
      && (data == s.written[v] <==> |data| == |s.written[v]|)
  {
    RunKeeps(g, steps);
    hide Invariant, After, AlwaysAgreed, Sane;
    HomeOf(After(g, steps), n);
  }

  lemma SameTails(x: seq<Byte>, y: seq<Byte>, whole: seq<Byte>)
    requires TailOf(x, whole) && TailOf(y, whole)
    ensures x == y <==> |x| == |y|
  {
  }

  /** Two nodes have the same contents of a version exactly if they have as much of it. */
  lemma CopiesAgreeIffSizesDo(g: Setting, steps: seq<Step>, a: string, b: string, v: Clock)
    requires Sane(g) && AlwaysAgreed(g, steps)
    requires v in Home(After(g, steps), a).done && v in Home(After(g, steps), b).done
    ensures var (x, y) := (Home(After(g, steps), a).done[v].data, Home(After(g, steps), b).done[v].data);
      x == y <==> |x| == |y|
  {
    hide After, AlwaysAgreed, Sane, TailOf;
    EveryCopyIsATail(g, steps, a, v);
    EveryCopyIsATail(g, steps, b, v);
    SameTails(Home(After(g, steps), a).done[v].data, Home(After(g, steps), b).done[v].data, After(g, steps).written[v]);
  }

  /** In every state of every run, a node drops the key on an acknowledgement only if it is none of the version's
      locations and has committed exactly the acknowledged version, in the acknowledged size, and the node that
      acknowledged it is nearer to the key. If that is all of the version, then some node as near as that one has all
      of it, or it is superseded; and if the node that acknowledged it is a location of all newer versions as well, it
      is that one that has committed all of it, or a newer version. */
  lemma DropsOnlyWhatIsKept(g: Setting, steps: seq<Step>, m: Message)
    requires Sane(g) && AlwaysAgreed(g, steps)
    requires m in After(g, steps).messages && m.AckWrite? && Drops(g, After(g, steps), m)
    ensures var (s, d) := (After(g, steps), Home(After(g, steps), m.dst));
      && m.version in s.written && m.dst !in Locations(g, Asked(s, m.version)) && Rank(g, m.src) < Rank(g, m.dst)
      && d.done.Keys == {m.version} && |d.done[m.version].data| == m.size
      && (d.done[m.version].data == s.written[m.version] ==>
            && KeptUpTo(g, s, Rank(g, m.src), m.version)
            && (Settled(g, s, m.src, m.version) ==> Keeps(s, Home(s, m.src).done, m.version)))
  {
    RunKeeps(g, steps);
    hide Invariant, After, AlwaysAgreed, Sane, Drops;
    DropIsCovered(g, After(g, steps), m);
  }

  /** An acknowledgement of all of a version comes only from a node on the ring. Some node as near to the key has all
      of it, or it is superseded, and a location of all newer versions has committed all of it itself, or a newer one:
      in every state of every run, and however long the acknowledgement has been under way. */
  lemma FullAcksAreKept(g: Setting, steps: seq<Step>, m: Message)
    requires Sane(g) && AlwaysAgreed(g, steps) && m in After(g, steps).messages && m.AckWrite?
    requires m.version in After(g, steps).written && m.size == |After(g, steps).written[m.version]|
    ensures var s := After(g, steps);
      && Rank(g, m.src) < |g.ring| && KeptUpTo(g, s, Rank(g, m.src), m.version)
      && (Settled(g, s, m.src, m.version) ==> Keeps(s, Home(s, m.src).done, m.version))
  {
    RunKeeps(g, steps);
    hide Invariant, After, AlwaysAgreed, Sane, KeptUpTo, Settled, Keeps;
    assert MessagesFit(g, After(g, steps));
    assert MessageFits(g, After(g, steps), m);
  }

  // ---- locations ----

  lemma AnsweredRemembers(g: Setting, s: Cluster, job: nat, size: nat, o: Outcome, link: bool, out: nat)
    requires Flushing(g, s, job, size, o, out)
    ensures var t := Answered(g, s, job, size, o, link, out); Recalls(s, t) && Remembers(g, s, t)
  {
    hide Flushing, Answered, HomesFit, Committed, Consistent, TouchesOnly, WritesAt, Remembers, HasItsFile, OpensNow,
      Recalls;
    FlushedIs(g, s, job, size, o, out);
    var t, n, v := Answered(g, s, job, size, o, link, out), NodeOf(s, job), s.jobs[job].command.writer.value;
    AnsweredRecalls(g, s, job, size, o, link, out);
    AnsweredTouches(g, s, job, size, o, link, out);
    TouchedElsewhere(s, t, n, v);
    if o.notices[0].isComplete {
      assert Closing(g, s, job, size, o, out);
      ClosedFile(g, s, job, size, o, out);
      CommitRemembers(g, s, t, n, v);
    } else {
      WindowIsNotAll(g, s, job, size, o, out);
      SameDoneRemembers(g, s, t);
    }
  }

  /** A call that flushes nothing: the outcome's part. */
  ghost predicate Quiet(s: Cluster, job: nat, size: nat, o: Outcome)
    requires CanFeed(s, job, size)
  {
    var (c, d, chunk) := (s.jobs[job].command, Home(s, NodeOf(s, job)), Chunk(s, job, size));
    Idles(c, d, o) || (Creates(c, d, chunk, o) && Agrees(s, job, o.command.writer.value)) || Grows(c, d, chunk, o)
  }

  lemma WorkedRecalls(g: Setting, s: Cluster, job: nat, size: nat, o: Outcome)
    requires Calling(g, s, job, size) && Quiet(s, job, size, o)
    ensures Recalls(s, Worked(s, job, size, o)) && o.home.done == Home(s, NodeOf(s, job)).done
  {
    hide HomesFit, JobsFit, JobsApart, StreamsFit, OwnFiles, Idles, Creates, Grows, Agrees, Worked, HasItsFile, Ready;
    var (c, d, chunk) := (s.jobs[job].command, Home(s, NodeOf(s, job)), Chunk(s, job, size));
    if Creates(c, d, chunk, o) {
      CreatesIs(c, d, chunk, o);
      if Agrees(s, job, o.command.writer.value) {
        CreateRecalls(g, s, job, size, o);
      }
    }
    if Idles(c, d, o) {
      IdleIs(s, job, size, o);
    } else if Grows(c, d, chunk, o) {
      GrowsIs(c, d, chunk, o);
    }
    if !OpensNow(s.jobs[job], o) {
      WorkedIs(s, job, size, o);
      SameRecord(s, Worked(s, job, size, o));
    }
  }

  lemma WorkedHomes(s: Cluster, job: nat, size: nat, o: Outcome)
    requires CanFeed(s, job, size)
    ensures Worked(s, job, size, o).homes == s.homes[NodeOf(s, job) := o.home]
  {
    hide Wrote, OpensNow;
  }

  lemma WorkedRemembers(g: Setting, s: Cluster, job: nat, size: nat, o: Outcome)
    requires Calling(g, s, job, size) && Quiet(s, job, size, o)
    ensures var t := Worked(s, job, size, o); Recalls(s, t) && Remembers(g, s, t)
  {
    hide HomesFit, JobsFit, JobsApart, StreamsFit, OwnFiles, Quiet, Remembers, Recalls, Worked;
    WorkedRecalls(g, s, job, size, o);
    WorkedHomes(s, job, size, o);
    assert forall m :: Home(Worked(s, job, size, o), m).done == Home(s, m).done;
    SameDoneRemembers(g, s, Worked(s, job, size, o));
  }

  lemma FedRemembers(g: Setting, s: Cluster, job: nat, size: nat, link: bool, out: nat, me: string, now: nat)
    requires Sane(g) && Invariant(g, s) && Agreed(g, s, Feed(job, size, link, out, me, now))
    ensures var t := Fed(g, s, job, size, link, out, me, now); Recalls(s, t) && Remembers(g, s, t)
  {
    hide HomesFit, StreamsFit, JobsFit, JobsApart, OwnFiles, MessagesFit, Covered, Remembers, Recalls, Agrees, Called,
      Calling,
      Idles, Creates, Grows, FillsWindow, Commits;
    if CanFeed(s, job, size) && out !in s.streams {
      FeedDoesOneThing(g, s, job, size, me, now);
      var (c, d, chunk, o) :=
        (s.jobs[job].command, Home(s, NodeOf(s, job)), Chunk(s, job, size), Called(g, s, job, size, me, now));
      if FillsWindow(c, d, chunk, o) || Commits(c, d, chunk, o) {
        assert Flushing(g, s, job, size, o, out);
        hide Flushing;
        AnsweredRemembers(g, s, job, size, o, link, out);
        AnsweredIsFed(g, s, job, size, o, link, out, me, now);
      } else {
        QuietIsWorked(g, s, job, size, o, link, out, me, now);
        WorkedRemembers(g, s, job, size, o);
      }
    } else {
      SameRemembers(g, s);
    }
  }

  lemma SameRemembers(g: Setting, s: Cluster)
    requires Invariant(g, s)
    ensures Recalls(s, s) && Remembers(g, s, s)
  {
    hide HomesFit, Recalls, Remembers;
    SameRecord(s, s);
    SameDoneRemembers(g, s, s);
  }

  lemma QuietIsWorked(
    g: Setting, s: Cluster, job: nat, size: nat, o: Outcome, link: bool, out: nat, me: string, now: nat)
    requires CanFeed(s, job, size) && out !in s.streams && o == Called(g, s, job, size, me, now)
    requires Agreed(g, s, Feed(job, size, link, out, me, now))
    requires var (c, d, chunk) := (s.jobs[job].command, Home(s, NodeOf(s, job)), Chunk(s, job, size));
      Idles(c, d, o) || Creates(c, d, chunk, o) || Grows(c, d, chunk, o)
    ensures Quiet(s, job, size, o) && Fed(g, s, job, size, link, out, me, now) == Worked(s, job, size, o)
  {
    hide Called, Worked, Agrees, HasItsFile, Ready, VersionsOf, Appended;
  }

  lemma AnsweredIsFed(
    g: Setting, s: Cluster, job: nat, size: nat, o: Outcome, link: bool, out: nat, me: string, now: nat)
    requires Flushing(g, s, job, size, o, out) && o == Called(g, s, job, size, me, now)
    ensures Fed(g, s, job, size, link, out, me, now) == Answered(g, s, job, size, o, link, out)
  {
    hide Flushing, Called, Worked, CalledBack, Contents, OpensNow, HasItsFile;
    FlushedIs(g, s, job, size, o, out);
    StreamIsNew(g, s, job, size, o, out);
  }

  lemma StreamIsNew(g: Setting, s: Cluster, job: nat, size: nat, o: Outcome, out: nat)
    requires Flushing(g, s, job, size, o, out)
    ensures out !in s.streams
  {
  }

  lemma QuietMessage(g: Setting, s: Cluster, m: Message, out: nat)
    requires !m.AckWrite?
    ensures SameFiles(s, Taken(g, s, m, out))
  {
    hide VersionsOf, Found, DemandTaken, OfferTaken;
    if m.OfferWrite? {
      QuietDemand(s, m);
    } else {
      QuietSending(s, m, out);
    }
  }

  lemma QuietDemand(s: Cluster, m: Message)
    requires m.OfferWrite?
    ensures SameFiles(s, OfferTaken(s, m))
  {
    hide VersionsOf;
  }

  lemma QuietSending(s: Cluster, m: Message, out: nat)
    requires m.DemandWrite?
    ensures SameFiles(s, DemandTaken(s, m, out))
  {
    hide Found, Mirrors;
  }

  lemma QuietOffer(g: Setting, s: Cluster, src: string, dst: string, version: Clock, offload: Option<nat>)
    ensures SameFiles(s, Offered(g, s, src, dst, version, offload))
  {
    hide VersionsOf, IsMine, Locations;
  }

  lemma QuietStep(g: Setting, s: Cluster, step: Step)
    requires Sane(g) && !step.Feed? && !(step.TakeMessage? && step.message.AckWrite?)
    ensures SameFiles(s, Next(g, s, step))
  {
    hide Sane, Taken, Offered, Begun, Dismissed, Uploaded, Fed;
    match step
    case Upload(stream, node, given, copies, data) => QuietUpload(s, stream, node, given, copies, data);
    case Begin(job, stream) => QuietJobs(g, s, job, stream);
    case Dismiss(job) => QuietJobs(g, s, job, 0);
    case SendOffer(src, dst, version, offload) => QuietOffer(g, s, src, dst, version, offload);
    case TakeMessage(m, out) => QuietMessage(g, s, m, out);
  }

  lemma QuietUpload(s: Cluster, stream: nat, node: string, given: Clock, copies: Copies, data: seq<Byte>)
    ensures SameFiles(s, Uploaded(s, stream, node, given, copies, data))
  {
  }

  lemma QuietJobs(g: Setting, s: Cluster, job: nat, stream: nat)
    ensures SameFiles(s, Begun(g, s, job, stream)) && SameFiles(s, Dismissed(s, job))
  {
  }

  lemma AckRemembers(g: Setting, s: Cluster, m: Message)
    requires HomesFit(s) && MessagesFit(g, s) && m in s.messages && m.AckWrite?
    ensures var t := AckTaken(g, s, m); Recalls(s, t) && Remembers(g, s, t)
  {
    hide HomesFit, MessagesFit, Drops, Keeps, KeptUpTo, Settled, Recalls;
    var t := AckTaken(g, s, m);
    SameRecord(s, t);
    if Drops(g, s, m) {
      forall r: nat, v | v in s.written && KeptUpTo(g, s, r, v) ensures KeptUpTo(g, t, r, v) {
        DropRemembersUpTo(g, s, m, r, v);
      }
      forall n, v | Settled(g, t, n, v) && Keeps(s, Home(s, n).done, v) ensures Keeps(t, Home(t, n).done, v) {
        DropRemembersAt(g, s, m, n, v);
      }
    }
  }

  /** A step forgets nothing that was promised. */
  lemma NextRemembers(g: Setting, s: Cluster, step: Step)
    requires Sane(g) && Invariant(g, s) && Agreed(g, s, step)
    ensures var t := Next(g, s, step); Recalls(s, t) && Remembers(g, s, t)
  {
    hide HomesFit, StreamsFit, JobsFit, JobsApart, OwnFiles, MessagesFit, Covered, Sane, Agreed, Recalls, Remembers,
      Taken;
    if step.Feed? {
      FedRemembers(g, s, step.job, step.size, step.link, step.out, step.me, step.now);
    } else if step.TakeMessage? && step.message.AckWrite? {
      if step.message in s.messages {
        TakenIsAck(g, s, step.message, step.out);
        AckRemembers(g, s, step.message);
      } else {
        SameRemembers(g, s);
      }
    } else {
      QuietStep(g, s, step);
      hide Next;
      SameRecord(s, Next(g, s, step));
      SameDoneRemembers(g, s, Next(g, s, step));
    }
  }

  lemma TakenIsAck(g: Setting, s: Cluster, m: Message, out: nat)
    requires m.AckWrite?
    ensures Taken(g, s, m, out) == AckTaken(g, s, m)
  {
  }

  lemma AgreedBefore(g: Setting, steps: seq<Step>)
    requires Sane(g) && AlwaysAgreed(g, steps) && steps != []
    ensures AlwaysAgreed(g, steps[..|steps| - 1]) && Agreed(g, After(g, steps[..|steps| - 1]), steps[|steps| - 1])
  {
    hide Agreed, After;
  }

  /** In every run, a location of a version and of all newer ones never forgets: a version that it has committed with
      all its contents stays there, or a newer one does. */
  lemma {:induction false} LocationsNeverForget(g: Setting, steps: seq<Step>, more: seq<Step>, n: string, v: Clock)
    requires Sane(g) && AlwaysAgreed(g, steps + more) && Settled(g, After(g, steps + more), n, v)
    requires Keeps(After(g, steps), Home(After(g, steps), n).done, v)
    ensures Keeps(After(g, steps + more), Home(After(g, steps + more), n).done, v)
  {
    hide Next, Sane, Invariant, Keeps, Home, Agreed, AlwaysAgreed, Settled, Recalls;
    if more == [] {
      assert steps + more == steps;
    } else {
      var k := |more| - 1;
      var before := steps + more[..k];
      assert (steps + more)[..|steps| + k] == before && |steps + more| == |steps| + k + 1;
      AgreedBefore(g, steps + more);
      RunKeeps(g, before);
      NextRemembers(g, After(g, before), more[k]);
      WasSettled(g, After(g, before), After(g, steps + more), n, v);
      LocationsNeverForget(g, steps, more[..k], n, v);
    }
  }

  // ---- writes whose file is gone ----

  /** A call of a running command whose file is gone changes nothing but the command: nobody is told anything, and
      nothing is passed on or committed. At the end of the stream the command has failed. */
  lemma NothingComesOfALostFile(
    g: Setting, s: Cluster, job: nat, size: nat, link: bool, out: nat, me: string, now: nat)
    requires Sane(g) && Invariant(g, s) && CanFeed(s, job, size) && out !in s.streams
    requires s.jobs[job].command.InFlight()
    requires s.jobs[job].command.writer.value !in Home(s, NodeOf(s, job)).partial
    ensures var t := Fed(g, s, job, size, link, out, me, now);
      && t.streams == s.streams && t.messages == s.messages && t.written == s.written && t.committed == s.committed
      && (forall n :: Home(t, n) == Home(s, n))
      && (size == 0 ==> t.jobs[job].command.finished && !Called(g, s, job, size, me, now).ok)
  {
    hide HomesFit, StreamsFit, JobsFit, JobsApart, OwnFiles, MessagesFit, Covered, Called, Consistent, Ran, Ready,
      Calling,
      Idles, Creates, Grows, FillsWindow, Commits, Worked;
    FeedDoesOneThing(g, s, job, size, me, now);
    JobOf(g, s, job);
    HomeOf(s, NodeOf(s, job));
    CalledAsRan(g, s, job, size, me, now);
    var (c, d, chunk) := (s.jobs[job].command, Home(s, NodeOf(s, job)), Chunk(s, job, size));
    CommitsIffItsFileIsThere(g.hash, c, d, chunk, Surroundings(false, me, now));
    NoFileIdles(c, d, chunk, Called(g, s, job, size, me, now));
    IdleIs(s, job, size, Called(g, s, job, size, me, now));
    WorkedIs(s, job, size, Called(g, s, job, size, me, now));
  }

  lemma NoFileIdles(c: Command, d: Directory, chunk: seq<Byte>, o: Outcome)
    requires c.InFlight() && c.writer.value !in d.partial
    requires Idles(c, d, o) || Creates(c, d, chunk, o) || Grows(c, d, chunk, o) || FillsWindow(c, d, chunk, o)
      || Commits(c, d, chunk, o)
    ensures Idles(c, d, o) && o.notices == []
  {
    hide Ready, Appended, Committed;
  }

  /** What a drop does not guard: in every state of every run, a write in flight at the node that drops the key loses
      its file. Nothing comes of its next call: no window is passed on, nothing is acknowledged or committed, and
      the last call reports failure. `LostWrites` has what follows. */
  lemma DropDefeatsWritesInFlight(
    g: Setting, steps: seq<Step>, m: Message, job: nat, size: nat, link: bool, out: nat, me: string, now: nat)
    requires Sane(g) && AlwaysAgreed(g, steps)
    requires m in After(g, steps).messages && m.AckWrite? && Drops(g, After(g, steps), m)
    requires CanFeed(After(g, steps), job, size) && After(g, steps).jobs[job].command.InFlight()
    requires NodeOf(After(g, steps), job) == m.dst && out !in After(g, steps).streams
    ensures var s := AckTaken(g, After(g, steps), m);
      var t := Fed(g, s, job, size, link, out, me, now);
      && Home(s, m.dst) == EMPTY && CanFeed(s, job, size)
      && t.streams == s.streams && t.messages == s.messages && t.committed == s.committed
      && (forall n :: Home(t, n) == Home(s, n))
      && (size == 0 ==> t.jobs[job].command.finished && !Called(g, s, job, size, me, now).ok)
  {
    RunKeeps(g, steps);
    hide Invariant, Drops, After, Called, AlwaysAgreed;
    AckTakenKeeps(g, After(g, steps), m);
    NothingComesOfALostFile(g, AckTaken(g, After(g, steps), m), job, size, link, out, me, now);
  }

  /** In every state of every run, a running command whose stream has ended commits its version at its node if and
      only if its file is still in the directory. */
  lemma EndCommitsIffTheFileIsThere(g: Setting, steps: seq<Step>, job: nat, link: bool, out: nat, me: string, now: nat)
    requires Sane(g) && AlwaysAgreed(g, steps)
    requires CanFeed(After(g, steps), job, 0) && After(g, steps).jobs[job].command.InFlight()
    requires out !in After(g, steps).streams
    ensures var s := After(g, steps);
      var (t, o) := (Fed(g, s, job, 0, link, out, me, now), Called(g, s, job, 0, me, now));
      var (n, v) := (NodeOf(s, job), s.jobs[job].command.writer.value);
      && t.jobs[job].command.finished && (o.ok <==> v in Home(s, n).partial)
      && if v in Home(s, n).partial
         then Home(t, n) == Committed(Home(s, n), v) && Told(t, v)
              && Home(t, n).done.Keys == Maximal(Home(s, n).done.Keys + {v})
         else t.committed == s.committed && t.messages == s.messages && forall m :: Home(t, m) == Home(s, m)
  {
    RunKeeps(g, steps);
    hide After, Invariant, AlwaysAgreed, Called;
    var s := After(g, steps);
    var n, v := NodeOf(s, job), s.jobs[job].command.writer.value;
    if v in Home(s, n).partial {
      LastCallCommits(g, s, job, link, out, me, now);
    } else {
      NothingComesOfALostFile(g, s, job, 0, link, out, me, now);
    }
  }

  lemma LastCallCommits(g: Setting, s: Cluster, job: nat, link: bool, out: nat, me: string, now: nat)
    requires Sane(g) && Invariant(g, s) && CanFeed(s, job, 0) && out !in s.streams
    requires HasItsFile(s.jobs[job].command, Home(s, NodeOf(s, job)))
    ensures var (t, n, v) :=
        (Fed(g, s, job, 0, link, out, me, now), NodeOf(s, job), s.jobs[job].command.writer.value);
      && t.jobs[job].command.finished && Called(g, s, job, 0, me, now).ok && Told(t, v)
      && Home(t, n) == Committed(Home(s, n), v)
      && Home(t, n).done.Keys == Maximal(Home(s, n).done.Keys + {v})
  {
    hide HomesFit, StreamsFit, JobsFit, JobsApart, OwnFiles, MessagesFit, Covered, Called, Consistent, Ran, Ready,
      Committed;
    var o, d, v := Called(g, s, job, 0, me, now), Home(s, NodeOf(s, job)), s.jobs[job].command.writer.value;
    JobOf(g, s, job);
    HomeOf(s, NodeOf(s, job));
    assert Chunk(s, job, 0) == [];
    CalledAsRan(g, s, job, 0, me, now);
    CommitsIffItsFileIsThere(g.hash, s.jobs[job].command, d, [], Surroundings(false, me, now));
    assert Flushing(g, s, job, 0, o, out) && Closing(g, s, job, 0, o, out);
    hide Closing, Flushing, Answered, JobFits, HomeFits, Told;
    AnsweredIsFed(g, s, job, 0, o, link, out, me, now);
    AnsweredRecalls(g, s, job, 0, o, link, out);
    AnsweredJobIs(g, s, job, 0, o, link, out);
    CommittedVersions(d, v);
  }
}
