/** When does every node get all of a version? A hop that is opened after the first window, because no connection
    could be made before, passes on only what comes from then on; and so does a command that opens its file late. */
module WholeCopies {
  import opened Bytes
  import opened VectorClocks
  import opened FileStores
  import opened WriteCommands
  import opened Calls
  import opened MirrorChains
  import opened Clusters
  import opened ClusterInvariants
  import opened ReplicationSafety

  /** Every stream and every file begins where the contents do, and whatever is committed is all there is. */
  ghost predicate Whole(s: Cluster) {
    && (forall k <- s.streams :: s.streams[k].skip == 0)
    && (forall i <- s.jobs :: s.jobs[i].base == 0)
    && (forall n <- s.homes :: CopiesWhole(s, s.homes[n]))
  }

  ghost predicate CopiesWhole(s: Cluster, d: Directory) {
    forall v <- d.done :: v in s.written && d.done[v].data == s.written[v]
  }

  /** This call opens a file for another node's write. */
  ghost predicate OpensAFile(g: Setting, s: Cluster, job: nat, size: nat, me: string, now: nat) {
    && CanFeed(s, job, size) && !s.streams[s.jobs[job].inlet].local
    && var o := Called(g, s, job, size, me, now);
       OpensNow(s.jobs[job], o)
  }

  /** The callback opens a hop. */
  predicate HopOpens(g: Setting, s: Cluster, job: nat, link: bool)
    requires job in s.jobs && s.jobs[job].inlet in s.streams
  {
    s.jobs[job].outlet.None? && link && Hop(g, NodeOf(s, job), s.jobs[job].route).1.Some?
  }

  /** This call calls back, and the callback opens a hop. */
  ghost predicate OpensAHop(g: Setting, s: Cluster, job: nat, size: nat, link: bool, me: string, now: nat) {
    CanFeed(s, job, size) && Called(g, s, job, size, me, now).notices != [] && HopOpens(g, s, job, link)
  }

  /** A file is opened for the first bytes of its stream, and a hop for the first bytes of the write. */
  ghost predicate Prompt(g: Setting, s: Cluster, step: Step) {
    step.Feed? && step.out !in s.streams ==>
      && (OpensAFile(g, s, step.job, step.size, step.me, step.now) ==> s.jobs[step.job].read == 0)
      && (OpensAHop(g, s, step.job, step.size, step.link, step.me, step.now) ==>
            var notice := Called(g, s, step.job, step.size, step.me, step.now).notices[0];
            notice.offset == 0 || notice.size == 0)
  }

  // ---- what calls do to the places where streams and files begin ----

  lemma PassedOnBegins(
    streams: map<nat, Stream>, j: Job, v: Clock, notice: Notice, contents: seq<Byte>,
    route: Route, peer: Option<Peer>, out: nat)
    requires out !in streams && |contents| == notice.size
    ensures var (passed, outlet) := PassedOn(streams, j, v, notice, contents, route, peer, out);
      && (forall k <- streams :: k in passed && passed[k].skip == streams[k].skip)
      && (if j.outlet.None? && peer.Some? then
            && passed.Keys == streams.Keys + {out}
            && passed[out].skip == j.base + if notice.offset <= notice.size then notice.offset else notice.size
          else passed.Keys == streams.Keys)
  {
  }

  lemma AnsweredPasses(g: Setting, s: Cluster, job: nat, size: nat, o: Outcome, link: bool, out: nat)
    requires Flushing(g, s, job, size, o, out) && CanFeed(s, job, size) && |o.notices| == 1
    requires s.jobs[job].command.writer.Some? && o.command.writer == s.jobs[job].command.writer && !OpensNow(s.jobs[job], o)
    ensures var (j, k) := (s.jobs[job], Worked(s, job, size, o).jobs[job]);
      var (route, peer) := if j.outlet.Some? then (j.route, None) else Hop(g, NodeOf(s, job), j.route);
      Answered(g, s, job, size, o, link, out).streams ==
        PassedOn(s.streams, k, j.command.writer.value, o.notices[0], Contents(s, job, size, o.notices[0].size),
                 route, if link then peer else None, out).0
  {
    hide Flushing, Contents, Acks, Hop, PassedOn, Worked, OpensNow, Given;
    WorkedIs(s, job, size, o);
  }

  /** Where the hop begins that a callback opens; streams that are there stay where they are. */
  lemma HopBegins(g: Setting, s: Cluster, job: nat, size: nat, o: Outcome, link: bool, out: nat)
    requires Flushing(g, s, job, size, o, out)
    ensures var (t, j, notice) := (Answered(g, s, job, size, o, link, out), s.jobs[job], o.notices[0]);
      && (forall k <- s.streams :: k in t.streams && t.streams[k].skip == s.streams[k].skip)
      && (if j.outlet.None? && link && Hop(g, NodeOf(s, job), j.route).1.Some? then
            && t.streams.Keys == s.streams.Keys + {out}
            && t.streams[out].skip == j.base + if notice.offset <= notice.size then notice.offset else notice.size
          else t.streams.Keys == s.streams.Keys)
  {
    hide Flushing, Answered, Contents, Acks, Ready, PieceOf, Hop, PassedOn, Worked, HasItsFile, OpensNow, Told, Given;
    FlushedIs(g, s, job, size, o, out);
    StreamIsNew(g, s, job, size, o, out);
    CallbackReads(g, s, job, size, o, out);
    WorkedIs(s, job, size, o);
    var j, k := s.jobs[job], Worked(s, job, size, o).jobs[job];
    var contents := Contents(s, job, size, o.notices[0].size);
    var (route, peer) := if j.outlet.Some? then (j.route, None) else Hop(g, NodeOf(s, job), j.route);
    PassedOnBegins(s.streams, k, j.command.writer.value, o.notices[0], contents, route, if link then peer else None, out);
    AnsweredPasses(g, s, job, size, o, link, out);
  }

  /** With one more stream at most, all is whole exactly if that stream begins at the beginning. */
  lemma WholeWithOneMore(s: Cluster, t: Cluster, opening: bool, out: nat, skip: nat)
    requires Whole(s) && (forall n <- t.homes :: CopiesWhole(t, t.homes[n]))
    requires t.jobs.Keys == s.jobs.Keys && forall i <- s.jobs :: t.jobs[i].base == s.jobs[i].base
    requires forall k <- s.streams :: k in t.streams && t.streams[k].skip == s.streams[k].skip
    requires if opening then t.streams.Keys == s.streams.Keys + {out} && t.streams[out].skip == skip
             else t.streams.Keys == s.streams.Keys
    ensures Whole(t) <==> (opening ==> skip == 0)
  {
    hide CopiesWhole;
  }

  lemma AnsweredStaysWhole(g: Setting, s: Cluster, job: nat, size: nat, o: Outcome, link: bool, out: nat)
    requires job in s.jobs && s.jobs[job].inlet in s.streams && |o.notices| == 1
    requires Flushing(g, s, job, size, o, out) && Whole(s)
    ensures Whole(Answered(g, s, job, size, o, link, out)) <==>
      (HopOpens(g, s, job, link) ==> o.notices[0].offset == 0 || o.notices[0].size == 0)
  {
    hide Flushing, Answered, CopiesWhole, Hop;
    AnsweredHomesWhole(g, s, job, size, o, link, out);
    HopBegins(g, s, job, size, o, link, out);
    AnsweredBases(g, s, job, size, o, link, out);
    var t, offset, flushed := Answered(g, s, job, size, o, link, out), o.notices[0].offset, o.notices[0].size;
    assert s.jobs[job].base == 0;
    hide Whole;
    WholeWithOneMore(s, t, HopOpens(g, s, job, link), out, if offset <= flushed then offset else flushed);
  }

  lemma AnsweredBases(g: Setting, s: Cluster, job: nat, size: nat, o: Outcome, link: bool, out: nat)
    requires Flushing(g, s, job, size, o, out)
    ensures var t := Answered(g, s, job, size, o, link, out);
      t.jobs.Keys == s.jobs.Keys && forall i <- s.jobs :: t.jobs[i].base == s.jobs[i].base
  {
    hide Flushing, Answered;
    AnsweredRecalls(g, s, job, size, o, link, out);
    AnsweredJobIs(g, s, job, size, o, link, out);
  }

  lemma CommitStaysWhole(s: Cluster, n: string, v: Clock)
    requires Whole(s) && Consistent(Home(s, n)) && v in Home(s, n).partial
    requires v in s.written && Home(s, n).partial[v].data == s.written[v]
    ensures CopiesWhole(s, Committed(Home(s, n), v))
  {
    hide Committed, Consistent;
    CommittedVersions(Home(s, n), v);
    assert CopiesWhole(s, Home(s, n));
  }

  lemma HomeWhole(s: Cluster, n: string, d: Directory)
    requires Whole(s) && d.done == Home(s, n).done
    ensures CopiesWhole(s, d)
  {
    assert CopiesWhole(s, Home(s, n));
  }

  lemma OneHomeWhole(s: Cluster, t: Cluster, n: string)
    requires Whole(s) && Recalls(s, t) && n in t.homes && CopiesWhole(s, t.homes[n])
    requires t.homes == s.homes[n := t.homes[n]]
    ensures forall m <- t.homes :: CopiesWhole(t, t.homes[m])
  {
    forall m | m in t.homes ensures CopiesWhole(t, t.homes[m]) {
      assert m != n ==> CopiesWhole(s, s.homes[m]);
    }
  }

  lemma AnsweredHomesWhole(g: Setting, s: Cluster, job: nat, size: nat, o: Outcome, link: bool, out: nat)
    requires Flushing(g, s, job, size, o, out) && Whole(s)
    ensures var t := Answered(g, s, job, size, o, link, out); forall n <- t.homes :: CopiesWhole(t, t.homes[n])
  {
    hide Flushing, Answered, Committed, Consistent, CopiesWhole, HasItsFile, OpensNow, SameButBytes, Told, Recalls;
    FlushedIs(g, s, job, size, o, out);
    var t, n, v := Answered(g, s, job, size, o, link, out), NodeOf(s, job), s.jobs[job].command.writer.value;
    AnsweredRecalls(g, s, job, size, o, link, out);
    if o.notices[0].isComplete {
      assert Closing(g, s, job, size, o, out);
      ClosedFile(g, s, job, size, o, out);
      assert s.written[v][0..] == s.written[v];
      CommitStaysWhole(s, n, v);
    } else {
      WindowIsNotAll(g, s, job, size, o, out);
      SameDoneHere(Home(s, n), o.home);
      HomeWhole(s, n, o.home);
    }
    OneHomeWhole(s, t, n);
  }

  lemma WorkedBegins(s: Cluster, job: nat, size: nat, o: Outcome)
    requires CanFeed(s, job, size) && Whole(s)
    ensures var (t, j, st) := (Worked(s, job, size, o), s.jobs[job], s.streams[s.jobs[job].inlet]);
      && t.streams == s.streams && t.jobs.Keys == s.jobs.Keys
      && (forall i <- s.jobs :: i != job ==> t.jobs[i].base == 0)
      && t.jobs[job].base == if OpensNow(j, o) && !st.local then j.read else 0
  {
    hide CopiesWhole, Wrote;
  }

  lemma WorkedStaysWhole(g: Setting, s: Cluster, job: nat, size: nat, o: Outcome)
    requires Calling(g, s, job, size) && Whole(s) && Quiet(s, job, size, o)
    ensures Whole(Worked(s, job, size, o)) <==>
      (OpensNow(s.jobs[job], o) && !s.streams[s.jobs[job].inlet].local ==> s.jobs[job].read == 0)
  {
    hide HomesFit, JobsFit, JobsApart, StreamsFit, OwnFiles, Quiet, Recalls, Worked, CopiesWhole, OpensNow;
    var t, n := Worked(s, job, size, o), NodeOf(s, job);
    WorkedRecalls(g, s, job, size, o);
    WorkedHomes(s, job, size, o);
    HomeWhole(s, n, o.home);
    OneHomeWhole(s, t, n);
    WorkedBegins(s, job, size, o);
  }

  // ---- steps ----

  lemma FeedStaysWhole(
    g: Setting, s: Cluster, job: nat, size: nat, link: bool, out: nat, me: string, now: nat)
    requires Sane(g) && Invariant(g, s) && Whole(s) && Agreed(g, s, Feed(job, size, link, out, me, now))
    ensures Whole(Fed(g, s, job, size, link, out, me, now)) <==> Prompt(g, s, Feed(job, size, link, out, me, now))
  {
    hide HomesFit, StreamsFit, JobsFit, JobsApart, OwnFiles, MessagesFit, Covered, Whole, Agrees, Called, Calling, Hop,
      Idles, Creates, Grows, FillsWindow, Commits, HasItsFile;
    if CanFeed(s, job, size) && out !in s.streams {
      FeedDoesOneThing(g, s, job, size, me, now);
      var (c, d, chunk, o) :=
        (s.jobs[job].command, Home(s, NodeOf(s, job)), Chunk(s, job, size), Called(g, s, job, size, me, now));
      if FillsWindow(c, d, chunk, o) || Commits(c, d, chunk, o) {
        assert Flushing(g, s, job, size, o, out);
        hide Flushing;
        FlushedIs(g, s, job, size, o, out);
        AnsweredIsFed(g, s, job, size, o, link, out, me, now);
        AnsweredStaysWhole(g, s, job, size, o, link, out);
      } else {
        QuietIsWorked(g, s, job, size, o, link, out, me, now);
        NoNotice(s, job, size, o);
        hide Fed, Worked, Quiet;
        WorkedStaysWhole(g, s, job, size, o);
      }
    }
  }

  lemma NoNotice(s: Cluster, job: nat, size: nat, o: Outcome)
    requires CanFeed(s, job, size) && Quiet(s, job, size, o)
    ensures o.notices == []
  {
    hide HasItsFile, Ready, VersionsOf, Agrees, Appended;
  }

  lemma VersionOnRecord(g: Setting, s: Cluster, m: Message)
    requires MessageFits(g, s, m)
    ensures m.version in s.written
  {
  }

  /** A whole copy is sent whole. */
  lemma SentWhole(g: Setting, s: Cluster, m: Message, out: nat)
    requires HomesFit(s) && MessageFits(g, s, m) && Whole(s) && m.DemandWrite?
    ensures Whole(DemandTaken(s, m, out))
  {
    hide HomesFit, Merged, MessageFits, Rank;
    var d := Home(s, m.dst);
    OnRecord(s);
    VersionOnRecord(g, s, m);
    assert CopiesWhole(s, d);
    if m.version in d.done {
      assert d.done[m.version].data == s.written[m.version];
    }
  }

  lemma DropStaysWhole(g: Setting, s: Cluster, m: Message)
    requires Whole(s) && m.AckWrite?
    ensures Whole(AckTaken(g, s, m))
  {
    hide CopiesWhole, Drops;
    HomesStayWhole(s, AckTaken(g, s, m));
  }

  lemma OfferStaysWhole(s: Cluster, m: Message)
    requires Whole(s) && m.OfferWrite?
    ensures Whole(OfferTaken(s, m))
  {
    hide CopiesWhole, VersionsOf;
    HomesStayWhole(s, OfferTaken(s, m));
  }

  lemma TakenStaysWhole(g: Setting, s: Cluster, m: Message, out: nat)
    requires HomesFit(s) && Whole(s) && MessageFits(g, s, m)
    ensures Whole(Taken(g, s, m, out))
  {
    hide Whole, HomesFit, MessageFits, OfferTaken, DemandTaken, AckTaken;
    match m
    case OfferWrite(_, _, _, _) => OfferStaysWhole(s, m);
    case DemandWrite(_, _, _, _) => SentWhole(g, s, m, out);
    case AckWrite(_, _, _, _) => DropStaysWhole(g, s, m);
  }

  lemma HomesStayWhole(s: Cluster, t: Cluster)
    requires (forall n <- s.homes :: CopiesWhole(s, s.homes[n])) && t.written == s.written
    requires forall n <- t.homes :: n in s.homes && t.homes[n] == s.homes[n]
    ensures forall n <- t.homes :: CopiesWhole(t, t.homes[n])
  {
    forall n | n in t.homes ensures CopiesWhole(t, t.homes[n]) {
      assert CopiesWhole(s, s.homes[n]);
    }
  }

  lemma QuietStaysWhole(g: Setting, s: Cluster, step: Step)
    requires Sane(g) && Whole(s) && !step.Feed? && !step.TakeMessage?
    ensures Whole(Next(g, s, step))
  {
    hide Sane, CopiesWhole, Offered, Fed, Taken;
    var t := Next(g, s, step);
    if step.SendOffer? {
      OnlyMessagesNew(g, s, step.src, step.dst, step.version, step.offload);
    } else {
      QuietJobsAndStreams(g, s, step);
    }
    HomesStayWhole(s, t);
  }

  lemma QuietJobsAndStreams(g: Setting, s: Cluster, step: Step)
    requires Sane(g) && (step.Upload? || step.Begin? || step.Dismiss?)
    ensures var t := Next(g, s, step);
      && t.homes == s.homes && t.written == s.written
      && (forall k <- t.streams :: (k in s.streams && t.streams[k] == s.streams[k]) || t.streams[k].skip == 0)
      && (forall i <- t.jobs :: (i in s.jobs && t.jobs[i].base == s.jobs[i].base) || t.jobs[i].base == 0)
  {
    hide Sane;
  }

  lemma OnlyMessagesNew(g: Setting, s: Cluster, src: string, dst: string, version: Clock, offload: Option<nat>)
    ensures var t := Offered(g, s, src, dst, version, offload); t == s.(messages := t.messages)
  {
    hide VersionsOf, IsMine, Locations;
  }

  lemma NextStaysWhole(g: Setting, s: Cluster, step: Step)
    requires Sane(g) && Invariant(g, s) && Whole(s) && Agreed(g, s, step)
    ensures Whole(Next(g, s, step)) <==> Prompt(g, s, step)
  {
    hide Sane, Agreed, HomesFit, StreamsFit, JobsFit, JobsApart, OwnFiles, Covered, Whole, MessageFits, Taken;
    if step.Feed? {
      hide Invariant, Prompt;
      FeedStaysWhole(g, s, step.job, step.size, step.link, step.out, step.me, step.now);
    } else if step.TakeMessage? {
      if step.message in s.messages {
        TakenStaysWhole(g, s, step.message, step.out);
      }
    } else {
      hide Next;
      QuietStaysWhole(g, s, step);
    }
  }

  // ---- runs ----

  ghost predicate AlwaysWhole(g: Setting, steps: seq<Step>)
    requires Sane(g)
  {
    Whole(After(g, steps)) && (steps != [] ==> AlwaysWhole(g, steps[..|steps| - 1]))
  }

  ghost predicate AlwaysPrompt(g: Setting, steps: seq<Step>)
    requires Sane(g)
  {
    var n := |steps| - 1;
    steps != [] ==> AlwaysPrompt(g, steps[..n]) && Prompt(g, After(g, steps[..n]), steps[n])
  }

  /** In every state of a run everything is whole exactly if each of its steps opens files and hops in time. */
  lemma {:induction false} WholeIffPrompt(g: Setting, steps: seq<Step>)
    requires Sane(g) && AlwaysAgreed(g, steps)
    ensures AlwaysWhole(g, steps) <==> AlwaysPrompt(g, steps)
  {
    if steps == [] {
      assert Whole(NOTHING_YET);
    } else {
      var n := |steps| - 1;
      hide Whole, Prompt, Next, Invariant, Sane, Agreed;
      WholeIffPrompt(g, steps[..n]);
      if AlwaysWhole(g, steps[..n]) {
        RunKeeps(g, steps[..n]);
        NextStaysWhole(g, After(g, steps[..n]), steps[n]);
      }
    }
  }

  /** So in such a run every node that has committed a version has all that the client gave it. */
  lemma PromptRunsGiveWholeCopies(g: Setting, steps: seq<Step>, n: string, v: Clock)
    requires Sane(g) && AlwaysAgreed(g, steps) && AlwaysPrompt(g, steps) && v in Home(After(g, steps), n).done
    ensures v in After(g, steps).written && Home(After(g, steps), n).done[v].data == After(g, steps).written[v]
  {
    hide AlwaysPrompt, AlwaysAgreed, After;
    WholeIffPrompt(g, steps);
    assert AlwaysWhole(g, steps);
    assert CopiesWhole(After(g, steps), Home(After(g, steps), n));
  }

  /** And a node drops nothing but what is kept in full: some node as near to the key as the one that acknowledged it
      has all of the dropped version, or it is superseded; and that one itself has committed all of it, or a newer
      version, if it is a location of all newer versions as well. */
  lemma PromptDropsAreKept(g: Setting, steps: seq<Step>, m: Message)
    requires Sane(g) && AlwaysAgreed(g, steps) && AlwaysPrompt(g, steps)
    requires m in After(g, steps).messages && m.AckWrite? && Drops(g, After(g, steps), m)
    ensures var s := After(g, steps);
      && m.version in s.written && m.size == |s.written[m.version]| && Rank(g, m.src) < Rank(g, m.dst)
      && KeptUpTo(g, s, Rank(g, m.src), m.version)
      && (Settled(g, s, m.src, m.version) ==> Keeps(s, Home(s, m.src).done, m.version))
  {
    hide AlwaysPrompt, AlwaysAgreed, After, Drops, KeptUpTo, Settled, Keeps, Rank, Sane;
    DropsOnlyWhatIsKept(g, steps, m);
    PromptRunsGiveWholeCopies(g, steps, m.dst, m.version);
  }
}
