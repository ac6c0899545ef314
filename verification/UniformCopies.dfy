/** A key all of whose writes ask for the same number of copies: only its locations acknowledge its writes, and they
    keep what they acknowledge. */
module UniformCopies {
  import opened Bytes
  import opened VectorClocks
  import opened FileStores
  import opened WriteCommands
  import opened MirrorChains
  import opened Clusters
  import opened ClusterInvariants
  import opened ReplicationSafety
  import opened WholeCopies

  /** Clients ask for so many copies, and a node offloads the key from the tree for that number. */
  predicate Uniform(steps: seq<Step>, copies: nat) {
    forall step <- steps :: UniformStep(step, copies)
  }

  predicate UniformStep(step: Step, copies: nat) {
    && (step.Upload? ==> step.copies == copies)
    && (step.SendOffer? && step.offload.Some? ==> step.offload.value == copies)
  }

  /** A write on its way to a node, or taken in there: it names a source only if the node is a location. */
  predicate RoutedEvenly(g: Setting, st: Stream, route: Route, copies: nat) {
    && Unsigned(route.copies) == copies
    && (!st.local ==>
          && (route.mirror == 0 ==> route.copies == 0)
          && (route.source == "" || st.dst in Locations(g, copies)))
  }

  predicate SentEvenly(g: Setting, m: Message, copies: nat) {
    match m
    case OfferWrite(src, dst, v, source) => source == "" || dst in Locations(g, copies)
    case DemandWrite(src, dst, v, source) => source == "" || src in Locations(g, copies)
    case AckWrite(src, dst, v, size) => src in Locations(g, copies)
  }

  ghost predicate Even(g: Setting, s: Cluster, copies: nat) {
    && (forall v <- s.written :: Asked(s, v) == copies)
    && (forall k <- s.streams :: RoutedEvenly(g, s.streams[k], s.streams[k].route, copies))
    && (forall i <- s.jobs ::
          s.jobs[i].inlet in s.streams && RoutedEvenly(g, s.streams[s.jobs[i].inlet], s.jobs[i].route, copies))
    && (forall m <- s.messages :: SentEvenly(g, m, copies))
  }

  // ---- calls ----

  lemma HopIsEven(g: Setting, st: Stream, route: Route, copies: nat)
    requires Sane(g) && RoutedEvenly(g, st, route, copies)
    ensures var (next, peer) := Hop(g, st.dst, route);
      && RoutedEvenly(g, st, next, copies)
      && (peer.Some? ==> peer.value.uid in Locations(g, copies) && next.mirror != 0)
  {
  }

  lemma WorkedIsEven(g: Setting, s: Cluster, job: nat, size: nat, o: Outcome, copies: nat)
    requires Even(g, s, copies) && CanFeed(s, job, size)
    ensures Even(g, Worked(s, job, size, o), copies)
    ensures var w := Worked(s, job, size, o); w.streams == s.streams && job in w.jobs && w.jobs[job].command == o.command
  {
    hide Sane, RoutedEvenly, SentEvenly, OpensNow, Wrote;
    assert RoutedEvenly(g, s.streams[s.jobs[job].inlet], s.streams[s.jobs[job].inlet].route, copies);
    RouteAsks(g, s.streams[s.jobs[job].inlet], s.streams[s.jobs[job].inlet].route, copies);
  }

  lemma RouteAsks(g: Setting, st: Stream, route: Route, copies: nat)
    requires RoutedEvenly(g, st, route, copies)
    ensures Unsigned(route.copies) == copies
  {
  }

  /** Streams that go where they went, but for one to a location. */
  lemma PassedOnEvenly(
    g: Setting, streams: map<nat, Stream>, j: Job, v: Clock, notice: Notice, contents: seq<Byte>,
    route: Route, peer: Option<Peer>, out: nat, copies: nat)
    requires forall k <- streams :: RoutedEvenly(g, streams[k], streams[k].route, copies)
    requires out !in streams && Unsigned(route.copies) == copies
    requires peer.Some? ==> peer.value.uid in Locations(g, copies) && route.mirror != 0
    ensures var passed := PassedOn(streams, j, v, notice, contents, route, peer, out).0;
      && (forall k <- passed :: RoutedEvenly(g, passed[k], passed[k].route, copies))
      && (forall k <- streams :: k in passed && passed[k].dst == streams[k].dst && passed[k].local == streams[k].local)
  {
    hide Locations, From;
  }

  lemma AcksAreEven(g: Setting, st: Stream, route: Route, v: Clock, size: nat, copies: nat)
    requires RoutedEvenly(g, st, route, copies) && !st.local
    ensures forall m <- Acks(g, st.dst, route, v, size) :: SentEvenly(g, m, copies)
  {
  }

  lemma CalledBackStreams(
    g: Setting, s: Cluster, job: nat, notice: Notice, contents: seq<Byte>, link: bool, out: nat)
    requires job in s.jobs && s.jobs[job].inlet in s.streams && s.jobs[job].command.writer.Some?
    ensures var (j, st) := (s.jobs[job], s.streams[s.jobs[job].inlet]);
      var (route, peer) := if j.outlet.Some? then (j.route, None) else Hop(g, st.dst, j.route);
      CalledBack(g, s, job, notice, contents, link, out).streams
        == PassedOn(s.streams, j, j.command.writer.value, notice, contents, route, if link then peer else None, out).0
  {
    hide Hop, Acks, PassedOn, Given;
  }

  lemma StreamsAreEven(
    g: Setting, s: Cluster, job: nat, notice: Notice, contents: seq<Byte>, link: bool, out: nat, copies: nat)
    requires Sane(g) && Even(g, s, copies) && out !in s.streams
    requires job in s.jobs && s.jobs[job].inlet in s.streams && s.jobs[job].command.writer.Some?
    ensures var t := CalledBack(g, s, job, notice, contents, link, out);
      && (forall k <- t.streams :: RoutedEvenly(g, t.streams[k], t.streams[k].route, copies))
      && (forall k <- s.streams ::
            k in t.streams && t.streams[k].dst == s.streams[k].dst && t.streams[k].local == s.streams[k].local)
  {
    var j, st := s.jobs[job], s.streams[s.jobs[job].inlet];
    var (route, peer) := if j.outlet.Some? then (j.route, None) else Hop(g, st.dst, j.route);
    hide Sane, SentEvenly, RoutedEvenly, Hop, CalledBack, PassedOn, Locations;
    CalledBackStreams(g, s, job, notice, contents, link, out);
    assert RoutedEvenly(g, st, j.route, copies);
    HopIsEven(g, st, j.route, copies);
    RouteAsks(g, st, route, copies);
    PassedOnEvenly(g, s.streams, j, j.command.writer.value, notice, contents, route, if link then peer else None, out, copies);
  }

  lemma RouteStaysEven(g: Setting, s: Cluster, job: nat, copies: nat)
    requires Sane(g) && Even(g, s, copies) && job in s.jobs && s.jobs[job].inlet in s.streams
    ensures var (j, st) := (s.jobs[job], s.streams[s.jobs[job].inlet]);
      RoutedEvenly(g, st, if j.outlet.Some? then j.route else Hop(g, st.dst, j.route).0, copies)
  {
    var j, st := s.jobs[job], s.streams[s.jobs[job].inlet];
    assert RoutedEvenly(g, st, j.route, copies);
    hide RoutedEvenly, Hop;
    HopIsEven(g, st, j.route, copies);
  }

  lemma SameWay(g: Setting, a: Stream, b: Stream, route: Route, copies: nat)
    requires RoutedEvenly(g, a, route, copies) && b.dst == a.dst && b.local == a.local
    ensures RoutedEvenly(g, b, route, copies)
  {
  }

  lemma CalledBackIsEven(
    g: Setting, s: Cluster, job: nat, notice: Notice, contents: seq<Byte>, link: bool, out: nat, copies: nat)
    requires Sane(g) && Even(g, s, copies) && out !in s.streams
    requires job in s.jobs && s.jobs[job].inlet in s.streams && s.jobs[job].command.writer.Some?
    ensures Even(g, CalledBack(g, s, job, notice, contents, link, out), copies)
  {
    hide Sane, SentEvenly, RoutedEvenly, Hop, Acks, CalledBack;
    var t := CalledBack(g, s, job, notice, contents, link, out);
    var st, v := s.streams[s.jobs[job].inlet], s.jobs[job].command.writer.value;
    StreamsAreEven(g, s, job, notice, contents, link, out, copies);
    CalledBackIs(g, s, job, notice, contents, link, out);
    RouteStaysEven(g, s, job, copies);
    if !st.local {
      AcksAreEven(g, st, t.jobs[job].route, v, notice.size, copies);
    }
    forall i | i in t.jobs
      ensures t.jobs[i].inlet in t.streams && RoutedEvenly(g, t.streams[t.jobs[i].inlet], t.jobs[i].route, copies)
    {
      assert i in s.jobs && t.jobs[i].inlet == s.jobs[i].inlet;
      SameWay(g, s.streams[s.jobs[i].inlet], t.streams[t.jobs[i].inlet], t.jobs[i].route, copies);
    }
  }

  lemma FedIsEven(
    g: Setting, s: Cluster, job: nat, size: nat, link: bool, out: nat, me: string, now: nat, copies: nat)
    requires Sane(g) && Even(g, s, copies)
    ensures Even(g, Fed(g, s, job, size, link, out, me, now), copies)
  {
    hide Even, CanFeed, Called, Worked, CalledBack, Contents, Sane;
    if CanFeed(s, job, size) && out !in s.streams {
      var o := Called(g, s, job, size, me, now);
      WorkedIsEven(g, s, job, size, o, copies);
      var w := Worked(s, job, size, o);
      if o.notices != [] && o.command.writer.Some? {
        InletThere(g, w, job, copies);
        CalledBackIsEven(g, w, job, o.notices[0], Contents(s, job, size, o.notices[0].size), link, out, copies);
      }
    }
  }

  lemma InletThere(g: Setting, w: Cluster, job: nat, copies: nat)
    requires Even(g, w, copies) && job in w.jobs
    ensures w.jobs[job].inlet in w.streams
  {
  }

  // ---- other steps ----

  /** A node answers a demand with its own file, which asks for as many copies as its version. */
  lemma DemandIsEven(g: Setting, s: Cluster, m: Message, out: nat, copies: nat)
    requires Invariant(g, s) && Even(g, s, copies) && m in s.messages && m.DemandWrite?
    ensures Even(g, DemandTaken(s, m, out), copies)
  {
    hide StreamsFit, JobsFit, JobsApart, OwnFiles, MessagesFit, Covered, RoutedEvenly, Found, Locations;
    var found, t := Found(Home(s, m.dst), m.version, false), DemandTaken(s, m, out);
    if found.Some? && out !in s.streams {
      FoundAsks(s, m.dst, m.version, copies);
      assert SentEvenly(g, m, copies);
      SendingIsEven(g, t.streams[out], m, found.value.1, copies);
    }
  }

  lemma FoundAsks(s: Cluster, node: string, v: Clock, copies: nat)
    requires HomesFit(s) && (forall v <- s.written :: Asked(s, v) == copies) && Found(Home(s, node), v, false).Some?
    ensures Found(Home(s, node), v, false).value.1.copies == copies < 256
  {
    HomeOf(s, node);
    hide Consistent, TailOf, Merged;
  }

  lemma SendingIsEven(g: Setting, st: Stream, m: Message, f: File, copies: nat)
    requires m.DemandWrite? && SentEvenly(g, m, copies) && f.copies == copies < 256
    requires st.dst == m.src && st.route == Route(Mirrors(f), Mirrors(f), m.source)
    ensures RoutedEvenly(g, st, st.route, copies)
  {
  }

  lemma OfferIsEven(g: Setting, s: Cluster, src: string, dst: string, version: Clock, offload: Option<nat>, copies: nat)
    requires Even(g, s, copies) && (offload.Some? ==> offload.value == copies)
    ensures Even(g, Offered(g, s, src, dst, version, offload), copies)
  {
    hide RoutedEvenly, IsMine, Locations, VersionsOf;
  }

  lemma OfferTakenIsEven(g: Setting, s: Cluster, m: Message, copies: nat)
    requires Even(g, s, copies) && m in s.messages && m.OfferWrite?
    ensures Even(g, OfferTaken(s, m), copies)
  {
    hide RoutedEvenly, Locations, VersionsOf;
    assert SentEvenly(g, m, copies);
  }

  lemma JobsAreEven(g: Setting, s: Cluster, job: nat, stream: nat, copies: nat)
    requires Even(g, s, copies)
    ensures Even(g, Begun(g, s, job, stream), copies) && Even(g, Dismissed(s, job), copies)
  {
    hide RoutedEvenly, SentEvenly;
  }

  lemma UploadIsEven(g: Setting, s: Cluster, stream: nat, node: string, given: Clock, copies: Copies, data: seq<Byte>)
    requires Even(g, s, copies)
    ensures Even(g, Uploaded(s, stream, node, given, copies, data), copies)
  {
    hide SentEvenly;
  }

  lemma MessageIsEven(g: Setting, s: Cluster, m: Message, out: nat, copies: nat)
    requires Invariant(g, s) && Even(g, s, copies) && m in s.messages
    ensures Even(g, Taken(g, s, m, out), copies)
  {
    match m
    case OfferWrite(_, _, _, _) =>
      hide Invariant, Even, OfferTaken;
      OfferTakenIsEven(g, s, m, copies);
    case DemandWrite(_, _, _, _) =>
      hide Invariant, Even, DemandTaken;
      DemandIsEven(g, s, m, out, copies);
    case AckWrite(_, _, _, _) =>
      hide Invariant, RoutedEvenly, SentEvenly, Drops;
  }

  lemma NextIsEven(g: Setting, s: Cluster, step: Step, copies: nat)
    requires Sane(g) && Invariant(g, s) && Even(g, s, copies) && UniformStep(step, copies)
    ensures Even(g, Next(g, s, step), copies)
  {
    hide Sane, Invariant, Even, Fed, Taken, Offered, Begun, Dismissed, Uploaded;
    match step
    case Upload(stream, node, given, asked, data) => UploadIsEven(g, s, stream, node, given, asked, data);
    case Begin(job, stream) => JobsAreEven(g, s, job, stream, copies);
    case Feed(job, size, link, out, me, now) => FedIsEven(g, s, job, size, link, out, me, now, copies);
    case Dismiss(job) => JobsAreEven(g, s, job, 0, copies);
    case SendOffer(src, dst, version, offload) => OfferIsEven(g, s, src, dst, version, offload, copies);
    case TakeMessage(m, out) =>
      if m in s.messages {
        MessageIsEven(g, s, m, out, copies);
      }
  }

  // ---- runs ----

  lemma {:induction false} UniformRunsAreEven(g: Setting, steps: seq<Step>, copies: nat)
    requires Sane(g) && AlwaysAgreed(g, steps) && Uniform(steps, copies)
    ensures Even(g, After(g, steps), copies)
  {
    if steps != [] {
      var n := |steps| - 1;
      AgreedBefore(g, steps);
      hide Sane, Invariant, Next, AlwaysAgreed, Even, UniformStep;
      UniformRunsAreEven(g, steps[..n], copies);
      RunKeeps(g, steps[..n]);
      NextIsEven(g, After(g, steps[..n]), steps[n], copies);
    }
  }

  lemma EvenIsSettled(g: Setting, s: Cluster, copies: nat, node: string, v: Clock)
    requires Even(g, s, copies) && node in Locations(g, copies)
    ensures Settled(g, s, node, v)
  {
    hide Locations, AtMost;
  }

  /** In every such run, only locations acknowledge a write; and a location that has acknowledged all of a version has
      committed all of it, or a newer version, however long the acknowledgement has been under way. */
  lemma LocationsKeepWhatTheyAcknowledge(g: Setting, steps: seq<Step>, copies: nat, m: Message)
    requires Sane(g) && AlwaysAgreed(g, steps) && Uniform(steps, copies) && m in After(g, steps).messages && m.AckWrite?
    ensures var s := After(g, steps);
      && m.src in Locations(g, copies)
      && (m.version in s.written && m.size == |s.written[m.version]| ==> Keeps(s, Home(s, m.src).done, m.version))
  {
    var s := After(g, steps);
    UniformRunsAreEven(g, steps, copies);
    assert SentEvenly(g, m, copies);
    hide After, Sane, AlwaysAgreed, Uniform, Even, Locations, Keeps, Settled;
    EvenIsSettled(g, s, copies, m.src, m.version);
    if m.version in s.written && m.size == |s.written[m.version]| {
      FullAcksAreKept(g, steps, m);
    }
  }

  lemma EvenlyAsked(g: Setting, s: Cluster, copies: nat, v: Clock)
    requires Even(g, s, copies) && v in s.written
    ensures Asked(s, v) == copies
  {
  }

  /** And a node drops the key only if it is no location of it. What it drops, if that is all of the version, the
      location that acknowledged it has in full, or a newer version. */
  lemma DropsLeaveItToALocation(g: Setting, steps: seq<Step>, copies: nat, m: Message)
    requires Sane(g) && AlwaysAgreed(g, steps) && Uniform(steps, copies)
    requires m in After(g, steps).messages && m.AckWrite? && Drops(g, After(g, steps), m)
    ensures var (s, d) := (After(g, steps), Home(After(g, steps), m.dst));
      && m.dst !in Locations(g, copies) && m.src in Locations(g, copies) && m.version in s.written
      && d.done.Keys == {m.version} && |d.done[m.version].data| == m.size
      && (d.done[m.version].data == s.written[m.version] ==> Keeps(s, Home(s, m.src).done, m.version))
  {
    hide After, Sane, AlwaysAgreed, Uniform, Even, Locations, Keeps, Settled, Drops, KeptUpTo, Rank;
    DropsOnlyWhatIsKept(g, steps, m);
    UniformRunsAreEven(g, steps, copies);
    EvenlyAsked(g, After(g, steps), copies, m.version);
    LocationsKeepWhatTheyAcknowledge(g, steps, copies, m);
  }

  /** If hops and files are opened in time as well, the location that acknowledged it always has. */
  lemma PromptDropsLeaveItToALocation(g: Setting, steps: seq<Step>, copies: nat, m: Message)
    requires Sane(g) && AlwaysAgreed(g, steps) && Uniform(steps, copies) && AlwaysPrompt(g, steps)
    requires m in After(g, steps).messages && m.AckWrite? && Drops(g, After(g, steps), m)
    ensures m.src in Locations(g, copies) && Keeps(After(g, steps), Home(After(g, steps), m.src).done, m.version)
  {
    hide After, Sane, AlwaysAgreed, AlwaysPrompt, Uniform, Locations, Keeps, Drops;
    DropsLeaveItToALocation(g, steps, copies, m);
    PromptRunsGiveWholeCopies(g, steps, m.dst, m.version);
  }
}
