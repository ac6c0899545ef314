/** Runs of a cluster in which a hop is opened late, and only the end of a write is passed on. */
module LateHopRuns {
  import opened Bytes
  import opened VectorClocks
  import opened FileStores
  import opened WriteCommands
  import opened Calls
  import opened MirrorChains
  import opened Clusters
  import opened ClusterInvariants
  import opened ReplicationSafety
  import opened WholeCopies
  import opened UniformCopies
  import opened SmallWrites
  import opened ClusterRuns

  /** "x" is called, and no connection can be made. */
  const ALONE: How := How(false, 1, "x", 5)

  /** A client's write at "x", one window and one byte long. When its first window is full, "a" cannot be reached;
      at its end, "b" can. Then "b" takes in what it is sent. */
  function LateHop(data: seq<Byte>): seq<Step> {
    [Upload(0, "x", FIRST, 2, data)] + [Begin(0, 0)] + [Feed(0, WINDOW, false, 1, "x", 5)]
    + [Feed(0, 1, false, 1, "x", 5)] + [Feed(0, 0, true, 1, "x", 5)] + Through(1, 1, 1, Elsewhere(2))
  }

  // ---- the first window ----

  ghost predicate WindowTaken(g: Setting, s: Cluster, data: seq<Byte>) {
    && |data| == WINDOW + 1 && s.homes == map["x" := WithFile(EMPTY, FIRST, data[..WINDOW], 2)]
    && s.streams == map[0 := FromClient(FIRST, data)] && s.makers == map[("x", FIRST) := 0]
    && s.jobs == map[0 := Opened1(g, FromClient(FIRST, data), FIRST, 0, WINDOW)]
    && s.written == map[FIRST := data] && s.messages == {} && s.committed == {}
  }

  lemma WindowComes(hash: Hasher, data: seq<Byte>)
    requires |data| == WINDOW + 1
    ensures var s := Uploaded(NOTHING_YET, 0, "x", FIRST, 2, data);
      && s == NOTHING_YET.(streams := map[0 := FromClient(FIRST, data)])
      && Starts(Nodes(hash), s, 0, 0, FIRST, WINDOW, ALONE) && MayWrite(s, 0, FIRST)
  {
    var s := Uploaded(NOTHING_YET, 0, "x", FIRST, 2, data);
    OpensFirst(FIRST, 1);
    assert s == NOTHING_YET.(streams := map[0 := FromClient(FIRST, data)]) && Home(s, "x") == EMPTY;
    NothingWrites(s, "x", FIRST);
    hide WritesAt, Consistent;
  }

  lemma WindowIsTaken(hash: Hasher, data: seq<Byte>, t: Cluster)
    requires |data| == WINDOW + 1
    requires StartedSo(Nodes(hash), NOTHING_YET.(streams := map[0 := FromClient(FIRST, data)]), t, 0, 0, FIRST, WINDOW)
    ensures WindowTaken(Nodes(hash), t, data)
  {
    hide WithFile, Opened1, Nodes;
  }

  lemma AfterWindow(hash: Hasher, data: seq<Byte>) returns (steps: seq<Step>)
    requires |data| == WINDOW + 1
    ensures steps == [Upload(0, "x", FIRST, 2, data)] + [Begin(0, 0)] + [Feed(0, WINDOW, false, 1, "x", 5)]
    ensures Sane(Nodes(hash)) && WindowTaken(Nodes(hash), After(Nodes(hash), steps), data) && AlwaysAgreed(Nodes(hash), steps)
  {
    var g, how, start := Nodes(hash), ALONE, [Upload(0, "x", FIRST, 2, data)];
    steps := start + [Begin(0, 0)] + [Feed(0, WINDOW, false, 1, "x", 5)];
    NodesAreSane(hash);
    hide Nodes, Sane, After, AlwaysAgreed, Starts, MayWrite, Uploaded, Begun2, StartedSo, WindowTaken;
    WindowComes(hash, data);
    OnlyAnUpload(g, 0, "x", FIRST, 2, data);
    OnlyUploadAgrees(g, 0, "x", FIRST, 2, data);
    StartRunAgrees(g, start, 0, 0, FIRST, WINDOW, how);
    WriteStarts(g, After(g, start), 0, 0, FIRST, WINDOW, how);
    WindowIsTaken(hash, data, After(g, steps));
  }

  // ---- the last byte ----

  /** The chunk that fills the window, when no connection to a hop can be made: the window is reported, the hop that
      could not be opened counts as done, and nothing is passed on. */
  ghost predicate FilledUnlinked(g: Setting, s: Cluster, t: Cluster, job: nat, size: nat)
    requires CanFeed(s, job, size) && HasItsFile(s.jobs[job].command, Home(s, NodeOf(s, job)))
  {
    var (j, n) := (s.jobs[job], NodeOf(s, job)); var v := j.command.writer.value;
    && t.homes == s.homes[n := Appended(Home(s, n), v, Chunk(s, job, size))] && t.streams == s.streams
    && t.messages == s.messages && t.committed == s.committed && t.written == s.written && t.jobs.Keys == s.jobs.Keys
    && t.jobs[job] == j.(read := j.read + size, command := t.jobs[job].command, route := Hop(g, n, j.route).0,
                         position := t.jobs[job].position)
    && Ready(t.jobs[job].command) && t.jobs[job].command.InFlight() && t.jobs[job].command.writer == j.command.writer
    && var before := |Home(s, n).partial[v].data|;
       before <= t.jobs[job].command.instructions.offset < before + size
  }

  lemma WindowFills(g: Setting, s: Cluster, job: nat, size: nat, h: How)
    requires CanFeed(s, job, size) && 0 < size && h.out !in s.streams && !h.link && Ready(s.jobs[job].command)
    requires HasItsFile(s.jobs[job].command, Home(s, NodeOf(s, job))) && s.jobs[job].outlet == None && !Astray(s, job)
    requires s.streams[s.jobs[job].inlet].local && s.jobs[job].command.pending + size > WINDOW
    ensures FilledUnlinked(g, s, FedSo(g, s, job, size, h), job, size)
  {
    var (c, d, chunk) := (s.jobs[job].command, Home(s, NodeOf(s, job)), Chunk(s, job, size));
    LaterChunk(g.hash, c, d, chunk, Surroundings(false, h.me, h.now));
    assert Called(g, s, job, size, h.me, h.now) == Ran(g.hash, c, d, chunk, Surroundings(false, h.me, h.now)) by {
      hide Ran, StrayRan;
    }
    hide Called, Ran, Hop, Contents, From, HasItsFile, Ready, CanFeed, Appended, Astray, CalledBack, Worked, Given;
    var o := Called(g, s, job, size, h.me, h.now);
    assert FillsWindow(c, d, chunk, o) && !OpensNow(s.jobs[job], o);
    WorkedIs(s, job, size, o);
    var w, contents := Worked(s, job, size, o), Contents(s, job, size, o.notices[0].size);
    CalledBackIs(g, w, job, o.notices[0], contents, false, h.out);
    NothingPassedOn(g, w, job, o.notices[0], contents, h.out);
  }

  lemma NothingPassedOn(g: Setting, w: Cluster, job: nat, notice: Notice, contents: seq<Byte>, out: nat)
    requires job in w.jobs && w.jobs[job].inlet in w.streams && w.jobs[job].command.writer.Some? && w.jobs[job].outlet == None
    ensures var t := CalledBack(g, w, job, notice, contents, false, out); t.streams == w.streams && t.jobs[job].outlet == None
  {
    hide Hop, Acks, From, Given;
  }

  /** All of the write is in its file, and the next hop is the second one. */
  ghost predicate AllButEnded(s: Cluster, data: seq<Byte>) {
    && |data| == WINDOW + 1 && Ends(s, 0, data) && s.homes == map["x" := Directory(map[], map[FIRST := File(data, 2)])]
    && s.written == map[FIRST := data] && s.messages == {} && s.committed == {}
    && s.streams == map[0 := FromClient(FIRST, data)] && s.jobs.Keys == {0}
    && var j := s.jobs[0];
       && j.inlet == 0 && j.route == Route(1, 2, "x") && j.base == 0 && j.command.writer == Some(FIRST)
       && j.command.instructions.offset == WINDOW && Given(j, FromClient(FIRST, data)) == data
  }

  lemma RestMayCome(hash: Hasher, s: Cluster, data: seq<Byte>)
    requires WindowTaken(Nodes(hash), s, data)
    ensures CanFeed(s, 0, 1) && Ready(s.jobs[0].command) && HasItsFile(s.jobs[0].command, Home(s, NodeOf(s, 0)))
    ensures NodeOf(s, 0) == "x" && !Astray(s, 0) && s.jobs[0].command.writer == Some(FIRST) && s.jobs[0].read == WINDOW
    ensures s.jobs[0].outlet == None && s.jobs[0].command.pending == WINDOW && s.streams[s.jobs[0].inlet].local
    ensures Chunk(s, 0, 1) == data[WINDOW..] && s.jobs[0].route == Route(0, 2, "") && s.jobs[0].base == s.jobs[0].start == 0
    ensures Home(s, "x") == Directory(map[], map[FIRST := File(data[..WINDOW], 2)])
    ensures Appended(Home(s, "x"), FIRST, Chunk(s, 0, 1)) == Directory(map[], map[FIRST := File(data, 2)])
  {
    assert WithFile(EMPTY, FIRST, data[..WINDOW], 2) == Directory(map[], map[FIRST := File(data[..WINDOW], 2)]);
    assert data[WINDOW..WINDOW + 1] == data[WINDOW..] && data[..WINDOW] + data[WINDOW..] == data;
  }

  lemma RestIsThere(hash: Hasher, s: Cluster, t: Cluster, data: seq<Byte>)
    requires WindowTaken(Nodes(hash), s, data) && CanFeed(s, 0, 1)
    requires HasItsFile(s.jobs[0].command, Home(s, NodeOf(s, 0))) && FilledUnlinked(Nodes(hash), s, t, 0, 1)
    ensures AllButEnded(t, data)
  {
    RestMayCome(hash, s, data);
    NamesDiffer();
    Hops(hash);
    hide Hop, Opened1, WithFile, Appended, Nodes;
    assert t.homes == map["x" := Directory(map[], map[FIRST := File(data, 2)])];
    assert data[0..] == data;
  }

  lemma TakesRest(hash: Hasher, s: Cluster, data: seq<Byte>)
    requires WindowTaken(Nodes(hash), s, data)
    ensures AllButEnded(FedSo(Nodes(hash), s, 0, 1, ALONE), data)
    ensures 0 in s.jobs && s.jobs[0].command.started
  {
    assert 1 !in s.streams;
    hide WindowTaken, FedSo, FilledUnlinked, AllButEnded, Nodes, Astray, Ready;
    RestMayCome(hash, s, data);
    WindowFills(Nodes(hash), s, 0, 1, ALONE);
    RestIsThere(hash, s, FedSo(Nodes(hash), s, 0, 1, ALONE), data);
  }

  // ---- the hop ----

  function LastOf(data: seq<Byte>): seq<Byte>
    requires |data| == WINDOW + 1
  {
    data[WINDOW..]
  }

  /** The second hop is open and has the rest of the write. */
  ghost predicate RestPassedOn(s: Cluster, data: seq<Byte>) {
    && |data| == WINDOW + 1 && s.homes == map["x" := HomeWith(FIRST, data)] && s.written == map[FIRST := data]
    && s.committed == {Write(FIRST, data)} && s.messages == {}
    && s.streams.Keys == {0, 1}
    && s.streams[1] == Stream("b", FIRST, Route(2, 2, "x"), WINDOW, false, LastOf(data), true, WINDOW)
    && s.jobs.Keys == {0} && s.jobs[0].command.finished
  }

  lemma RestIsPassedOn(hash: Hasher, s: Cluster, t: Cluster, data: seq<Byte>)
    requires AllButEnded(s, data) && EndedSo(Nodes(hash), s, t, 0, FromClient(FIRST, data), FIRST, data, AtX(1))
    ensures RestPassedOn(t, data)
  {
    hide Hop, Acks, From, Given, Ready, Nodes, Ends;
    Hops(hash);
    RestFrom(data);
    MovedHome("x", data);
  }

  lemma RestFrom(data: seq<Byte>)
    requires |data| == WINDOW + 1
    ensures From(WINDOW, data) == WINDOW
  {
  }

  lemma MovedHome(node: string, data: seq<Byte>)
    ensures var d := Directory(map[], map[FIRST := File(data, 2)]);
      map[node := d][node := Directory(d.partial, map[])] == map[node := HomeWith(FIRST, data)]
  {
  }

  lemma PassesRestOn(hash: Hasher, s: Cluster, data: seq<Byte>)
    requires AllButEnded(s, data)
    ensures RestPassedOn(FedSo(Nodes(hash), s, 0, 0, AtX(1)), data) && 0 in s.jobs && s.jobs[0].command.started
  {
    assert Ends(s, 0, data) && 1 !in s.streams && s.jobs[0].command.writer == Some(FIRST);
    assert s.jobs[0].inlet in s.streams && s.streams[s.jobs[0].inlet] == FromClient(FIRST, data);
    assert s.jobs[0].command.started;
    hide AllButEnded, RestPassedOn, Ends, EndedSo, FedSo, Nodes;
    LastFeed(Nodes(hash), s, 0, data, AtX(1));
    EndsIs(s, 0, data);
    RestIsPassedOn(hash, s, FedSo(Nodes(hash), s, 0, 0, AtX(1)), data);
  }

  /** The second location has committed the end of the write as if it were all. */
  ghost predicate Truncated(s: Cluster, data: seq<Byte>) {
    && |data| == WINDOW + 1 && s.written == map[FIRST := data] && s.committed == {Write(FIRST, data)}
    && s.homes == map["x" := HomeWith(FIRST, data), "b" := HomeWith(FIRST, LastOf(data))]
    && s.streams.Keys == {0, 1} && s.jobs.Keys == {0, 1} && s.jobs[0].command.finished && s.jobs[1].command.finished
  }

  /** What a node is sent that demands the version from one that has only its last byte. */
  function Sent(src: string, dst: string, offload: Option<nat>, data: seq<Byte>): Stream
    requires |data| == WINDOW + 1
  {
    Stream(dst, FIRST, Route(2, 2, if offload.Some? then src else ""), 0, false, LastOf(data), true, WINDOW)
  }

  /** What the copies of the write's end lead to. */
  lemma RestsGoOn(hash: Hasher, data: seq<Byte>, offset: nat)
    requires |data| == WINDOW + 1
    ensures var (g, rest) := (Nodes(hash), LastOf(data));
      && Onward(g, Stream("b", FIRST, Route(2, 2, "x"), offset, false, rest, true, WINDOW), FIRST) == None
      && Onward(g, Sent("b", "y", None, data), FIRST) == None && Onward(g, Sent("y", "a", Some(2), data), FIRST) == None
      && Acks(g, "a", Hop(g, "a", Route(2, 2, "y")).0, FIRST, 1) == {AckWrite("a", "y", FIRST, 1)}
  {
    Hops(hash);
    AcksTo(hash, "a", "y", FIRST, 1);
    hide Hop, Acks;
  }

  lemma TakesRestOnly(hash: Hasher, s: Cluster, data: seq<Byte>)
    requires RestPassedOn(s, data)
    ensures Truncated(Ended3(Nodes(hash), s, 1, 1, 1, Elsewhere(2)), data)
    ensures Comes(Nodes(hash), s, 1, 1, FIRST, Elsewhere(2)) && MayWrite(s, 1, FIRST)
  {
    NamesDiffer();
    RestsGoOn(hash, data, WINDOW);
    FirstMayWrite(s, 1);
    hide Hop, Comes, Ended3, Acks, MayWrite, Nodes, Onward, HomeWith;
    CopyIsTaken(hash, s, 1, 2);
  }

  lemma AfterLateHop(hash: Hasher, data: seq<Byte>)
    requires |data| == WINDOW + 1
    ensures Sane(Nodes(hash)) && Truncated(After(Nodes(hash), LateHop(data)), data) && AlwaysAgreed(Nodes(hash), LateHop(data))
  {
    var g := Nodes(hash);
    var (b, c) := (Feed(0, 1, false, 1, "x", 5), Feed(0, 0, true, 1, "x", 5));
    hide Nodes, Sane, After, AlwaysAgreed, WindowTaken, AllButEnded, RestPassedOn, Truncated, Comes, MayWrite, Ended3,
      Through, Fed, Agreed;
    var a := AfterWindow(hash, data);
    TakesRest(hash, After(g, a), data);
    OneMoreStep(g, a, b);
    AgreedOneMore(g, a, b);
    StartedAgrees(g, After(g, a), b);
    PassesRestOn(hash, After(g, a + [b]), data);
    OneMoreStep(g, a + [b], c);
    AgreedOneMore(g, a + [b], c);
    StartedAgrees(g, After(g, a + [b]), c);
    TakesRestOnly(hash, After(g, a + [b] + [c]), data);
    RunThrough(g, a + [b] + [c], 1, 1, 1, Elsewhere(2));
    ComesStarts(g, After(g, a + [b] + [c]), 1, 1, FIRST, Elsewhere(2));
    ThroughAgrees(g, a + [b] + [c], 1, 1, FIRST, 1, Elsewhere(2));
  }

  /** Such a run: the chain's last location commits one byte of a write that is longer than a window. */
  lemma ALateHopTruncates(hash: Hasher, data: seq<Byte>)
    requires |data| == WINDOW + 1
    ensures Sane(Nodes(hash)) && AlwaysAgreed(Nodes(hash), LateHop(data))
    ensures var s := After(Nodes(hash), LateHop(data));
      && Write(FIRST, data) in s.committed && FIRST in Home(s, "b").done && "b" in Locations(Nodes(hash), 2)
      && Home(s, "b").done[FIRST].data == data[WINDOW..] != data
  {
    AfterLateHop(hash, data);
    NamesDiffer();
    hide After, AlwaysAgreed, Sane, LateHop;
    assert Locations(Nodes(hash), 2) == ["a", "b"];
  }

  // ---- the truncated copy is passed on, and dropped ----

  /** A node offers its version, the other one demands it, and is sent it. */
  function PassOn(src: string, dst: string, offload: Option<nat>, out: nat): seq<Step> {
    var source := if offload.Some? then src else "";
    [SendOffer(src, dst, FIRST, offload), TakeMessage(OfferWrite(src, dst, FIRST, source), 0),
     TakeMessage(DemandWrite(dst, src, FIRST, source), out)]
  }

  /** A node has only the last byte of the version, the other one has nothing. */
  ghost predicate CanPassOn(g: Setting, s: Cluster, src: string, dst: string, offload: Option<nat>, out: nat, data: seq<Byte>) {
    && |data| == WINDOW + 1 && FIRST in s.written && s.written[FIRST] == data && out !in s.streams
    && Home(s, src) == HomeWith(FIRST, LastOf(data)) && dst !in s.homes
    && (offload.Some? ==> !IsMine(g, src, offload.value) && dst in Locations(g, offload.value))
  }

  lemma HasOnlyFirst(data: seq<Byte>)
    ensures VersionsOf(HomeWith(FIRST, data), true) == {FIRST} && VersionsOf(EMPTY, true) == {}
    ensures Found(HomeWith(FIRST, data), FIRST, false) == Some((FIRST, File(data, 2)))
  {
    NamesDiffer();
  }

  lemma OfferMade(g: Setting, s: Cluster, src: string, dst: string, offload: Option<nat>, out: nat, data: seq<Byte>)
    requires Sane(g) && CanPassOn(g, s, src, dst, offload, out, data)
    ensures Next(g, s, SendOffer(src, dst, FIRST, offload))
         == s.(messages := s.messages + {OfferWrite(src, dst, FIRST, if offload.Some? then src else "")})
  {
    HasOnlyFirst(LastOf(data));
    hide VersionsOf, IsMine, Locations, HomeWith;
  }

  lemma OfferAnswered(g: Setting, s: Cluster, m: Message)
    requires Sane(g) && m in s.messages && m.OfferWrite? && m.dst !in s.homes
    ensures Next(g, s, TakeMessage(m, 0)) == s.(messages := s.messages + {DemandWrite(m.dst, m.src, m.version, m.source)})
  {
    HasOnlyFirst([]);
    hide VersionsOf;
  }

  lemma DemandAnswered(g: Setting, s: Cluster, src: string, dst: string, offload: Option<nat>, out: nat, data: seq<Byte>)
    requires Sane(g) && CanPassOn(g, s, src, dst, offload, out, data)
    requires DemandWrite(dst, src, FIRST, if offload.Some? then src else "") in s.messages
    ensures Next(g, s, TakeMessage(DemandWrite(dst, src, FIRST, if offload.Some? then src else ""), out))
         == s.(streams := s.streams[out := Sent(src, dst, offload, data)])
  {
    HasOnlyFirst(LastOf(data));
    assert Mirrors(File(LastOf(data), 2)) == 2;
    hide Found, IsMine, Locations, HomeWith;
  }

  lemma PassesOn(g: Setting, steps: seq<Step>, src: string, dst: string, offload: Option<nat>, out: nat, data: seq<Byte>)
    requires Sane(g) && AlwaysAgreed(g, steps) && CanPassOn(g, After(g, steps), src, dst, offload, out, data)
    ensures var (s, t) := (After(g, steps), After(g, steps + PassOn(src, dst, offload, out)));
      t == s.(messages := t.messages, streams := s.streams[out := Sent(src, dst, offload, data)])
    ensures AlwaysAgreed(g, steps + PassOn(src, dst, offload, out))
  {
    var source := if offload.Some? then src else "";
    var (a, b, c) := (SendOffer(src, dst, FIRST, offload), TakeMessage(OfferWrite(src, dst, FIRST, source), 0),
      TakeMessage(DemandWrite(dst, src, FIRST, source), out));
    hide After, AlwaysAgreed, Sane, IsMine, Locations, HomeWith, Next;
    OfferMade(g, After(g, steps), src, dst, offload, out, data);
    OneMoreStep(g, steps, a);
    OfferAnswered(g, After(g, steps + [a]), b.message);
    OneMoreStep(g, steps + [a], b);
    DemandAnswered(g, After(g, steps + [a] + [b]), src, dst, offload, out, data);
    OneMoreStep(g, steps + [a] + [b], c);
    QuietAgrees(g, steps, a);
    QuietAgrees(g, steps + [a], b);
    QuietAgrees(g, steps + [a] + [b], c);
    assert steps + [a] + [b] + [c] == steps + PassOn(src, dst, offload, out);
  }

  /** The end of the write comes to "y", which then offloads it to "a". */
  function LateHopAndDrop(data: seq<Byte>): seq<Step> {
    LateHop(data) + PassOn("b", "y", None, 2) + Through(2, 2, 1, Elsewhere(3))
    + PassOn("y", "a", Some(2), 3) + Through(3, 3, 1, Elsewhere(4))
  }

  ghost predicate AlsoAtY(s: Cluster, data: seq<Byte>) {
    && |data| == WINDOW + 1 && s.written == map[FIRST := data] && Write(FIRST, data) in s.committed
    && s.homes == map["x" := HomeWith(FIRST, data), "b" := HomeWith(FIRST, LastOf(data)), "y" := HomeWith(FIRST, LastOf(data))]
    && s.streams.Keys == {0, 1, 2} && s.jobs.Keys == {0, 1, 2} && forall l <- s.jobs :: s.jobs[l].command.finished
  }

  ghost predicate AlsoAtA(s: Cluster, data: seq<Byte>) {
    && |data| == WINDOW + 1 && s.written == map[FIRST := data] && Write(FIRST, data) in s.committed
    && s.homes == map["x" := HomeWith(FIRST, data), "b" := HomeWith(FIRST, LastOf(data)), "y" := HomeWith(FIRST, LastOf(data)),
                      "a" := HomeWith(FIRST, LastOf(data))]
    && AckWrite("a", "y", FIRST, 1) in s.messages
  }

  lemma TakesAtY(hash: Hasher, before: Cluster, s: Cluster, data: seq<Byte>)
    requires |data| == WINDOW + 1 && Truncated(before, data)
    requires s == before.(messages := s.messages, streams := before.streams[2 := Sent("b", "y", None, data)])
    ensures AlsoAtY(Ended3(Nodes(hash), s, 2, 2, 1, Elsewhere(3)), data)
    ensures Comes(Nodes(hash), s, 2, 2, FIRST, Elsewhere(3)) && MayWrite(s, 2, FIRST)
  {
    NamesDiffer();
    RestsGoOn(hash, data, 0);
    FirstMayWrite(s, 2);
    hide Hop, Comes, Ended3, Acks, MayWrite, Nodes, Onward, HomeWith;
    CopyIsTaken(hash, s, 2, 3);
  }

  lemma TakesAtA(hash: Hasher, before: Cluster, s: Cluster, data: seq<Byte>)
    requires |data| == WINDOW + 1 && AlsoAtY(before, data)
    requires s == before.(messages := s.messages, streams := before.streams[3 := Sent("y", "a", Some(2), data)])
    ensures AlsoAtA(Ended3(Nodes(hash), s, 3, 3, 1, Elsewhere(4)), data)
    ensures Comes(Nodes(hash), s, 3, 3, FIRST, Elsewhere(4)) && MayWrite(s, 3, FIRST)
  {
    NamesDiffer();
    RestsGoOn(hash, data, 0);
    FirstMayWrite(s, 3);
    hide Hop, Comes, Ended3, Acks, MayWrite, Nodes, Onward, HomeWith;
    CopyIsTaken(hash, s, 3, 4);
  }

  lemma OffloadsFromY(hash: Hasher)
    ensures !IsMine(Nodes(hash), "y", 2) && "a" in Locations(Nodes(hash), 2)
  {
    NamesDiffer();
    assert Locations(Nodes(hash), 2) == ["a", "b"];
  }

  lemma TruncatedAtY(hash: Hasher, steps: seq<Step>, data: seq<Byte>)
    requires Sane(Nodes(hash)) && AlwaysAgreed(Nodes(hash), steps) && Truncated(After(Nodes(hash), steps), data)
    ensures var more := steps + PassOn("b", "y", None, 2) + Through(2, 2, 1, Elsewhere(3));
      AlwaysAgreed(Nodes(hash), more) && AlsoAtY(After(Nodes(hash), more), data)
  {
    var g, more, s := Nodes(hash), steps + PassOn("b", "y", None, 2), After(Nodes(hash), steps);
    NamesDiffer();
    assert CanPassOn(g, s, "b", "y", None, 2, data);
    hide Nodes, Sane, After, AlwaysAgreed, CanPassOn, PassOn, Truncated, AlsoAtY, Comes, MayWrite, Ended3, Through;
    PassesOn(g, steps, "b", "y", None, 2, data);
    TakesAtY(hash, s, After(g, more), data);
    RunThrough(g, more, 2, 2, 1, Elsewhere(3));
    ComesStarts(g, After(g, more), 2, 2, FIRST, Elsewhere(3));
    ThroughAgrees(g, more, 2, 2, FIRST, 1, Elsewhere(3));
  }

  lemma TruncatedAtA(hash: Hasher, steps: seq<Step>, data: seq<Byte>)
    requires Sane(Nodes(hash)) && AlwaysAgreed(Nodes(hash), steps) && AlsoAtY(After(Nodes(hash), steps), data)
    ensures var more := steps + PassOn("y", "a", Some(2), 3) + Through(3, 3, 1, Elsewhere(4));
      AlwaysAgreed(Nodes(hash), more) && AlsoAtA(After(Nodes(hash), more), data)
  {
    var g, more, s := Nodes(hash), steps + PassOn("y", "a", Some(2), 3), After(Nodes(hash), steps);
    NamesDiffer();
    OffloadsFromY(hash);
    assert CanPassOn(g, s, "y", "a", Some(2), 3, data);
    hide Nodes, Sane, After, AlwaysAgreed, CanPassOn, PassOn, AlsoAtY, AlsoAtA, Comes, MayWrite, Ended3, Through;
    PassesOn(g, steps, "y", "a", Some(2), 3, data);
    TakesAtA(hash, s, After(g, more), data);
    RunThrough(g, more, 3, 3, 1, Elsewhere(4));
    ComesStarts(g, After(g, more), 3, 3, FIRST, Elsewhere(4));
    ThroughAgrees(g, more, 3, 3, FIRST, 1, Elsewhere(4));
  }

  /** Such a run: "a" has acknowledged the last byte of the version to "y", which has no more of it and is about to
      drop it, and neither "a" nor any other location has the version with all its contents, nor a newer one. */
  lemma ATruncatedCopyIsDropped(hash: Hasher, data: seq<Byte>)
    requires |data| == WINDOW + 1
    ensures Sane(Nodes(hash)) && AlwaysAgreed(Nodes(hash), LateHopAndDrop(data)) && Uniform(LateHopAndDrop(data), 2)
    ensures !AlwaysPrompt(Nodes(hash), LateHopAndDrop(data))
    ensures var (s, m) := (After(Nodes(hash), LateHopAndDrop(data)), AckWrite("a", "y", FIRST, 1));
      && m in s.messages && Drops(Nodes(hash), s, m) && Write(FIRST, data) in s.committed
      && forall n <- Locations(Nodes(hash), 2) :: !Keeps(s, Home(s, n).done, FIRST)
  {
    var g := Nodes(hash);
    hide Nodes, Sane, After, AlwaysAgreed, Through, PassOn, LateHop, AlsoAtY, AlsoAtA, Truncated, Keeps, Drops;
    AfterLateHop(hash, data);
    TruncatedAtY(hash, LateHop(data), data);
    TruncatedAtA(hash, LateHop(data) + PassOn("b", "y", None, 2) + Through(2, 2, 1, Elsewhere(3)), data);
    TruncatedIsDropped(hash, After(g, LateHopAndDrop(data)), data);
    AllAskForTwo(data);
    hide AlwaysPrompt, Uniform, LateHopAndDrop, Drops;
    if AlwaysPrompt(g, LateHopAndDrop(data)) {
      PromptDropsLeaveItToALocation(g, LateHopAndDrop(data), 2, AckWrite("a", "y", FIRST, 1));
    }
  }

  lemma AllAskForTwo(data: seq<Byte>)
    requires |data| == WINDOW + 1
    ensures Uniform(LateHopAndDrop(data), 2)
  {
  }

  lemma TruncatedIsDropped(hash: Hasher, s: Cluster, data: seq<Byte>)
    requires AlsoAtA(s, data)
    ensures var m := AckWrite("a", "y", FIRST, 1);
      && m in s.messages && Drops(Nodes(hash), s, m) && Write(FIRST, data) in s.committed
      && forall n <- Locations(Nodes(hash), 2) :: !Keeps(s, Home(s, n).done, FIRST)
  {
    NamesDiffer();
    assert Locations(Nodes(hash), 2) == ["a", "b"];
    assert Consistent(Home(s, "y"));
    assert Home(s, "y").done == map[FIRST := File(LastOf(data), 2)];
    forall n | n in Locations(Nodes(hash), 2) ensures !Keeps(s, Home(s, n).done, FIRST) {
      assert Home(s, n) == HomeWith(FIRST, LastOf(data));
    }
    hide Drops, Keeps;
    DropIsDue(hash, s, AckWrite("a", "y", FIRST, 1), LastOf(data));
  }
}
