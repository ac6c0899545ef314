/** Runs of a cluster that show what can happen. */
module ClusterRuns {
  import opened Bytes
  import opened VectorClocks
  import opened FileStores
  import opened WriteCommands
  import opened Calls
  import opened MirrorChains
  import opened Clusters
  import opened ClusterInvariants
  import opened ReplicationSafety
  import opened SmallWrites
  import opened FreshVersions
  import SkewCorrectors

  const FIRST: Clock := map["x" := Stamp(5, 0)]
  const SECOND: Clock := map["x" := Stamp(6, 0)]

  /** The key's ring begins with "a" and "b"; clients send their writes to "x". */
  function Nodes(hash: Hasher): Setting {
    Setting("k", hash, ["a", "b", "x", "y"],
            map["a" := Peer("a"), "b" := Peer("b"), "x" := Peer("x"), "y" := Peer("y")])
  }

  lemma NodesAreSane(hash: Hasher)
    ensures Sane(Nodes(hash))
  {
  }

  lemma NamesDiffer()
    ensures FIRST != UNVERSIONED && SECOND != UNVERSIONED && FIRST != SECOND
    ensures "a" != "x" && "b" != "x" && "a" != "b" && "y" != "a" && "y" != "b" && "y" != "x"
  {
    assert "x" in FIRST && "x" in SECOND;
    assert FIRST["x"].time == 5 && SECOND["x"].time == 6;
    assert "a"[0] != "x"[0] && "b"[0] != "x"[0] && "a"[0] != "b"[0] && "y"[0] != "x"[0] && "y"[0] != "a"[0] && "y"[0] != "b"[0];
  }

  lemma NothingWrites(s: Cluster, node: string, v: Clock)
    requires forall l <- s.jobs :: s.jobs[l].command.finished
    ensures forall l <- s.jobs :: !WritesAt(s, l, node, v)
  {
  }

  /** Where a write with two copies goes. */
  lemma Hops(hash: Hasher)
    ensures var g := Nodes(hash);
      && Hop(g, "x", Route(0, 2, "")) == (Route(1, 2, "x"), Some(Peer("a")))
      && Hop(g, "x", Route(1, 2, "x")) == (Route(2, 2, "x"), Some(Peer("b")))
      && Hop(g, "a", Route(1, 2, "x")) == (Route(2, 2, "x"), Some(Peer("b")))
      && Hop(g, "b", Route(2, 2, "x")) == (Route(2, 2, "x"), None)
      && Hop(g, "y", Route(2, 2, "")) == (Route(2, 2, ""), None)
      && Hop(g, "a", Route(2, 2, "y")) == (Route(2, 2, "y"), None)
  {
    var g := Nodes(hash);
    NamesDiffer();
    var locs := Locations(g, 2);
    assert locs == ["a", "b"];
    assert NextOther(locs, 0, "x", "x") == 0 && NextOther(locs, 1, "x", "a") == 1 && NextOther(locs, 1, "x", "x") == 1;
  }

  lemma AcksTo(hash: Hasher, node: string, source: string, v: Clock, size: nat)
    requires source == "x" || source == "y"
    ensures Acks(Nodes(hash), node, Route(2, 2, source), v, size) == {AckWrite(node, source, v, size)}
  {
  }

  lemma Nobody(hash: Hasher, node: string, v: Clock, size: nat)
    ensures Acks(Nodes(hash), node, Route(2, 2, ""), v, size) == {}
  {
  }

  /** A drop is due at a node that has only this file. */
  lemma DropIsDue(hash: Hasher, s: Cluster, m: Message, data: seq<Byte>)
    requires m.AckWrite? && m.version != UNVERSIONED && (m.dst == "x" || m.dst == "y")
    requires Consistent(Home(s, m.dst)) && Home(s, m.dst).done == map[m.version := File(data, 2)] && |data| == m.size
    ensures Drops(Nodes(hash), s, m)
  {
    NamesDiffer();
    var g, d := Nodes(hash), Home(s, m.dst);
    assert Locations(g, 2) == ["a", "b"] && !IsMine(g, m.dst, 2);
    assert Found(d, m.version, false) == Some((m.version, File(data, 2)));
    hide Consistent;
    SkewCorrectors.OnlyTheAcknowledgedIsDropped(d, m.version, m.size, false);
  }

  // ---- one write at "x" and its two copies ----

  /** How "x" is called. */
  function AtX(out: nat): How { How(true, out, "x", 5) }

  function Elsewhere(out: nat): How { How(true, out, "", 0) }

  /** A client's write at "x" goes through the chain. */
  function WriteAndCopies(given: Clock, data: seq<Byte>): seq<Step> {
    [Upload(0, "x", given, 2, data)] + Through(0, 0, 1, AtX(1)) + Through(1, 1, 1, Elsewhere(2)) + Through(2, 2, 1, Elsewhere(3))
  }

  const ONE: seq<Byte> := [7]
  const OTHER: seq<Byte> := [8]

  function HomeWith(v: Clock, data: seq<Byte>): Directory {
    Directory(map[v := File(data, 2)], map[])
  }

  ghost predicate AtOne(s: Cluster) {
    && s.homes == map["x" := HomeWith(FIRST, ONE)] && s.written == map[FIRST := ONE] && s.asked == map[FIRST := 2]
    && s.committed == {Write(FIRST, ONE)} && s.messages == {}
    && s.streams.Keys == {0, 1} && s.streams[1] == Stream("a", FIRST, Route(1, 2, "x"), 0, false, ONE, true, 0)
    && s.jobs.Keys == {0} && s.jobs[0].command.finished
  }

  ghost predicate AtTwo(s: Cluster) {
    && s.homes == map["x" := HomeWith(FIRST, ONE), "a" := HomeWith(FIRST, ONE)]
    && s.written == map[FIRST := ONE] && s.asked == map[FIRST := 2]
    && s.committed == {Write(FIRST, ONE)} && s.messages == {AckWrite("a", "x", FIRST, 1)}
    && s.streams.Keys == {0, 1, 2} && s.streams[2] == Stream("b", FIRST, Route(2, 2, "x"), 0, false, ONE, true, 0)
    && s.jobs.Keys == {0, 1} && s.jobs[0].command.finished && s.jobs[1].command.finished
  }

  /** "x" and both locations have the write, and both have acknowledged it. */
  ghost predicate AtThree(s: Cluster) {
    && s.homes == map["x" := HomeWith(FIRST, ONE), "a" := HomeWith(FIRST, ONE), "b" := HomeWith(FIRST, ONE)]
    && s.written == map[FIRST := ONE] && s.asked == map[FIRST := 2]
    && s.committed == {Write(FIRST, ONE)} && s.messages == {AckWrite("a", "x", FIRST, 1), AckWrite("b", "x", FIRST, 1)}
    && s.streams.Keys == {0, 1, 2}
    && s.jobs.Keys == {0, 1, 2} && s.jobs[0].command.finished && s.jobs[1].command.finished && s.jobs[2].command.finished
  }

  /** The version that a client names, or that "x" gives its write in second 5 when it has nothing of the key. */
  predicate Names(given: Clock) { given == FIRST || given == UNVERSIONED }

  lemma OpensFirst(given: Clock, out: nat)
    requires Names(given)
    ensures OpensAs(EMPTY, given, AtX(out), FIRST) && Consistent(EMPTY)
  {
    NamesDiffer();
    NothingThere("x", 5);
    assert VersionsOf(EMPTY, true) == {};
  }

  /** A client's stream at "x". */
  function FromClient(given: Clock, data: seq<Byte>): Stream {
    Stream("x", given, Route(0, 2, ""), 0, true, data, true, 0)
  }

  /** What "x" passes on of it. */
  lemma OnwardFromX(hash: Hasher, given: Clock, v: Clock, data: seq<Byte>)
    ensures Onward(Nodes(hash), FromClient(given, data), v) == Some(Stream("a", v, Route(1, 2, "x"), 0, false, data, true, 0))
    ensures OneFile(FromClient(given, data), v) == HomeWith(v, data).done
  {
    Hops(hash);
    hide Hop;
    assert From(0, data) == 0 && data[0..] == data;
  }

  lemma ComesToX(hash: Hasher, s: Cluster, given: Clock, k: nat, i: nat, out: nat, data: seq<Byte>)
    requires Names(given) && k in s.streams && s.streams[k] == FromClient(given, data) && |data| == 1
    requires i !in s.jobs && out !in s.streams && "x" !in s.homes
    ensures Comes(Nodes(hash), s, k, i, FIRST, AtX(out))
  {
    OpensFirst(given, out);
    assert Home(s, "x") == EMPTY;
    hide Consistent, OpensAs;
  }

  lemma WriteAtX(hash: Hasher, given: Clock)
    requires Names(given)
    ensures AtOne(Ended3(Nodes(hash), Uploaded(NOTHING_YET, 0, "x", given, 2, ONE), 0, 0, 1, AtX(1)))
  {
    var g, s := Nodes(hash), Uploaded(NOTHING_YET, 0, "x", given, 2, ONE);
    assert s == NOTHING_YET.(streams := map[0 := FromClient(given, ONE)]);
    ComesToX(hash, s, given, 0, 0, 1, ONE);
    OnwardFromX(hash, given, FIRST, ONE);
    hide Uploaded, Onward, Comes, Ended3, OneFile, Nodes, Names;
    SmallWrite(g, s, 0, 0, FIRST, AtX(1));
  }

  lemma ComesTo(g: Setting, s: Cluster, k: nat, i: nat, v: Clock, out: nat)
    requires g.name != "" && k in s.streams && i !in s.jobs && out !in s.streams && v != UNVERSIONED
    requires s.streams[k].version == v && s.streams[k].closed && 0 < |s.streams[k].sent| <= WINDOW
    requires s.streams[k].dst !in s.homes
    ensures Comes(g, s, k, i, v, Elsewhere(out))
  {
    assert VersionsOf(EMPTY, true) == {};
  }

  /** A copy of the write, or of its last byte, is on its way to a node that has nothing. */
  ghost predicate CopyComes(s: Cluster, k: nat, out: nat) {
    && k in s.streams && k !in s.jobs && out !in s.streams
    && var st := s.streams[k];
    && !st.local && st.version == FIRST && st.closed && |st.sent| == 1 && st.route.copies == 2 && st.dst !in s.homes
  }

  /** The node has taken it in, and passed it on and acknowledged it as it was to. */
  ghost predicate CopiedSo(s: Cluster, t: Cluster, k: nat, acks: set<Message>, out: nat, onward: Option<Stream>)
    requires k in s.streams
  {
    && t.homes == s.homes[s.streams[k].dst := HomeWith(FIRST, s.streams[k].sent)]
    && t.written == s.written && t.asked == s.asked && t.committed == s.committed && t.messages == s.messages + acks
    && t.streams == (if onward.Some? then s.streams[out := onward.value] else s.streams)
    && t.jobs.Keys == s.jobs.Keys + {k} && (forall l <- s.jobs :: t.jobs[l] == s.jobs[l]) && t.jobs[k].command.finished
  }

  lemma CopyIsOneFile(st: Stream)
    requires st.route.copies == 2
    ensures OneFile(st, FIRST) == HomeWith(FIRST, st.sent).done
  {
  }

  lemma NotRecorded(s: Cluster, st: Stream, v: Clock)
    requires !st.local
    ensures Recorded(s, st, v) == s
  {
  }

  lemma CopyIsTaken(hash: Hasher, s: Cluster, k: nat, out: nat)
    requires CopyComes(s, k, out) && k in s.streams
    ensures Comes(Nodes(hash), s, k, k, FIRST, Elsewhere(out))
    ensures var (g, st) := (Nodes(hash), s.streams[k]);
      var acks := Acks(g, st.dst, Hop(g, st.dst, st.route).0, FIRST, 1);
      CopiedSo(s, Ended3(g, s, k, k, 1, Elsewhere(out)), k, acks, out, Onward(g, st, FIRST))
  {
    var g, st := Nodes(hash), s.streams[k];
    NamesDiffer();
    ComesTo(g, s, k, k, FIRST, out);
    CopyIsOneFile(st);
    NotRecorded(s, st, FIRST);
    hide Hop, Onward, Comes, Ended3, OneFile, Acks, Recorded, HomeWith, Nodes;
    SmallWrite(g, s, k, k, FIRST, Elsewhere(out));
  }

  /** What the first two copies lead to. */
  lemma CopiesGoOn(hash: Hasher)
    ensures var g := Nodes(hash);
      && Onward(g, Stream("a", FIRST, Route(1, 2, "x"), 0, false, ONE, true, 0), FIRST)
         == Some(Stream("b", FIRST, Route(2, 2, "x"), 0, false, ONE, true, 0))
      && Onward(g, Stream("b", FIRST, Route(2, 2, "x"), 0, false, ONE, true, 0), FIRST) == None
      && Acks(g, "a", Hop(g, "a", Route(1, 2, "x")).0, FIRST, 1) == {AckWrite("a", "x", FIRST, 1)}
      && Acks(g, "b", Hop(g, "b", Route(2, 2, "x")).0, FIRST, 1) == {AckWrite("b", "x", FIRST, 1)}
  {
    Hops(hash);
    AcksTo(hash, "a", "x", FIRST, 1);
    AcksTo(hash, "b", "x", FIRST, 1);
    hide Hop, Acks;
    assert From(0, ONE) == 0 && ONE[0..] == ONE;
  }

  lemma WriteAtA(hash: Hasher, s: Cluster)
    requires AtOne(s)
    ensures AtTwo(Ended3(Nodes(hash), s, 1, 1, 1, Elsewhere(2))) && Comes(Nodes(hash), s, 1, 1, FIRST, Elsewhere(2))
  {
    NamesDiffer();
    CopiesGoOn(hash);
    hide Hop, Comes, Ended3, Acks, Nodes, Onward, HomeWith;
    CopyIsTaken(hash, s, 1, 2);
  }

  lemma WriteAtB(hash: Hasher, s: Cluster)
    requires AtTwo(s)
    ensures AtThree(Ended3(Nodes(hash), s, 2, 2, 1, Elsewhere(3))) && Comes(Nodes(hash), s, 2, 2, FIRST, Elsewhere(3))
  {
    NamesDiffer();
    CopiesGoOn(hash);
    hide Hop, Comes, Ended3, Acks, Nodes, Onward, HomeWith;
    CopyIsTaken(hash, s, 2, 3);
  }

  lemma OnlyAnUpload(g: Setting, stream: nat, node: string, given: Clock, copies: Copies, data: seq<Byte>)
    requires Sane(g)
    ensures After(g, [Upload(stream, node, given, copies, data)]) == Uploaded(NOTHING_YET, stream, node, given, copies, data)
  {
    hide Uploaded;
    assert After(g, []) == NOTHING_YET;
    OneMoreStep(g, [], Upload(stream, node, given, copies, data));
    assert [] + [Upload(stream, node, given, copies, data)] == [Upload(stream, node, given, copies, data)];
  }

  lemma FirstMayWrite(s: Cluster, k: nat)
    requires k in s.streams && (forall l <- s.jobs :: s.jobs[l].command.finished)
    requires s.streams[k].local ==> FIRST !in s.written
    ensures MayWrite(s, k, FIRST)
  {
    NothingWrites(s, s.streams[k].dst, FIRST);
    hide WritesAt;
  }

  /** The first node. */
  lemma UpToX(hash: Hasher, given: Clock) returns (steps: seq<Step>)
    requires Names(given)
    ensures steps == [Upload(0, "x", given, 2, ONE)] + Through(0, 0, 1, AtX(1))
    ensures Sane(Nodes(hash)) && AtOne(After(Nodes(hash), steps)) && AlwaysAgreed(Nodes(hash), steps)
  {
    var g, start := Nodes(hash), [Upload(0, "x", given, 2, ONE)];
    NodesAreSane(hash);
    StartIsComing(hash, given);
    var s := Uploaded(NOTHING_YET, 0, "x", given, 2, ONE);
    assert 0 in s.streams;
    FirstMayWrite(s, 0);
    steps := start + Through(0, 0, 1, AtX(1));
    hide Ended3, Through, After, Uploaded, AtOne, Nodes, Sane, AlwaysAgreed, Comes, Starts, MayWrite;
    OnlyAnUpload(g, 0, "x", given, 2, ONE);
    OnlyUploadAgrees(g, 0, "x", given, 2, ONE);
    WriteAtX(hash, given);
    RunThrough(g, start, 0, 0, 1, AtX(1));
    ThroughAgrees(g, start, 0, 0, FIRST, 1, AtX(1));
  }

  lemma StartIsComing(hash: Hasher, given: Clock)
    requires Names(given)
    ensures Starts(Nodes(hash), Uploaded(NOTHING_YET, 0, "x", given, 2, ONE), 0, 0, FIRST, 1, AtX(1))
  {
    OpensFirst(given, 1);
    assert Home(Uploaded(NOTHING_YET, 0, "x", given, 2, ONE), "x") == EMPTY;
  }

  lemma OnlyUploadAgrees(g: Setting, stream: nat, node: string, given: Clock, copies: Copies, data: seq<Byte>)
    requires Sane(g)
    ensures AlwaysAgreed(g, [Upload(stream, node, given, copies, data)])
  {
    assert AlwaysAgreed(g, []);
    AgreedOneMore(g, [], Upload(stream, node, given, copies, data));
    assert [] + [Upload(stream, node, given, copies, data)] == [Upload(stream, node, given, copies, data)];
  }

  /** The second one. */
  lemma UpToA(hash: Hasher, steps: seq<Step>)
    requires Sane(Nodes(hash)) && AtOne(After(Nodes(hash), steps)) && AlwaysAgreed(Nodes(hash), steps)
    ensures var more := steps + Through(1, 1, 1, Elsewhere(2));
      AtTwo(After(Nodes(hash), more)) && AlwaysAgreed(Nodes(hash), more)
  {
    var g, s := Nodes(hash), After(Nodes(hash), steps);
    FirstMayWrite(s, 1);
    hide Ended3, Through, After, AtTwo, Nodes, Sane, AlwaysAgreed, Comes, MayWrite;
    WriteAtA(hash, s);
    ComesStarts(g, s, 1, 1, FIRST, Elsewhere(2));
    RunThrough(g, steps, 1, 1, 1, Elsewhere(2));
    ThroughAgrees(g, steps, 1, 1, FIRST, 1, Elsewhere(2));
  }

  /** The third one. */
  lemma UpToB(hash: Hasher, steps: seq<Step>)
    requires Sane(Nodes(hash)) && AtTwo(After(Nodes(hash), steps)) && AlwaysAgreed(Nodes(hash), steps)
    ensures var more := steps + Through(2, 2, 1, Elsewhere(3));
      AtThree(After(Nodes(hash), more)) && AlwaysAgreed(Nodes(hash), more)
  {
    var g, s := Nodes(hash), After(Nodes(hash), steps);
    FirstMayWrite(s, 2);
    hide Ended3, Through, After, AtThree, Nodes, Sane, AlwaysAgreed, Comes, MayWrite;
    WriteAtB(hash, s);
    ComesStarts(g, s, 2, 2, FIRST, Elsewhere(3));
    RunThrough(g, steps, 2, 2, 1, Elsewhere(3));
    ThroughAgrees(g, steps, 2, 2, FIRST, 1, Elsewhere(3));
  }

  lemma AfterAllCopies(hash: Hasher, given: Clock)
    requires Names(given)
    ensures Sane(Nodes(hash)) && AtThree(After(Nodes(hash), WriteAndCopies(given, ONE)))
    ensures AlwaysAgreed(Nodes(hash), WriteAndCopies(given, ONE))
  {
    hide Through, After, AtOne, AtTwo, AtThree, Nodes, Sane, AlwaysAgreed;
    var steps := UpToX(hash, given);
    UpToA(hash, steps);
    UpToB(hash, steps + Through(1, 1, 1, Elsewhere(2)));
  }

  // ---- a version that is used twice ----

  /** Both writes come unversioned and in the same second. When the first acknowledgement has made "x" forget the first
      one, the second one gets its version again. */
  function TwiceInASecond(): seq<Step> {
    WriteAndCopies(UNVERSIONED, ONE) + [TakeMessage(AckWrite("a", "x", FIRST, 1), 0)]
    + [Upload(4, "x", UNVERSIONED, 2, OTHER)] + Through(4, 4, 1, AtX(5))
  }

  /** And the second acknowledgement, which is for the first one, makes "x" forget the second one. */
  function TwiceAndForgotten(): seq<Step> {
    TwiceInASecond() + [TakeMessage(AckWrite("b", "x", FIRST, 1), 0)]
  }

  /** "x" has nothing of the key any more. */
  ghost predicate Forgotten(s: Cluster) {
    && s.homes == map["a" := HomeWith(FIRST, ONE), "b" := HomeWith(FIRST, ONE)]
    && s.written == map[FIRST := ONE] && s.asked == map[FIRST := 2]
    && AckWrite("b", "x", FIRST, 1) in s.messages && Write(FIRST, ONE) in s.committed
    && 4 !in s.streams && 5 !in s.streams && 4 !in s.jobs && forall l <- s.jobs :: s.jobs[l].command.finished
  }

  lemma FirstDrop(hash: Hasher, s: Cluster)
    requires AtThree(s)
    ensures Forgotten(AckTaken(Nodes(hash), s, AckWrite("a", "x", FIRST, 1)))
  {
    NamesDiffer();
    assert Home(s, "x") == HomeWith(FIRST, ONE) && Consistent(Home(s, "x"));
    hide Drops;
    DropIsDue(hash, s, AckWrite("a", "x", FIRST, 1), ONE);
  }

  /** The second write is committed at "x". */
  ghost predicate UsedTwice(s: Cluster) {
    && s.homes == map["a" := HomeWith(FIRST, ONE), "b" := HomeWith(FIRST, ONE), "x" := HomeWith(FIRST, OTHER)]
    && AckWrite("b", "x", FIRST, 1) in s.messages && {Write(FIRST, ONE), Write(FIRST, OTHER)} <= s.committed
  }

  lemma SecondWrite(hash: Hasher, s: Cluster)
    requires Forgotten(s)
    ensures UsedTwice(Ended3(Nodes(hash), Uploaded(s, 4, "x", UNVERSIONED, 2, OTHER), 4, 4, 1, AtX(5)))
  {
    var g, u := Nodes(hash), Uploaded(s, 4, "x", UNVERSIONED, 2, OTHER);
    NamesDiffer();
    assert u == s.(streams := s.streams[4 := FromClient(UNVERSIONED, OTHER)]);
    ComesToX(hash, u, UNVERSIONED, 4, 4, 5, OTHER);
    OnwardFromX(hash, UNVERSIONED, FIRST, OTHER);
    hide Uploaded, Onward, Comes, Ended3, OneFile, Nodes;
    SmallWrite(g, u, 4, 4, FIRST, AtX(5));
  }

  /** What is left. */
  ghost predicate OnlyTheFirst(s: Cluster) {
    && s.homes == map["a" := HomeWith(FIRST, ONE), "b" := HomeWith(FIRST, ONE)]
    && {Write(FIRST, ONE), Write(FIRST, OTHER)} <= s.committed
  }

  lemma SecondDrop(hash: Hasher, s: Cluster)
    requires UsedTwice(s)
    ensures OnlyTheFirst(AckTaken(Nodes(hash), s, AckWrite("b", "x", FIRST, 1)))
  {
    NamesDiffer();
    assert Home(s, "x") == HomeWith(FIRST, OTHER) && Consistent(Home(s, "x"));
    hide Drops;
    DropIsDue(hash, s, AckWrite("b", "x", FIRST, 1), OTHER);
  }

  lemma TakesAck(g: Setting, steps: seq<Step>, m: Message)
    requires Sane(g) && m in After(g, steps).messages && m.AckWrite?
    ensures After(g, steps + [TakeMessage(m, 0)]) == AckTaken(g, After(g, steps), m)
  {
    OneMoreStep(g, steps, TakeMessage(m, 0));
    hide AckTaken, After;
  }

  lemma TakesUpload(g: Setting, steps: seq<Step>, stream: nat, node: string, given: Clock, copies: Copies, data: seq<Byte>)
    requires Sane(g)
    ensures After(g, steps + [Upload(stream, node, given, copies, data)])
         == Uploaded(After(g, steps), stream, node, given, copies, data)
  {
    OneMoreStep(g, steps, Upload(stream, node, given, copies, data));
    hide Uploaded, After;
  }

  lemma AfterTwice(hash: Hasher)
    ensures Sane(Nodes(hash)) && UsedTwice(After(Nodes(hash), TwiceInASecond()))
  {
    var g := Nodes(hash);
    var a := WriteAndCopies(UNVERSIONED, ONE);
    var b := a + [TakeMessage(AckWrite("a", "x", FIRST, 1), 0)];
    var c := b + [Upload(4, "x", UNVERSIONED, 2, OTHER)];
    AfterAllCopies(hash, UNVERSIONED);
    assert AckWrite("a", "x", FIRST, 1) in After(g, a).messages;
    hide After, Through, AtThree, UsedTwice, Forgotten, Nodes, Sane, WriteAndCopies, Ended3, Uploaded, AckTaken;
    TakesAck(g, a, AckWrite("a", "x", FIRST, 1));
    FirstDrop(hash, After(g, a));
    TakesUpload(g, b, 4, "x", UNVERSIONED, 2, OTHER);
    SecondWrite(hash, After(g, b));
    RunThrough(g, c, 4, 4, 1, AtX(5));
  }

  /** Such a run: two nodes have committed different contents of the same size under one version, and clients were told
      so of both. */
  lemma AVersionUsedTwiceStandsForTwo(hash: Hasher)
    ensures Sane(Nodes(hash))
    ensures var s := After(Nodes(hash), TwiceInASecond());
      && {Write(FIRST, ONE), Write(FIRST, OTHER)} <= s.committed && FIRST in Home(s, "x").done && FIRST in Home(s, "a").done
      && Home(s, "a").done[FIRST].data == ONE && Home(s, "x").done[FIRST].data == OTHER && |ONE| == |OTHER| && ONE != OTHER
    ensures !AlwaysAgreed(Nodes(hash), TwiceInASecond())
  {
    AfterTwice(hash);
    NamesDiffer();
    var g, steps := Nodes(hash), TwiceInASecond();
    assert ONE[0] != OTHER[0];
    hide After, AlwaysAgreed, TwiceInASecond, Sane;
    if AlwaysAgreed(g, steps) {
      CopiesAgreeIffSizesDo(g, steps, "a", "x", FIRST);
    }
  }

  lemma AfterForgotten(hash: Hasher)
    ensures Sane(Nodes(hash)) && OnlyTheFirst(After(Nodes(hash), TwiceAndForgotten()))
  {
    var g, d := Nodes(hash), TwiceInASecond();
    hide After, UsedTwice, OnlyTheFirst, Nodes, Sane, TwiceInASecond, AckTaken;
    AfterTwice(hash);
    SecondAck(After(g, d));
    TakesAck(g, d, AckWrite("b", "x", FIRST, 1));
    SecondDrop(hash, After(g, d));
  }

  lemma SecondAck(s: Cluster)
    requires UsedTwice(s)
    ensures AckWrite("b", "x", FIRST, 1) in s.messages
  {
  }

  /** Such a run: a client was told that its write is committed, and no node has its bytes, nor anything newer. */
  lemma AVersionUsedTwiceLosesAWrite(hash: Hasher)
    ensures Sane(Nodes(hash))
    ensures var s := After(Nodes(hash), TwiceAndForgotten());
      && Write(FIRST, OTHER) in s.committed
      && (forall n, z :: z in Home(s, n).done ==> z == FIRST && Home(s, n).done[z].data == ONE) && ONE != OTHER
    ensures !AlwaysAgreed(Nodes(hash), TwiceAndForgotten())
  {
    AfterForgotten(hash);
    var g, steps := Nodes(hash), TwiceAndForgotten();
    assert ONE[0] != OTHER[0];
    hide After, AlwaysAgreed, TwiceAndForgotten, Sane;
    if AlwaysAgreed(g, steps) {
      NoCommittedWriteIsLost(g, steps, Write(FIRST, OTHER));
    }
  }
}
