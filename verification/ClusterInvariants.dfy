/** What every step of a cluster keeps: files, streams and acknowledgements fit the contents that were written,
    and each committed version is covered somewhere. */
module ClusterInvariants {
  import opened Bytes
  import opened VectorClocks
  import opened FileStores
  import opened WriteCommands
  import opened Calls
  import opened MirrorChains
  import opened Clusters
  import SkewCorrectors

  // ---- the invariant ----

  predicate PieceOf(piece: seq<Byte>, whole: seq<Byte>, start: nat) {
    start + |piece| <= |whole| && whole[start..start + |piece|] == piece
  }

  predicate TailOf(tail: seq<Byte>, whole: seq<Byte>) {
    |tail| <= |whole| && PieceOf(tail, whole, |whole| - |tail|)
  }

  // where nodes are

  function RankIn(ring: seq<string>, node: string): (r: nat)
    ensures r <= |ring|
  {
    if ring == [] || ring[0] == node then 0 else 1 + RankIn(ring[1..], node)
  }

  /** How many nodes a walk from the key's position meets before this one. */
  function Rank(g: Setting, node: string): (r: nat)
    ensures r <= |g.ring|
  {
    RankIn(g.ring, node)
  }

  lemma {:induction false} FoundByRank(ring: seq<string>, node: string, limit: nat)
    requires limit <= |ring|
    ensures node in ring[..limit] <==> RankIn(ring, node) < limit
  {
    if limit > 0 {
      FoundByRank(ring[1..], node, limit - 1);
      assert ring[..limit] == [ring[0]] + ring[1..][..limit - 1];
    }
  }

  /** The locations of a write are the nodes of the lowest ranks. */
  lemma LocatedByRank(g: Setting, node: string, copies: nat)
    ensures node in Locations(g, copies) <==> Rank(g, node) < copies && Rank(g, node) < |g.ring|
  {
    FoundByRank(g.ring, node, if copies <= |g.ring| then copies else |g.ring|);
    assert g.ring[..|g.ring|] == g.ring;
  }

  // files and streams

  /** A client was told that its write of this version is committed. */
  ghost predicate Told(s: Cluster, v: Clock) {
    v in s.written && Write(v, s.written[v]) in s.committed
  }

  /** What a node has committed of a version is the end of its contents, if not all. */
  ghost predicate HomeFits(s: Cluster, d: Directory) {
    && Consistent(d)
    && (forall v <- d.done :: Told(s, v) && TailOf(d.done[v].data, s.written[v]) && d.done[v].copies == Asked(s, v))
    && (forall v <- d.partial :: v in s.written && d.partial[v].copies == Asked(s, v))
  }

  ghost predicate HomesFit(s: Cluster) {
    && UNVERSIONED !in s.written && (forall v <- s.written :: Asked(s, v) < 256)
    && forall n <- s.homes :: HomeFits(s, s.homes[n])
  }

  /** A node on the ring that is a location of the write, or nearer to the key than the one it is to acknowledge
      the write to. */
  predicate MayServe(g: Setting, node: string, copies: nat, source: string) {
    Rank(g, node) < |g.ring| && (Rank(g, node) < copies || Rank(g, node) < Rank(g, source))
  }

  /** Only a write to such a node names a source to be acknowledged. */
  ghost predicate RouteFits(g: Setting, node: string, copies: nat, route: Route) {
    && (route.source == "" || MayServe(g, node, copies, route.source))
    && (route.mirror == 0 ==> route.copies == 0) && Unsigned(route.copies) == copies
  }

  /** Only a write that was committed is ever brought to its end by another node. */
  ghost predicate StreamFits(g: Setting, s: Cluster, st: Stream) {
    if st.local then st.closed && 0 <= st.route.copies < 256
    else
      && st.version in s.written && PieceOf(st.sent, s.written[st.version], st.skip)
      && (st.closed ==> st.skip + |st.sent| == |s.written[st.version]| && Told(s, st.version))
      && RouteFits(g, st.dst, Asked(s, st.version), st.route)
  }

  ghost predicate StreamsFit(g: Setting, s: Cluster) {
    forall k <- s.streams :: StreamFits(g, s, s.streams[k])
  }

  /** The file of a running command is a piece of the version's contents, and its stream goes on from there; so
      does the command with the stream it passes the write on with. */
  ghost predicate FileFits(s: Cluster, j: Job, st: Stream, data: seq<Byte>)
    requires j.command.writer.Some? && j.command.writer.value in s.written && j.read <= |st.sent|
  {
    var whole := s.written[j.command.writer.value];
    && PieceOf(data, whole, j.base)
    && (if st.local then j.base == 0 && whole[|data|..] == st.sent[j.read..]
        else st.skip + j.read == j.base + |data|)
    && (j.outlet.Some? ==>
          && j.outlet.value in s.streams && j.command.instructions.offset <= |data|
          && var hop := s.streams[j.outlet.value];
             hop.skip + |hop.sent| == j.base + j.command.instructions.offset)
  }

  ghost predicate OutletFits(s: Cluster, j: Job)
    requires j.command.writer.Some?
  {
    j.outlet.Some? ==>
      && j.outlet.value in s.streams && j.outlet.value != j.inlet
      && var hop := s.streams[j.outlet.value];
      && !hop.local && hop.version == j.command.writer.value && (j.command.InFlight() ==> !hop.closed)
  }

  /** The write that a started command belongs to is what is on record for its version. */
  ghost predicate OriginFits(g: Setting, s: Cluster, j: Job, st: Stream)
    requires j.command.writer.Some? && j.command.writer.value in s.written
  {
    var v := j.command.writer.value;
    Unsigned(j.route.copies) == Asked(s, v) && if st.local then Given(j, st) == s.written[v] else v == st.version
  }

  ghost predicate JobFits(g: Setting, s: Cluster, j: Job) {
    && j.inlet in s.streams
    && var st := s.streams[j.inlet];
    && j.read <= |st.sent| && Ready(j.command) && j.command.instructions.name == g.name
    && (!st.local ==> st.version in s.written && RouteFits(g, st.dst, Asked(s, st.version), j.route))
    && (if !j.command.started then
          && j.command.instructions.version == st.version && j.outlet == None && j.route == st.route
          && j.command.instructions.copies == Unsigned(st.route.copies)
        else
          && var v := j.command.writer.value;
          && v in s.written && OriginFits(g, s, j, st) && OutletFits(s, j)
          && (HasItsFile(j.command, Home(s, st.dst)) ==>
                FileFits(s, j, st, Home(s, st.dst).partial[v].data)))
  }

  ghost predicate JobsFit(g: Setting, s: Cluster) {
    forall i <- s.jobs :: JobFits(g, s, s.jobs[i])
  }

  /** No two running commands at a node write the same version, and no two pass their writes on with the same
      stream. */
  ghost predicate JobsApart(s: Cluster) {
    && (forall i, k, n, v | WritesAt(s, i, n, v) && WritesAt(s, k, n, v) :: i == k)
    && (forall i, k | i in s.jobs && k in s.jobs && i != k && s.jobs[i].outlet.Some? ::
          s.jobs[i].outlet != s.jobs[k].outlet)
  }

  predicate Made(s: Cluster, job: nat, node: string, v: Clock) {
    (node, v) in s.makers && s.makers[(node, v)] == job
  }

  /** No running command is astray. */
  ghost predicate OwnFiles(s: Cluster) {
    forall i, n, v | WritesAt(s, i, n, v) :: v !in if Made(s, i, n, v) then Home(s, n).done else Home(s, n).partial
  }

  // messages

  /** The version is committed here with all its contents, or a newer one is. */
  ghost predicate Keeps(s: Cluster, done: map<Clock, File>, v: Clock) {
    exists z <- done :: AtMost(v, z) && (z == v ==> v in s.written && done[v].data == s.written[v])
  }

  /** The version is committed here with all its contents. */
  ghost predicate HasAll(s: Cluster, done: map<Clock, File>, v: Clock) {
    v in done && v in s.written && done[v].data == s.written[v]
  }

  /** A client was told that a newer version is committed. */
  ghost predicate Superseded(s: Cluster, v: Clock) {
    exists w <- s.committed :: AtMost(v, w.version) && w.version != v
  }

  /** Some node of this rank or a lower one has all of the version, if it is not superseded. */
  ghost predicate KeptUpTo(g: Setting, s: Cluster, r: nat, v: Clock) {
    Superseded(s, v) || exists n :: Rank(g, n) <= r && HasAll(s, Home(s, n).done, v)
  }

  /** The node is a location of the version and of all newer ones. */
  ghost predicate Settled(g: Setting, s: Cluster, node: string, v: Clock) {
    forall w <- s.written :: AtMost(v, w) ==> node in Locations(g, Asked(s, w))
  }

  /** Whoever acknowledges a write serves it, and acknowledges all of it only when it is kept, there or nearer to the
      key; and a location of all newer versions keeps it itself. */
  ghost predicate MessageFits(g: Setting, s: Cluster, m: Message) {
    && m.version in s.written
    && match m
       case OfferWrite(src, dst, v, source) => source == "" || Rank(g, dst) < Rank(g, source)
       case DemandWrite(src, dst, v, source) => source == "" || Rank(g, src) < Rank(g, source)
       case AckWrite(src, dst, v, size) =>
         && MayServe(g, src, Asked(s, v), dst)
         && (size == |s.written[v]| ==>
               KeptUpTo(g, s, Rank(g, src), v) && (Settled(g, s, src, v) ==> Keeps(s, Home(s, src).done, v)))
  }

  ghost predicate MessagesFit(g: Setting, s: Cluster) {
    forall m <- s.messages :: MessageFits(g, s, m)
  }

  // what clients were told

  /** A version at least as new is committed here, with all its contents. */
  ghost predicate Covers(s: Cluster, done: map<Clock, File>, v: Clock) {
    exists w <- done :: AtMost(v, w) && w in s.written && done[w].data == s.written[w]
  }

  ghost predicate Covered(s: Cluster) {
    forall w <- s.committed ::
      && w.version in s.written && w.contents == s.written[w.version]
      && exists n :: Covers(s, Home(s, n).done, w.version)
  }

  ghost predicate Invariant(g: Setting, s: Cluster) {
    && HomesFit(s) && StreamsFit(g, s) && JobsFit(g, s) && JobsApart(s) && OwnFiles(s) && MessagesFit(g, s) && Covered(s)
  }

  // ---- what does not change ----

  /** What is on record for versions, and what clients were told, stays so. */
  ghost predicate Recalls(s: Cluster, t: Cluster) {
    && (forall v <- s.written :: v in t.written && t.written[v] == s.written[v] && Asked(t, v) == Asked(s, v))
    && s.committed <= t.committed && UNVERSIONED !in t.written && forall v <- t.written :: Asked(t, v) < 256
  }

  lemma HomeStillFits(s: Cluster, t: Cluster, d: Directory)
    requires HomeFits(s, d) && Recalls(s, t)
    ensures HomeFits(t, d)
  {
    hide Consistent, TailOf;
  }

  lemma HomeOf(s: Cluster, node: string)
    requires HomesFit(s)
    ensures HomeFits(s, Home(s, node)) && Consistent(Home(s, node))
  {
  }

  lemma JobOf(g: Setting, s: Cluster, job: nat)
    requires JobsFit(g, s) && job in s.jobs
    ensures JobFits(g, s, s.jobs[job]) && s.jobs[job].inlet in s.streams
  {
  }

  lemma StreamOf(g: Setting, s: Cluster, k: nat)
    requires StreamsFit(g, s) && k in s.streams
    ensures StreamFits(g, s, s.streams[k])
  {
  }

  lemma SameRecord(s: Cluster, t: Cluster)
    requires HomesFit(s) && t.written == s.written && t.asked == s.asked && s.committed <= t.committed
    ensures Recalls(s, t)
  {
    hide HomeFits;
  }

  lemma StreamStillFits(g: Setting, s: Cluster, t: Cluster, st: Stream)
    requires StreamFits(g, s, st) && Recalls(s, t)
    ensures StreamFits(g, t, st)
  {
    hide PieceOf, RouteFits;
  }

  /** What is kept stays kept, as far as acknowledgements promise. */
  ghost predicate Remembers(g: Setting, s: Cluster, t: Cluster) {
    && (forall r: nat, v | v in s.written && KeptUpTo(g, s, r, v) :: KeptUpTo(g, t, r, v))
    && forall n, v | Settled(g, t, n, v) && Keeps(s, Home(s, n).done, v) :: Keeps(t, Home(t, n).done, v)
  }

  lemma WasSettled(g: Setting, s: Cluster, t: Cluster, node: string, v: Clock)
    requires Settled(g, t, node, v) && Recalls(s, t)
    ensures Settled(g, s, node, v)
  {
  }

  lemma MessageStillFits(g: Setting, s: Cluster, t: Cluster, m: Message)
    requires MessageFits(g, s, m) && Recalls(s, t) && Remembers(g, s, t)
    ensures MessageFits(g, t, m)
  {
    if m.AckWrite? && Settled(g, t, m.src, m.version) {
      WasSettled(g, s, t, m.src, m.version);
    }
    hide Keeps, KeptUpTo, Settled, MayServe;
  }

  lemma MessagesStillFit(g: Setting, s: Cluster, t: Cluster, sent: set<Message>)
    requires MessagesFit(g, s) && Recalls(s, t) && t.messages == s.messages + sent && Remembers(g, s, t)
    requires forall m <- sent :: MessageFits(g, t, m)
    ensures MessagesFit(g, t)
  {
    hide Remembers, MessageFits;
    forall m | m in t.messages ensures MessageFits(g, t, m) {
      if m in s.messages {
        MessageStillFits(g, s, t, m);
      }
    }
  }

  lemma StillHasAll(s: Cluster, t: Cluster, done: map<Clock, File>, v: Clock)
    requires HasAll(s, done, v) && Recalls(s, t)
    ensures HasAll(t, done, v)
  {
  }

  lemma StillSuperseded(s: Cluster, t: Cluster, v: Clock)
    requires Superseded(s, v) && Recalls(s, t)
    ensures Superseded(t, v)
  {
    hide AtMost;
  }

  /** With the same committed files, everything is kept. */
  lemma SameDoneRemembers(g: Setting, s: Cluster, t: Cluster)
    requires Recalls(s, t) && forall n :: Home(t, n).done == Home(s, n).done
    ensures Remembers(g, s, t)
  {
    hide Keeps, HasAll, Superseded, Recalls, Rank;
    forall r: nat, v | v in s.written && KeptUpTo(g, s, r, v) ensures KeptUpTo(g, t, r, v) {
      if Superseded(s, v) {
        StillSuperseded(s, t, v);
      } else {
        var n :| Rank(g, n) <= r && HasAll(s, Home(s, n).done, v);
        StillHasAll(s, t, Home(s, n).done, v);
        assert HasAll(t, Home(t, n).done, v);
      }
    }
    forall n, v | Settled(g, t, n, v) && Keeps(s, Home(s, n).done, v) ensures Keeps(t, Home(t, n).done, v) {
      StillKeeps(s, t, Home(s, n).done, v);
    }
  }

  lemma StillKeeps(s: Cluster, t: Cluster, done: map<Clock, File>, v: Clock)
    requires Keeps(s, done, v) && Recalls(s, t)
    ensures Keeps(t, done, v)
  {
    hide AtMost;
  }

  lemma StillCovers(s: Cluster, t: Cluster, done: map<Clock, File>, v: Clock)
    requires Covers(s, done, v) && Recalls(s, t)
    ensures Covers(t, done, v)
  {
    hide AtMost;
  }

  /** A job is as well off as before, if its streams and its file are. */
  lemma JobStillFits(g: Setting, s: Cluster, t: Cluster, j: Job)
    requires JobFits(g, s, j) && Recalls(s, t)
    requires j.inlet in t.streams
    requires var (a, b) := (s.streams[j.inlet], t.streams[j.inlet]);
      && b.dst == a.dst && b.version == a.version && b.route == a.route && b.local == a.local && b.skip == a.skip
      && |a.sent| <= |b.sent| && (a.local ==> b.sent == a.sent)
    requires j.outlet.Some? ==> j.outlet.value in t.streams && t.streams[j.outlet.value] == s.streams[j.outlet.value]
    requires var n := s.streams[j.inlet].dst;
      HasItsFile(j.command, Home(t, n)) ==>
        && HasItsFile(j.command, Home(s, n))
        && Home(t, n).partial[j.command.writer.value] == Home(s, n).partial[j.command.writer.value]
    ensures JobFits(g, t, j)
  {
    hide PieceOf, RouteFits, Ready;
  }

  /** Only streams, messages or jobs are new. */
  ghost predicate SameFiles(s: Cluster, t: Cluster) {
    t.homes == s.homes && t.written == s.written && t.asked == s.asked && t.committed == s.committed
  }

  lemma SameFilesFit(s: Cluster, t: Cluster)
    requires HomesFit(s) && SameFiles(s, t)
    ensures HomesFit(t) && Recalls(s, t)
  {
    SameRecord(s, t);
    hide HomeFits, Recalls;
    forall n | n in t.homes ensures HomeFits(t, t.homes[n]) {
      HomeStillFits(s, t, s.homes[n]);
    }
  }

  lemma SameFilesSameCover(s: Cluster, t: Cluster)
    requires HomesFit(s) && Covered(s) && SameFiles(s, t)
    ensures HomesFit(t) && Covered(t) && Recalls(s, t)
  {
    hide HomesFit, Covers, Recalls;
    SameFilesFit(s, t);
    forall w | w in t.committed ensures exists n :: Covers(t, Home(t, n).done, w.version) {
      var n :| Covers(s, Home(s, n).done, w.version);
      StillCovers(s, t, Home(s, n).done, w.version);
      assert Covers(t, Home(t, n).done, w.version);
    }
  }

  lemma StreamsStillFit(g: Setting, s: Cluster, t: Cluster)
    requires StreamsFit(g, s) && Recalls(s, t)
    requires forall k <- t.streams :: (k in s.streams && t.streams[k] == s.streams[k]) || StreamFits(g, t, t.streams[k])
    ensures StreamsFit(g, t)
  {
    hide StreamFits;
    forall k | k in t.streams ensures StreamFits(g, t, t.streams[k]) {
      if k in s.streams && t.streams[k] == s.streams[k] {
        StreamStillFits(g, s, t, s.streams[k]);
      }
    }
  }

  lemma StillApart(s: Cluster, t: Cluster)
    requires JobsApart(s)
    requires forall i, n, v | WritesAt(t, i, n, v) :: WritesAt(s, i, n, v)
    requires forall i <- t.jobs :: t.jobs[i].outlet.Some? ==> i in s.jobs && t.jobs[i].outlet == s.jobs[i].outlet
    requires forall i <- t.jobs :: i in s.jobs || t.jobs[i].outlet == None
    ensures JobsApart(t)
  {
    hide WritesAt;
  }

  lemma SameFilesSameMessages(g: Setting, s: Cluster, t: Cluster, sent: set<Message>)
    requires MessagesFit(g, s) && HomesFit(s) && SameFiles(s, t)
    requires t.messages == s.messages + sent && forall m <- sent :: MessageFits(g, t, m)
    ensures MessagesFit(g, t)
  {
    hide MessageFits, HomeFits, Remembers;
    SameDoneRemembers(g, s, t);
    MessagesStillFit(g, s, t, sent);
  }

  /** Whoever still writes a file finds it as before. */
  lemma StillOwnFiles(s: Cluster, t: Cluster)
    requires OwnFiles(s) && t.makers == s.makers
    requires forall i, n, v | WritesAt(t, i, n, v) :: WritesAt(s, i, n, v)
    requires forall i, n, v | WritesAt(t, i, n, v) ::
      && (v in Home(t, n).done ==> v in Home(s, n).done) && (v in Home(t, n).partial ==> v in Home(s, n).partial)
    ensures OwnFiles(t)
  {
    hide WritesAt;
    forall i, n, v | WritesAt(t, i, n, v)
      ensures v !in if Made(t, i, n, v) then Home(t, n).done else Home(t, n).partial
    {
      assert Made(t, i, n, v) == Made(s, i, n, v);
    }
  }

  // ---- steps that only send ----

  lemma SendingKeeps(g: Setting, s: Cluster, sent: set<Message>)
    requires Sane(g) && Invariant(g, s)
    requires forall m <- sent :: MessageFits(g, s, m)
    ensures Invariant(g, s.(messages := s.messages + sent))
  {
    var t := s.(messages := s.messages + sent);
    forall m | m in sent ensures MessageFits(g, t, m) {
      SameForMessage(g, s, t, m);
    }
    hide HomeFits, StreamFits, JobFits, JobsFit, MessageFits, Covered, MessagesFit, OwnFiles;
    SameFilesSameCover(s, t);
    SameFilesSameMessages(g, s, t, sent);
    StreamsStillFit(g, s, t);
    OnlyMessages(g, s, t);
  }

  lemma SameForMessage(g: Setting, s: Cluster, t: Cluster, m: Message)
    requires MessageFits(g, s, m) && SameFiles(s, t)
    ensures MessageFits(g, t, m)
  {
    hide AtMost, Rank, Locations;
  }

  lemma AllFit(g: Setting, t: Cluster)
    requires forall i <- t.jobs :: JobFits(g, t, t.jobs[i])
    ensures JobsFit(g, t)
  {
  }

  lemma OnlyMessagesApart(s: Cluster, t: Cluster)
    requires JobsApart(s) && OwnFiles(s)
    requires t.homes == s.homes && t.streams == s.streams && t.jobs == s.jobs && t.makers == s.makers
    ensures JobsApart(t) && OwnFiles(t)
  {
    hide JobsApart, OwnFiles;
    assert forall i, n, v :: WritesAt(t, i, n, v) == WritesAt(s, i, n, v);
    hide WritesAt;
    StillApart(s, t);
    StillOwnFiles(s, t);
  }

  lemma OnlyMessages(g: Setting, s: Cluster, t: Cluster)
    requires JobsFit(g, s) && JobsApart(s) && OwnFiles(s) && HomesFit(s)
    requires SameFiles(s, t) && t.streams == s.streams && t.jobs == s.jobs && t.makers == s.makers
    ensures JobsFit(g, t) && JobsApart(t) && OwnFiles(t)
  {
    hide HomesFit, JobsFit, JobsApart, OwnFiles, Ready, RouteFits, FileFits;
    OnlyMessagesApart(s, t);
    SameRecord(s, t);
    hide Recalls;
    forall i | i in t.jobs ensures JobFits(g, t, t.jobs[i]) {
      JobOf(g, s, i);
      JobStillFits(g, s, t, s.jobs[i]);
    }
    AllFit(g, t);
  }

  /** A new stream, which no job knows. */
  lemma StreamingKeeps(g: Setting, s: Cluster, k: nat, st: Stream)
    requires Sane(g) && Invariant(g, s) && k !in s.streams && StreamFits(g, s, st)
    ensures Invariant(g, s.(streams := s.streams[k := st]))
  {
    var t := s.(streams := s.streams[k := st]);
    NewStreamFits(g, s, t, st);
    hide HomeFits, StreamFits, JobFits, JobsFit, MessageFits, Covered, MessagesFit, OwnFiles;
    SameFilesSameCover(s, t);
    SameFilesSameMessages(g, s, t, {});
    StreamsStillFit(g, s, t);
    OnlyAStream(g, s, k, st);
  }

  lemma NewStreamFits(g: Setting, s: Cluster, t: Cluster, st: Stream)
    requires StreamFits(g, s, st) && SameFiles(s, t)
    ensures StreamFits(g, t, st)
  {
    hide PieceOf, RouteFits;
  }

  lemma OnlyAStreamApart(g: Setting, s: Cluster, k: nat, st: Stream)
    requires JobsFit(g, s) && JobsApart(s) && OwnFiles(s) && k !in s.streams
    ensures var t := s.(streams := s.streams[k := st]); JobsApart(t) && OwnFiles(t)
  {
    var t := s.(streams := s.streams[k := st]);
    hide JobsFit, JobsApart, OwnFiles, JobFits;
    forall i, n, v | WritesAt(t, i, n, v) ensures WritesAt(s, i, n, v) {
      JobOf(g, s, i);
    }
    hide WritesAt;
    StillApart(s, t);
    StillOwnFiles(s, t);
  }

  lemma OnlyAStream(g: Setting, s: Cluster, k: nat, st: Stream)
    requires JobsFit(g, s) && JobsApart(s) && OwnFiles(s) && HomesFit(s) && k !in s.streams
    ensures var t := s.(streams := s.streams[k := st]); JobsFit(g, t) && JobsApart(t) && OwnFiles(t)
  {
    var t := s.(streams := s.streams[k := st]);
    hide HomesFit, JobsFit, JobsApart, OwnFiles, Ready, RouteFits, FileFits;
    OnlyAStreamApart(g, s, k, st);
    SameRecord(s, t);
    hide Recalls;
    forall i | i in t.jobs ensures JobFits(g, t, t.jobs[i]) {
      JobOf(g, s, i);
      JobStillFits(g, s, t, s.jobs[i]);
    }
    AllFit(g, t);
  }

  lemma UploadKeeps(g: Setting, s: Cluster, stream: nat, node: string, given: Clock, copies: Copies, data: seq<Byte>)
    requires Sane(g) && Invariant(g, s)
    ensures Invariant(g, Uploaded(s, stream, node, given, copies, data))
  {
    hide Invariant;
    if stream !in s.streams {
      StreamingKeeps(g, s, stream, Stream(node, given, Route(0, copies, ""), 0, true, data, true, 0));
    }
  }

  lemma BegunJobsFit(g: Setting, s: Cluster, job: nat, stream: nat)
    requires Sane(g) && StreamsFit(g, s) && JobsFit(g, s) && HomesFit(s)
    ensures JobsFit(g, Begun(g, s, job, stream))
  {
    var t := Begun(g, s, job, stream);
    hide HomesFit, JobsFit, StreamsFit, RouteFits, FileFits, PieceOf;
    SameRecord(s, t);
    hide Recalls;
    if t != s {
      forall i | i in t.jobs ensures JobFits(g, t, t.jobs[i]) {
        if i == job {
          StreamOf(g, s, stream);
        } else {
          JobOf(g, s, i);
          JobStillFits(g, s, t, s.jobs[i]);
        }
      }
      AllFit(g, t);
    }
  }

  lemma BegunApart(g: Setting, s: Cluster, job: nat, stream: nat)
    requires JobsApart(s) && OwnFiles(s)
    ensures JobsApart(Begun(g, s, job, stream)) && OwnFiles(Begun(g, s, job, stream))
  {
    hide JobsApart, OwnFiles;
    var t := Begun(g, s, job, stream);
    assert forall i, n, v | WritesAt(t, i, n, v) :: WritesAt(s, i, n, v);
    hide WritesAt;
    StillApart(s, t);
    StillOwnFiles(s, t);
  }

  lemma BeginKeeps(g: Setting, s: Cluster, job: nat, stream: nat)
    requires Sane(g) && Invariant(g, s)
    ensures Invariant(g, Begun(g, s, job, stream))
  {
    var t := Begun(g, s, job, stream);
    if t != s {
      BegunJobsFit(g, s, job, stream);
      BegunApart(g, s, job, stream);
      hide StreamFits, JobsFit, HomesFit, JobsApart, OwnFiles, Covered, MessagesFit, Recalls;
      SameFilesSameCover(s, t);
      SameFilesSameMessages(g, s, t, {});
      StreamsStillFit(g, s, t);
    }
  }

  lemma DismissedJobFits(g: Setting, s: Cluster, job: nat)
    requires job in s.jobs && JobFits(g, s, s.jobs[job])
    ensures var t := Dismissed(s, job); JobFits(g, t, t.jobs[job])
  {
    hide RouteFits, FileFits;
  }

  lemma DismissedJobsFit(g: Setting, s: Cluster, job: nat)
    requires JobsFit(g, s) && HomesFit(s)
    ensures JobsFit(g, Dismissed(s, job))
  {
    var t := Dismissed(s, job);
    hide HomesFit, JobsFit, RouteFits, FileFits, Ready;
    SameRecord(s, t);
    hide Recalls;
    forall i | i in t.jobs ensures JobFits(g, t, t.jobs[i]) {
      JobOf(g, s, i);
      if i == job {
        DismissedJobFits(g, s, job);
      } else {
        JobStillFits(g, s, t, s.jobs[i]);
      }
    }
    AllFit(g, t);
  }

  lemma DismissedApart(s: Cluster, job: nat)
    requires JobsApart(s) && OwnFiles(s)
    ensures JobsApart(Dismissed(s, job)) && OwnFiles(Dismissed(s, job))
  {
    hide JobsApart, OwnFiles;
    var t := Dismissed(s, job);
    assert forall i, n, v | WritesAt(t, i, n, v) :: WritesAt(s, i, n, v);
    hide WritesAt;
    StillApart(s, t);
    StillOwnFiles(s, t);
  }

  lemma DismissKeeps(g: Setting, s: Cluster, job: nat)
    requires Sane(g) && Invariant(g, s)
    ensures Invariant(g, Dismissed(s, job))
  {
    var t := Dismissed(s, job);
    DismissedJobsFit(g, s, job);
    DismissedApart(s, job);
    hide StreamFits, JobsFit, HomesFit, JobsApart, OwnFiles, Covered, MessagesFit, Recalls;
    SameFilesSameCover(s, t);
    SameFilesSameMessages(g, s, t, {});
    StreamsStillFit(g, s, t);
  }

  lemma OfferKeeps(g: Setting, s: Cluster, src: string, dst: string, version: Clock, offload: Option<nat>)
    requires Sane(g) && Invariant(g, s)
    ensures Invariant(g, Offered(g, s, src, dst, version, offload))
  {
    HomeOf(s, src);
    if offload.Some? {
      LocatedByRank(g, src, offload.value);
      LocatedByRank(g, dst, offload.value);
    }
    hide HomesFit, StreamsFit, JobsFit, MessagesFit, Covered, Rank;
    if Offered(g, s, src, dst, version, offload) != s {
      SendingKeeps(g, s, {OfferWrite(src, dst, version, if offload.Some? then src else "")});
    }
  }

  lemma OfferTakenKeeps(g: Setting, s: Cluster, m: Message)
    requires Sane(g) && Invariant(g, s) && m in s.messages && m.OfferWrite?
    ensures Invariant(g, OfferTaken(s, m))
  {
    hide HomesFit, StreamsFit, JobsFit, Covered;
    assert MessageFits(g, s, m);
    if OfferTaken(s, m) != s {
      SendingKeeps(g, s, {DemandWrite(m.dst, m.src, m.version, m.source)});
    }
  }

  lemma TailIsPiece(tail: seq<Byte>, whole: seq<Byte>)
    requires TailOf(tail, whole)
    ensures |tail| <= |whole| && PieceOf(tail, whole, |whole| - |tail|)
  {
  }

  /** A copy that is sent goes out whole: a tail of the contents, as it is. */
  lemma SentCopyFits(g: Setting, s: Cluster, m: Message, out: nat)
    requires HomesFit(s) && MessageFits(g, s, m) && m.DemandWrite?
    requires Found(Home(s, m.dst), m.version, false).Some? && out !in s.streams
    ensures StreamFits(g, s, DemandTaken(s, m, out).streams[out])
  {
    hide HomesFit, Consistent, PieceOf, Rank, Told, TailOf;
    HomeOf(s, m.dst);
    OnRecord(s);
    var d := Home(s, m.dst);
    var f := Found(d, m.version, false).value.1;
    assert m.version != UNVERSIONED && d.done[m.version] == f;
    hide Found;
    TailIsPiece(f.data, s.written[m.version]);
  }

  lemma DemandTakenKeeps(g: Setting, s: Cluster, m: Message, out: nat)
    requires Sane(g) && Invariant(g, s) && m in s.messages && m.DemandWrite?
    ensures Invariant(g, DemandTaken(s, m, out))
  {
    hide HomesFit, StreamFits, StreamsFit, JobsFit, JobsApart, OwnFiles, Covered, MessageFits, Found;
    if Found(Home(s, m.dst), m.version, false).Some? && out !in s.streams {
      SentCopyFits(g, s, m, out);
      StreamingKeeps(g, s, out, DemandTaken(s, m, out).streams[out]);
    }
  }

  // ---- the drop ----

  /** A node drops the key only if it is none of the version's locations and has committed exactly the acknowledged
      version, in the acknowledged size; the node that acknowledged it is nearer to the key. If that is all of the
      version, some node as near to the key as that one has all of it too, or it is superseded. */
  lemma DropIsCovered(g: Setting, s: Cluster, m: Message)
    requires HomesFit(s) && MessagesFit(g, s) && m in s.messages && m.AckWrite? && Drops(g, s, m)
    ensures m.version in s.written && m.dst !in Locations(g, Asked(s, m.version)) && Rank(g, m.src) < Rank(g, m.dst)
    ensures Home(s, m.dst).done.Keys == {m.version} && |Home(s, m.dst).done[m.version].data| == m.size
    ensures Home(s, m.dst).done[m.version].data == s.written[m.version] ==>
      && KeptUpTo(g, s, Rank(g, m.src), m.version)
      && (Settled(g, s, m.src, m.version) ==> Keeps(s, Home(s, m.src).done, m.version))
  {
    HomeOf(s, m.dst);
    assert MessageFits(g, s, m);
    LocatedByRank(g, m.dst, Asked(s, m.version));
    var f := Found(Home(s, m.dst), m.version, false).value.1;
    assert m.version != UNVERSIONED && m.version in Home(s, m.dst).done && f == Home(s, m.dst).done[m.version];
    hide Consistent, Keeps, KeptUpTo, Settled, Rank;
    SkewCorrectors.OnlyTheAcknowledgedIsDropped(Home(s, m.dst), m.version, m.size, IsMine(g, m.dst, f.copies));
  }

  lemma CoversOlder(s: Cluster, done: map<Clock, File>, v: Clock, w: Clock)
    requires AtMost(v, w) && Covers(s, done, w)
    ensures Covers(s, done, v)
  {
    hide AtMost;
    var top :| top in done && AtMost(w, top) && top in s.written && done[top].data == s.written[top];
    AtMostTransitive(v, w, top);
  }

  /** Whatever the dropped copy covered is covered elsewhere. */
  lemma DropCovers(g: Setting, s: Cluster, m: Message, v: Clock) returns (n: string)
    requires HomesFit(s) && MessagesFit(g, s) && Covered(s)
    requires m in s.messages && m.AckWrite? && Drops(g, s, m) && exists n :: Covers(s, Home(s, n).done, v)
    ensures Covers(s, Home(AckTaken(g, s, m), n).done, v)
  {
    hide HomesFit, MessagesFit, Drops, Covers, Keeps, Covered, KeptUpTo, Settled;
    DropIsCovered(g, s, m);
    n :| Covers(s, Home(s, n).done, v);
    if n == m.dst {
      OnlyCovers(s, Home(s, n).done, m.version, v);
      n := KeptIsCovered(g, s, Rank(g, m.src), m.version, m.dst);
      CoversOlder(s, Home(s, n).done, v, m.version);
    }
  }

  /** A node with one version covers nothing but with it. */
  lemma OnlyCovers(s: Cluster, done: map<Clock, File>, u: Clock, v: Clock)
    requires done.Keys == {u} && Covers(s, done, v)
    ensures AtMost(v, u) && u in s.written && done[u].data == s.written[u]
  {
    hide AtMost;
  }

  /** What is kept is covered, by another node than one that is further from the key and has nothing newer. */
  lemma KeptIsCovered(g: Setting, s: Cluster, r: nat, u: Clock, dst: string) returns (n: string)
    requires Covered(s) && KeptUpTo(g, s, r, u) && r < Rank(g, dst) && Home(s, dst).done.Keys == {u}
    ensures Covers(s, Home(s, n).done, u) && n != dst
  {
    hide AtMost, Rank;
    if Superseded(s, u) {
      var w :| w in s.committed && AtMost(u, w.version) && w.version != u;
      n :| Covers(s, Home(s, n).done, w.version);
      NotByAnOlder(s, Home(s, dst).done, u, w.version);
      CoversOlder(s, Home(s, n).done, u, w.version);
    } else {
      n :| Rank(g, n) <= r && HasAll(s, Home(s, n).done, u);
      AtMostItself(u);
    }
  }

  lemma AtMostItself(v: Clock)
    ensures AtMost(v, v)
  {
  }

  /** A node whose only version is `u` covers nothing newer. */
  lemma NotByAnOlder(s: Cluster, done: map<Clock, File>, u: Clock, z: Clock)
    requires done.Keys == {u} && AtMost(u, z) && z != u
    ensures !Covers(s, done, z)
  {
    if AtMost(z, u) {
      AtMostAntisymmetric(u, z);
    }
  }

  lemma DroppedHomesFit(g: Setting, s: Cluster, m: Message)
    requires HomesFit(s) && m.AckWrite?
    ensures HomesFit(AckTaken(g, s, m))
  {
    var t := AckTaken(g, s, m);
    hide HomeFits, Drops;
    SameRecord(s, t);
    hide Recalls;
    forall n | n in t.homes ensures HomeFits(t, t.homes[n]) {
      HomeStillFits(s, t, s.homes[n]);
    }
    OnRecord(s);
  }

  lemma LostFileFits(g: Setting, s: Cluster, t: Cluster, j: Job)
    requires JobFits(g, s, j) && Recalls(s, t) && t.streams == s.streams
    requires forall n :: Home(t, n) == Home(s, n) || Home(t, n) == EMPTY
    ensures JobFits(g, t, j)
  {
    hide PieceOf, RouteFits, Ready, FileFits, Recalls;
    JobStillFits(g, s, t, j);
  }

  lemma DroppedJobsFit(g: Setting, s: Cluster, m: Message)
    requires JobsFit(g, s) && HomesFit(s) && m.AckWrite?
    ensures JobsFit(g, AckTaken(g, s, m))
  {
    var t := AckTaken(g, s, m);
    hide HomesFit, JobsFit, JobFits, Drops;
    SameRecord(s, t);
    hide Recalls;
    forall i | i in t.jobs ensures JobFits(g, t, t.jobs[i]) {
      JobOf(g, s, i);
      LostFileFits(g, s, t, s.jobs[i]);
    }
    AllFit(g, t);
  }

  /** A drop forgets nothing that was promised: what was there in full was acknowledged from nearer to the key. */
  lemma DropRemembersUpTo(g: Setting, s: Cluster, m: Message, r: nat, v: Clock)
    requires HomesFit(s) && MessagesFit(g, s) && m in s.messages && m.AckWrite? && Drops(g, s, m)
    requires v in s.written && KeptUpTo(g, s, r, v)
    ensures KeptUpTo(g, AckTaken(g, s, m), r, v)
  {
    hide HomesFit, MessagesFit, Drops, Keeps, Settled, Rank, Superseded;
    var t := AckTaken(g, s, m);
    DropIsCovered(g, s, m);
    assert Superseded(t, v) == Superseded(s, v) by {
      SameSuperseded(s, t, v);
    }
    if !Superseded(s, v) {
      var n :| Rank(g, n) <= r && HasAll(s, Home(s, n).done, v);
      if n == m.dst {
        assert v == m.version;
        var k :| Rank(g, k) <= Rank(g, m.src) && HasAll(s, Home(s, k).done, v);
        assert HasAll(t, Home(t, k).done, v);
      } else {
        assert HasAll(t, Home(t, n).done, v);
      }
    }
  }

  lemma SameSuperseded(s: Cluster, t: Cluster, v: Clock)
    requires t.committed == s.committed
    ensures Superseded(t, v) == Superseded(s, v)
  {
  }

  lemma DropRemembersAt(g: Setting, s: Cluster, m: Message, n: string, v: Clock)
    requires HomesFit(s) && MessagesFit(g, s) && m in s.messages && m.AckWrite? && Drops(g, s, m)
    requires Settled(g, AckTaken(g, s, m), n, v) && Keeps(s, Home(s, n).done, v)
    ensures n != m.dst && Keeps(AckTaken(g, s, m), Home(s, n).done, v)
  {
    hide HomesFit, MessagesFit, Drops, AtMost, Rank, Locations;
    DropIsCovered(g, s, m);
  }

  lemma DroppedMessagesFit(g: Setting, s: Cluster, m: Message)
    requires HomesFit(s) && MessagesFit(g, s) && m in s.messages && m.AckWrite?
    ensures MessagesFit(g, AckTaken(g, s, m))
  {
    var t := AckTaken(g, s, m);
    if Drops(g, s, m) {
      assert Recalls(s, t);
      hide HomesFit, MessagesFit, Drops, Keeps, KeptUpTo, Settled, Recalls;
      forall r: nat, v | v in s.written && KeptUpTo(g, s, r, v) ensures KeptUpTo(g, t, r, v) {
        DropRemembersUpTo(g, s, m, r, v);
      }
      forall n, v | Settled(g, t, n, v) && Keeps(s, Home(s, n).done, v) ensures Keeps(t, Home(t, n).done, v) {
        DropRemembersAt(g, s, m, n, v);
      }
      MessagesStillFit(g, s, t, {});
    }
  }

  lemma DroppedStillCovered(g: Setting, s: Cluster, m: Message)
    requires HomesFit(s) && MessagesFit(g, s) && Covered(s) && m in s.messages && m.AckWrite?
    ensures Covered(AckTaken(g, s, m))
  {
    hide HomeFits, MessagesFit, Drops, Covers;
    var t := AckTaken(g, s, m);
    if Drops(g, s, m) {
      forall w | w in t.committed ensures exists n :: Covers(t, Home(t, n).done, w.version) {
        var n := DropCovers(g, s, m, w.version);
        StillCovers(s, t, Home(t, n).done, w.version);
      }
    }
  }

  lemma AckTakenKeeps(g: Setting, s: Cluster, m: Message)
    requires Sane(g) && Invariant(g, s) && m in s.messages && m.AckWrite?
    ensures Invariant(g, AckTaken(g, s, m))
  {
    hide HomeFits, StreamFits, StreamsFit, JobFits, JobsFit, Drops, MessagesFit, Covered, WritesAt;
    DroppedHomesFit(g, s, m);
    DroppedJobsFit(g, s, m);
    DroppedMessagesFit(g, s, m);
    DroppedStillCovered(g, s, m);
    SameStreams(g, s, AckTaken(g, s, m));
  }

  lemma SameStreams(g: Setting, s: Cluster, t: Cluster)
    requires StreamsFit(g, s) && JobsApart(s) && OwnFiles(s) && Recalls(s, t)
    requires t.streams == s.streams && t.jobs == s.jobs && t.makers == s.makers
    requires forall n :: Home(t, n) == Home(s, n) || Home(t, n) == EMPTY
    ensures StreamsFit(g, t) && JobsApart(t) && OwnFiles(t)
  {
    assert forall i, n, v | WritesAt(t, i, n, v) :: WritesAt(s, i, n, v);
    hide StreamFits, WritesAt;
    StreamsStillFit(g, s, t);
    StillApart(s, t);
    StillOwnFiles(s, t);
  }

  // ---- one call, before the callback ----

  /** The unfinished files of all other versions are as they were. */
  ghost predicate TouchesOnly(d: Directory, e: Directory, v: Clock) {
    forall w | w in e.partial && w != v :: w in d.partial && e.partial[w] == d.partial[w]
  }

  /** All streams are as they were, but for more bytes in one of them. */
  ghost predicate StreamsGrow(s: Cluster, t: Cluster, hop: Option<nat>) {
    forall k <- s.streams ::
      && k in t.streams
      && (hop != Some(k) ==> t.streams[k] == s.streams[k])
      && var (a, b) := (s.streams[k], t.streams[k]);
      && b.dst == a.dst && b.version == a.version && b.route == a.route && b.local == a.local && b.skip == a.skip
      && |a.sent| <= |b.sent| && (a.local ==> b.sent == a.sent)
  }

  lemma OtherJobFits(g: Setting, s: Cluster, t: Cluster, k: nat, node: string, v: Clock, hop: Option<nat>)
    requires JobsFit(g, s) && Recalls(s, t) && k in s.jobs
    requires forall n | n != node :: Home(t, n) == Home(s, n)
    requires TouchesOnly(Home(s, node), Home(t, node), v) && !WritesAt(s, k, node, v)
    requires StreamsGrow(s, t, hop) && (hop.Some? ==> s.jobs[k].outlet != hop)
    ensures JobFits(g, t, s.jobs[k])
  {
    assert JobFits(g, s, s.jobs[k]);
    hide PieceOf, RouteFits, Ready, FileFits;
    JobStillFits(g, s, t, s.jobs[k]);
  }

  /** A call that touches only the file of version `v` leaves all the other jobs fine. */
  lemma OthersFit(g: Setting, s: Cluster, t: Cluster, job: nat, node: string, v: Clock, hop: Option<nat>)
    requires JobsFit(g, s) && Recalls(s, t) && job in s.jobs && t.jobs.Keys == s.jobs.Keys
    requires forall k <- s.jobs :: k != job ==> t.jobs[k] == s.jobs[k] && !WritesAt(s, k, node, v)
    requires forall k <- s.jobs :: k != job && hop.Some? ==> s.jobs[k].outlet != hop
    requires forall n | n != node :: Home(t, n) == Home(s, n)
    requires TouchesOnly(Home(s, node), Home(t, node), v) && StreamsGrow(s, t, hop)
    requires JobFits(g, t, t.jobs[job])
    ensures JobsFit(g, t)
  {
    hide JobFits, WritesAt, TouchesOnly;
    forall k | k in t.jobs ensures JobFits(g, t, t.jobs[k]) {
      if k != job {
        OtherJobFits(g, s, t, k, node, v, hop);
      }
    }
  }

  lemma SameDone(g: Setting, s: Cluster, t: Cluster, sent: set<Message>)
    requires MessagesFit(g, s) && Covered(s) && Recalls(s, t) && t.committed == s.committed
    requires forall n :: Home(t, n).done == Home(s, n).done
    requires t.messages == s.messages + sent && forall m <- sent :: MessageFits(g, t, m)
    ensures MessagesFit(g, t) && Covered(t)
  {
    hide Covers, MessageFits, Remembers;
    SameDoneRemembers(g, s, t);
    MessagesStillFit(g, s, t, sent);
    forall w | w in t.committed ensures exists n :: Covers(t, Home(t, n).done, w.version) {
      var n :| Covers(s, Home(s, n).done, w.version);
      StillCovers(s, t, Home(s, n).done, w.version);
      assert Covers(t, Home(t, n).done, w.version);
    }
  }

  lemma OneHomeFits(s: Cluster, t: Cluster, node: string)
    requires HomesFit(s) && Recalls(s, t) && t.homes.Keys == s.homes.Keys + {node}
    requires forall n <- s.homes :: n != node ==> t.homes[n] == s.homes[n]
    requires HomeFits(t, t.homes[node])
    ensures HomesFit(t)
  {
    hide HomeFits;
    forall n | n in t.homes ensures HomeFits(t, t.homes[n]) {
      if n != node {
        HomeStillFits(s, t, s.homes[n]);
      }
    }
  }

  /** What the call found, and what it made of the node. */
  ghost predicate Calling(g: Setting, s: Cluster, job: nat, size: nat) {
    && CanFeed(s, job, size) && HomesFit(s) && StreamsFit(g, s) && JobsFit(g, s) && JobsApart(s) && OwnFiles(s)
  }

  function NodeOf(s: Cluster, job: nat): string
    requires job in s.jobs && s.jobs[job].inlet in s.streams
  {
    s.streams[s.jobs[job].inlet].dst
  }

  lemma NotAstray(s: Cluster, job: nat)
    requires OwnFiles(s) && job in s.jobs && s.jobs[job].inlet in s.streams
    ensures !Astray(s, job)
  {
    if s.jobs[job].command.InFlight() {
      var n, v := NodeOf(s, job), s.jobs[job].command.writer.value;
      assert WritesAt(s, job, n, v) && Made(s, job, n, v) == MadeFile(s, job);
    }
  }

  /** What a call changes that creates no file, before the callback. */
  lemma WorkedIs(s: Cluster, job: nat, size: nat, o: Outcome)
    requires CanFeed(s, job, size) && !OpensNow(s.jobs[job], o)
    ensures var (w, j) := (Worked(s, job, size, o), s.jobs[job]);
      && w == s.(homes := s.homes[NodeOf(s, job) := o.home], jobs := s.jobs[job := w.jobs[job]])
      && w.jobs[job] == j.(read := j.read + size, command := o.command, position := w.jobs[job].position)
  {
    hide Wrote;
  }

  // a call that leaves everything outside the job as it was

  lemma IdleIs(s: Cluster, job: nat, size: nat, o: Outcome)
    requires CanFeed(s, job, size) && Idles(s.jobs[job].command, Home(s, NodeOf(s, job)), o)
    ensures o.home == Home(s, NodeOf(s, job)) && !OpensNow(s.jobs[job], o)
  {
  }

  lemma IdleJobFits(g: Setting, s: Cluster, job: nat, size: nat, o: Outcome)
    requires CanFeed(s, job, size) && JobFits(g, s, s.jobs[job])
    requires Idles(s.jobs[job].command, Home(s, NodeOf(s, job)), o)
    ensures var t := Worked(s, job, size, o); JobFits(g, t, t.jobs[job])
  {
    IdleIs(s, job, size, o);
    WorkedIs(s, job, size, o);
    hide PieceOf, RouteFits, FileFits, Worked;
  }

  lemma IdleJobsFit(g: Setting, s: Cluster, job: nat, size: nat, o: Outcome)
    requires Calling(g, s, job, size) && Idles(s.jobs[job].command, Home(s, NodeOf(s, job)), o)
    ensures JobsFit(g, Worked(s, job, size, o))
  {
    var t := Worked(s, job, size, o);
    hide HomesFit, JobsFit, StreamsFit, JobsApart, OwnFiles, JobFits, Idles, Worked, OpensNow;
    JobOf(g, s, job);
    IdleJobFits(g, s, job, size, o);
    IdleIs(s, job, size, o);
    WorkedIs(s, job, size, o);
    SameRecord(s, t);
    hide Recalls, CanFeed;
    forall k | k in t.jobs ensures JobFits(g, t, t.jobs[k]) {
      if k != job {
        JobOf(g, s, k);
        SameForOther(g, s, t, s.jobs[k]);
      }
    }
    AllFit(g, t);
  }

  lemma SameForOther(g: Setting, s: Cluster, t: Cluster, j: Job)
    requires JobFits(g, s, j) && Recalls(s, t) && t.streams == s.streams && forall n :: Home(t, n) == Home(s, n)
    ensures JobFits(g, t, j)
  {
    hide Ready, HasItsFile, FileFits, RouteFits;
    JobStillFits(g, s, t, j);
  }

  lemma IdleKeeps(g: Setting, s: Cluster, job: nat, size: nat, o: Outcome)
    requires Invariant(g, s) && CanFeed(s, job, size)
    requires Idles(s.jobs[job].command, Home(s, NodeOf(s, job)), o)
    ensures Invariant(g, Worked(s, job, size, o))
  {
    hide HomesFit, StreamsFit, JobsFit, JobsApart, OwnFiles, MessagesFit, Covered, Idles, Worked, OpensNow, HomeFits;
    var t, n := Worked(s, job, size, o), NodeOf(s, job);
    IdleJobsFit(g, s, job, size, o);
    IdleApart(g, s, job, size, o);
    IdleIs(s, job, size, o);
    WorkedIs(s, job, size, o);
    HomeOf(s, n);
    SameRecord(s, t);
    hide Recalls, CanFeed, StreamFits;
    HomeStillFits(s, t, Home(s, n));
    OneHomeFits(s, t, n);
    SameDone(g, s, t, {});
    StreamsStillFit(g, s, t);
  }

  lemma IdleApart(g: Setting, s: Cluster, job: nat, size: nat, o: Outcome)
    requires JobsApart(s) && OwnFiles(s) && CanFeed(s, job, size)
    requires Idles(s.jobs[job].command, Home(s, NodeOf(s, job)), o)
    ensures JobsApart(Worked(s, job, size, o)) && OwnFiles(Worked(s, job, size, o))
  {
    hide JobsApart, OwnFiles, Worked, HasItsFile, Ready, OpensNow;
    var t := Worked(s, job, size, o);
    IdleIs(s, job, size, o);
    WorkedIs(s, job, size, o);
    assert forall i, n, v | WritesAt(t, i, n, v) :: WritesAt(s, i, n, v);
    hide WritesAt, Idles;
    StillApart(s, t);
    StillOwnFiles(s, t);
  }

  // a call that creates the unfinished file

  ghost predicate Creating(g: Setting, s: Cluster, job: nat, size: nat, o: Outcome) {
    && Calling(g, s, job, size)
    && Creates(s.jobs[job].command, Home(s, NodeOf(s, job)), Chunk(s, job, size), o)
    && Agrees(s, job, o.command.writer.value)
  }

  /** What a call changes that creates a file. */
  lemma CreatedIs(s: Cluster, job: nat, size: nat, o: Outcome)
    requires CanFeed(s, job, size) && Creates(s.jobs[job].command, Home(s, NodeOf(s, job)), Chunk(s, job, size), o)
    ensures var (t, j, st, v) := (Worked(s, job, size, o), s.jobs[job], s.streams[s.jobs[job].inlet], o.command.writer.value);
      var first := st.local && v !in s.written;
      && t.jobs == s.jobs[job := j.(read := j.read + size, command := o.command, start := j.read,
           base := if st.local then 0 else st.skip + j.read, position := t.jobs[job].position)]
      && t.homes == s.homes[st.dst := o.home] && t.streams == s.streams && t.messages == s.messages
      && t.committed == s.committed && t.makers == s.makers[(st.dst, v) := job]
      && t.written == (if first then s.written[v := st.sent[j.read..]] else s.written)
      && t.asked == (if first then s.asked[v := Unsigned(st.route.copies)] else s.asked)
  {
    hide Wrote, Ready, VersionsOf;
  }

  lemma CreatesIs(c: Command, d: Directory, chunk: seq<Byte>, o: Outcome)
    requires Creates(c, d, chunk, o)
    ensures !c.started && o.command.writer.Some? && o.command.started && o.command.InFlight() && Ready(o.command)
    ensures o.command.instructions == c.instructions && o.home.done == d.done && o.command.writer.value != UNVERSIONED
    ensures c.instructions.version != UNVERSIONED ==> o.command.writer.value == c.instructions.version
    ensures o.command.writer.value !in VersionsOf(d, true)
    ensures o.home.partial == d.partial[o.command.writer.value := File(chunk, StoredCopies(c.instructions.copies))]
  {
  }

  /** A version on record that is written again, or one that is new. */
  lemma NotedRecalls(g: Setting, s: Cluster, t: Cluster, st: Stream, v: Clock, contents: seq<Byte>)
    requires HomesFit(s) && v != UNVERSIONED && t.committed == s.committed && StreamFits(g, s, st)
    requires var first := st.local && v !in s.written;
      && t.written == (if first then s.written[v := contents] else s.written)
      && t.asked == (if first then s.asked[v := Unsigned(st.route.copies)] else s.asked)
    ensures Recalls(s, t)
  {
    hide HomeFits, PieceOf, RouteFits;
  }

  lemma OnRecord(s: Cluster)
    requires HomesFit(s)
    ensures UNVERSIONED !in s.written && forall v <- s.written :: Asked(s, v) < 256
  {
  }

  lemma CreateRecalls(g: Setting, s: Cluster, job: nat, size: nat, o: Outcome)
    requires Creating(g, s, job, size, o)
    ensures var (t, v, st) := (Worked(s, job, size, o), o.command.writer.value, s.streams[s.jobs[job].inlet]);
      && Recalls(s, t) && v in t.written && Asked(t, v) == Unsigned(st.route.copies)
      && (if st.local then t.written[v] == st.sent[s.jobs[job].read..]
          else v == st.version && t.written == s.written && t.asked == s.asked)
  {
    hide JobsFit, StreamsFit, HomesFit, JobsApart, OwnFiles, Creates, Worked, PieceOf, FileFits, Busy, Ready,
      VersionsOf, Recalls, Told;
    CreatesIs(s.jobs[job].command, Home(s, NodeOf(s, job)), Chunk(s, job, size), o);
    var t, v, j, st := Worked(s, job, size, o), o.command.writer.value, s.jobs[job], s.streams[s.jobs[job].inlet];
    CreatedIs(s, job, size, o);
    JobOf(g, s, job);
    StreamOf(g, s, j.inlet);
    OnRecord(s);
    NotedRecalls(g, s, t, st, v, st.sent[j.read..]);
  }

  lemma PieceOfPiece(piece: seq<Byte>, whole: seq<Byte>, start: nat, lo: nat, hi: nat)
    requires PieceOf(piece, whole, start) && lo <= hi <= |piece|
    ensures PieceOf(piece[lo..hi], whole, start + lo)
  {
    forall i | 0 <= i < hi - lo ensures whole[start + lo..start + hi][i] == piece[lo..hi][i] {
      assert piece[lo + i] == whole[start..start + |piece|][lo + i];
    }
  }

  /** The first chunk of a file, as a piece of the version's contents, and what of its stream follows it. */
  ghost predicate FirstPiece(whole: seq<Byte>, chunk: seq<Byte>, j: Job, st: Stream, size: nat)
    requires j.read + size <= |st.sent|
  {
    var base := if st.local then 0 else st.skip + j.read;
    |chunk| == size && PieceOf(chunk, whole, base) && (st.local ==> whole[size..] == st.sent[j.read + size..])
  }

  lemma OwnPiece(sent: seq<Byte>, read: nat, size: nat)
    requires read + size <= |sent|
    ensures PieceOf(sent[read..read + size], sent[read..], 0) && sent[read..][size..] == sent[read + size..]
  {
  }

  lemma CreatedPiece(g: Setting, s: Cluster, job: nat, size: nat, o: Outcome)
    requires Creating(g, s, job, size, o)
    ensures var (t, v) := (Worked(s, job, size, o), o.command.writer.value);
      v in t.written && FirstPiece(t.written[v], Chunk(s, job, size), s.jobs[job], s.streams[s.jobs[job].inlet], size)
  {
    hide JobsFit, StreamsFit, HomesFit, JobsApart, OwnFiles, Creates, Worked, Agrees, PieceOf, RouteFits, Recalls, Told;
    var j, st := s.jobs[job], s.streams[s.jobs[job].inlet];
    StreamOf(g, s, j.inlet);
    CreateRecalls(g, s, job, size, o);
    if st.local {
      OwnPiece(st.sent, j.read, size);
    } else {
      PieceOfPiece(st.sent, s.written[st.version], st.skip, j.read, j.read + size);
    }
  }

  lemma CreatedJobFits(g: Setting, s: Cluster, job: nat, size: nat, t: Cluster, v: Clock)
    requires CanFeed(s, job, size) && JobFits(g, s, s.jobs[job]) && !s.jobs[job].command.started && Recalls(s, t)
    requires job in t.jobs
    requires var (j, st, k) := (s.jobs[job], s.streams[s.jobs[job].inlet], t.jobs[job]);
      && t.streams == s.streams && v in t.written && Asked(t, v) == Unsigned(st.route.copies)
      && k == j.(read := j.read + size, command := k.command, start := j.read,
           base := if st.local then 0 else st.skip + j.read, position := k.position)
      && k.command.started && k.command.writer == Some(v) && Ready(k.command)
      && k.command.instructions == j.command.instructions
      && (if st.local then t.written[v] == st.sent[j.read..] else v == st.version)
      && FirstPiece(t.written[v], Chunk(s, job, size), j, st, size)
      && v in Home(t, st.dst).partial && Home(t, st.dst).partial[v].data == Chunk(s, job, size)
    ensures JobFits(g, t, t.jobs[job])
  {
    hide PieceOf, RouteFits, Ready;
  }

  lemma CreateJobFits(g: Setting, s: Cluster, job: nat, size: nat, o: Outcome)
    requires Creating(g, s, job, size, o)
    ensures var t := Worked(s, job, size, o); JobFits(g, t, t.jobs[job])
  {
    hide JobsFit, StreamsFit, HomesFit, JobsApart, OwnFiles, Creates, Worked, Agrees, PieceOf, RouteFits, Ready,
      VersionsOf, Recalls;
    CreatesIs(s.jobs[job].command, Home(s, NodeOf(s, job)), Chunk(s, job, size), o);
    var t, v, j, st := Worked(s, job, size, o), o.command.writer.value, s.jobs[job], s.streams[s.jobs[job].inlet];
    CreateRecalls(g, s, job, size, o);
    CreatedPiece(g, s, job, size, o);
    CreatedIs(s, job, size, o);
    JobOf(g, s, job);
    CreatedJobFits(g, s, job, size, t, v);
  }

  /** The node's own view of the call: only the file of this version is touched, and nothing is committed. */
  ghost predicate Touched(s: Cluster, t: Cluster, node: string, v: Clock) {
    && t.homes.Keys == s.homes.Keys + {node}
    && (forall n <- s.homes :: n != node ==> t.homes[n] == s.homes[n])
    && TouchesOnly(Home(s, node), Home(t, node), v)
  }

  lemma TouchedElsewhere(s: Cluster, t: Cluster, node: string, v: Clock)
    requires Touched(s, t, node, v)
    ensures forall n | n != node :: Home(t, n) == Home(s, n)
    ensures Home(t, node).done == Home(s, node).done ==> forall n :: Home(t, n).done == Home(s, n).done
  {
    hide TouchesOnly;
  }

  lemma WorkedTouches(s: Cluster, job: nat, size: nat, o: Outcome, v: Clock)
    requires CanFeed(s, job, size) && TouchesOnly(Home(s, NodeOf(s, job)), o.home, v)
    ensures var t := Worked(s, job, size, o); Touched(s, t, NodeOf(s, job), v) && Home(t, NodeOf(s, job)) == o.home
  {
    hide TouchesOnly;
  }

  lemma CreateTouches(g: Setting, s: Cluster, job: nat, size: nat, o: Outcome)
    requires Creating(g, s, job, size, o)
    ensures var (d, v) := (Home(s, NodeOf(s, job)), o.command.writer.value);
      && TouchesOnly(d, o.home, v) && o.home.done == d.done
      && forall k <- s.jobs :: k != job ==> !WritesAt(s, k, NodeOf(s, job), v)
  {
    hide JobsFit, StreamsFit, HomesFit, JobsApart, OwnFiles, Creates, WritesAt, VersionsOf;
    CreatesIs(s.jobs[job].command, Home(s, NodeOf(s, job)), Chunk(s, job, size), o);
  }

  lemma OthersStillFit(g: Setting, s: Cluster, t: Cluster, job: nat, node: string, v: Clock, hop: Option<nat>)
    requires JobsFit(g, s) && Recalls(s, t) && job in s.jobs && t.jobs.Keys == s.jobs.Keys
    requires forall k <- s.jobs :: k != job ==> t.jobs[k] == s.jobs[k] && !WritesAt(s, k, node, v)
    requires hop.Some? ==> forall k <- s.jobs :: k != job ==> s.jobs[k].outlet != hop
    requires Touched(s, t, node, v) && StreamsGrow(s, t, hop) && JobFits(g, t, t.jobs[job])
    ensures JobsFit(g, t)
  {
    hide JobFits, JobsFit, StreamsGrow, WritesAt, TouchesOnly;
    TouchedElsewhere(s, t, node, v);
    OthersFit(g, s, t, job, node, v, hop);
  }

  lemma CreatedWrites(g: Setting, s: Cluster, job: nat, size: nat, o: Outcome)
    requires Creating(g, s, job, size, o)
    ensures var (t, n, v) := (Worked(s, job, size, o), NodeOf(s, job), o.command.writer.value);
      && t.jobs.Keys == s.jobs.Keys && (forall i <- s.jobs :: t.jobs[i].outlet == s.jobs[i].outlet)
      && (forall i, m, w | i != job && WritesAt(t, i, m, w) :: WritesAt(s, i, m, w))
      && (forall m, w | WritesAt(t, job, m, w) :: m == n && w == v)
      && t.makers == s.makers[(n, v) := job] && v !in VersionsOf(Home(s, n), true)
  {
    CreatesIs(s.jobs[job].command, Home(s, NodeOf(s, job)), Chunk(s, job, size), o);
    CreatedIs(s, job, size, o);
    assert CanFeed(s, job, size);
    hide Creating, Calling, Creates, Worked, Agrees, VersionsOf, Ready;
  }

  lemma NewWriterApart(s: Cluster, t: Cluster, job: nat, n: string, v: Clock)
    requires JobsApart(s) && t.jobs.Keys == s.jobs.Keys && forall i <- s.jobs :: t.jobs[i].outlet == s.jobs[i].outlet
    requires forall i, m, w | i != job && WritesAt(t, i, m, w) :: WritesAt(s, i, m, w)
    requires forall m, w | WritesAt(t, job, m, w) :: m == n && w == v
    requires forall k <- s.jobs :: k != job ==> !WritesAt(s, k, n, v)
    ensures JobsApart(t)
  {
    forall i, k, m, w | WritesAt(t, i, m, w) && WritesAt(t, k, m, w) ensures i == k {
      assert i in s.jobs && k in s.jobs;
      if i != job && k != job {
        assert WritesAt(s, i, m, w) && WritesAt(s, k, m, w);
      }
    }
  }

  lemma CreateApart(g: Setting, s: Cluster, job: nat, size: nat, o: Outcome)
    requires Creating(g, s, job, size, o)
    ensures JobsApart(Worked(s, job, size, o))
  {
    hide JobsApart, JobsFit, StreamsFit, HomesFit, OwnFiles, TouchesOnly, Agrees, VersionsOf, Worked, WritesAt,
      Creates, NodeOf;
    CreatesIs(s.jobs[job].command, Home(s, NodeOf(s, job)), Chunk(s, job, size), o);
    CreateTouches(g, s, job, size, o);
    CreatedWrites(g, s, job, size, o);
    NewWriterApart(s, Worked(s, job, size, o), job, NodeOf(s, job), o.command.writer.value);
  }

  lemma NewOwnFile(s: Cluster, t: Cluster, job: nat, n: string, v: Clock)
    requires OwnFiles(s) && t.makers == s.makers[(n, v) := job] && Touched(s, t, n, v)
    requires forall m | m != n :: Home(t, m) == Home(s, m)
    requires Home(t, n).done == Home(s, n).done && v !in VersionsOf(Home(s, n), true)
    requires forall i, m, w | i != job && WritesAt(t, i, m, w) :: WritesAt(s, i, m, w)
    requires forall m, w | WritesAt(t, job, m, w) :: m == n && w == v
    requires forall k <- s.jobs :: k != job ==> !WritesAt(s, k, n, v)
    ensures OwnFiles(t)
  {
    forall i, m, w | WritesAt(t, i, m, w)
      ensures w !in if Made(t, i, m, w) then Home(t, m).done else Home(t, m).partial
    {
      if i == job {
        assert Made(t, i, m, w);
      } else {
        assert WritesAt(s, i, m, w) && (m, w) != (n, v);
        assert Made(t, i, m, w) == Made(s, i, m, w);
      }
    }
  }

  lemma CreateOwnFiles(g: Setting, s: Cluster, job: nat, size: nat, o: Outcome)
    requires Creating(g, s, job, size, o)
    ensures OwnFiles(Worked(s, job, size, o))
  {
    hide JobsApart, JobsFit, StreamsFit, HomesFit, OwnFiles, TouchesOnly, Agrees, VersionsOf, Worked, WritesAt,
      Creates, Touched, NodeOf;
    CreatesIs(s.jobs[job].command, Home(s, NodeOf(s, job)), Chunk(s, job, size), o);
    var t, n, v := Worked(s, job, size, o), NodeOf(s, job), o.command.writer.value;
    CreateTouches(g, s, job, size, o);
    CreatedWrites(g, s, job, size, o);
    WorkedTouches(s, job, size, o, v);
    TouchedElsewhere(s, t, n, v);
    NewOwnFile(s, t, job, n, v);
  }

  lemma CreateJobsFit(g: Setting, s: Cluster, job: nat, size: nat, o: Outcome)
    requires Creating(g, s, job, size, o)
    ensures JobsFit(g, Worked(s, job, size, o))
  {
    hide JobFits, HomesFit, StreamsFit, JobsFit, JobsApart, OwnFiles, WritesAt, TouchesOnly, Touched, Creates, Agrees,
      Worked, StreamsGrow, Recalls, VersionsOf;
    CreatesIs(s.jobs[job].command, Home(s, NodeOf(s, job)), Chunk(s, job, size), o);
    var t, n, v := Worked(s, job, size, o), NodeOf(s, job), o.command.writer.value;
    CreateJobFits(g, s, job, size, o);
    CreateRecalls(g, s, job, size, o);
    CreateTouches(g, s, job, size, o);
    CreatedIs(s, job, size, o);
    WorkedTouches(s, job, size, o, v);
    NoneGrows(s, t);
    OthersStillFit(g, s, t, job, n, v, None);
  }

  lemma RecordIsSmall(s: Cluster, t: Cluster, v: Clock)
    requires Recalls(s, t) && v in t.written
    ensures Asked(t, v) < 256
  {
  }

  lemma OneMoreUnfinished(t: Cluster, d: Directory, e: Directory, v: Clock, f: File)
    requires HomeFits(t, d) && v !in VersionsOf(d, true) && v != UNVERSIONED && v in t.written && f.copies == Asked(t, v)
    requires e.done == d.done && e.partial == d.partial[v := f]
    ensures HomeFits(t, e)
  {
    hide Antichain, TailOf, Told;
  }

  lemma CreatedHomeFits(g: Setting, s: Cluster, job: nat, size: nat, o: Outcome)
    requires Creating(g, s, job, size, o)
    ensures HomeFits(Worked(s, job, size, o), o.home)
  {
    hide JobsFit, StreamsFit, HomesFit, HomeFits, JobsApart, OwnFiles, Creates, Worked, Agrees, PieceOf, RouteFits,
      Ready, VersionsOf, FileFits, Recalls, Consistent;
    CreatesIs(s.jobs[job].command, Home(s, NodeOf(s, job)), Chunk(s, job, size), o);
    var t, v, j := Worked(s, job, size, o), o.command.writer.value, s.jobs[job];
    var d := Home(s, NodeOf(s, job));
    CreateRecalls(g, s, job, size, o);
    HomeOf(s, NodeOf(s, job));
    JobOf(g, s, job);
    HomeStillFits(s, t, d);
    RecordIsSmall(s, t, v);
    OneMoreUnfinished(t, d, o.home, v, File(Chunk(s, job, size), StoredCopies(j.command.instructions.copies)));
  }

  lemma CreateKeeps(g: Setting, s: Cluster, job: nat, size: nat, o: Outcome)
    requires Invariant(g, s) && Creating(g, s, job, size, o)
    ensures Invariant(g, Worked(s, job, size, o))
  {
    hide HomesFit, StreamsFit, JobsFit, JobsApart, OwnFiles, MessagesFit, Covered, Worked, HomeFits, Creates,
      WritesAt, TouchesOnly, Touched, Recalls, StreamFits, Agrees, VersionsOf;
    CreatesIs(s.jobs[job].command, Home(s, NodeOf(s, job)), Chunk(s, job, size), o);
    var t, n, v := Worked(s, job, size, o), NodeOf(s, job), o.command.writer.value;
    CreateRecalls(g, s, job, size, o);
    CreateJobsFit(g, s, job, size, o);
    CreateApart(g, s, job, size, o);
    CreateOwnFiles(g, s, job, size, o);
    CreatedHomeFits(g, s, job, size, o);
    CreatedIs(s, job, size, o);
    OneHomeFits(s, t, n);
    SameDone(g, s, t, {});
    StreamsStillFit(g, s, t);
  }

  // a call that adds to the file

  lemma ClientFileGrows(whole: seq<Byte>, data: seq<Byte>, sent: seq<Byte>, read: nat, size: nat)
    requires read + size <= |sent| && PieceOf(data, whole, 0) && whole[|data|..] == sent[read..]
    ensures PieceOf(data + sent[read..read + size], whole, 0)
    ensures whole[|data| + size..] == sent[read + size..]
  {
    assert sent[read..][size..] == sent[read + size..] && sent[read..][..size] == sent[read..read + size];
    assert PieceOf(sent[read..read + size], whole, |data|);
    JoinedPiece(data, sent[read..read + size], whole, 0);
  }

  lemma SentFileGrows(whole: seq<Byte>, data: seq<Byte>, base: nat, sent: seq<Byte>, skip: nat, read: nat, size: nat)
    requires read + size <= |sent| && PieceOf(data, whole, base) && PieceOf(sent, whole, skip)
    requires skip + read == base + |data|
    ensures PieceOf(data + sent[read..read + size], whole, base)
  {
    PieceOfPiece(sent, whole, skip, read, read + size);
    JoinedPiece(data, sent[read..read + size], whole, base);
  }

  /** The file with the chunk is a piece of the contents again, and the stream goes on behind it. */
  ghost predicate LongerFile(whole: seq<Byte>, more: seq<Byte>, j: Job, st: Stream, size: nat)
    requires j.read + size <= |st.sent|
  {
    && PieceOf(more, whole, j.base)
    && (if st.local then j.base == 0 && whole[|more|..] == st.sent[j.read + size..]
        else st.skip + j.read + size == j.base + |more|)
    && (st.closed && j.read + size == |st.sent| ==> j.base + |more| == |whole|)
  }

  lemma LongerFileFits(g: Setting, s: Cluster, job: nat, size: nat)
    requires CanFeed(s, job, size) && StreamsFit(g, s) && JobsFit(g, s)
    requires HasItsFile(s.jobs[job].command, Home(s, NodeOf(s, job)))
    ensures var (j, st) := (s.jobs[job], s.streams[s.jobs[job].inlet]);
      var (v, data) := (j.command.writer.value, Home(s, st.dst).partial[j.command.writer.value].data);
      && v in s.written && (!st.local ==> v == st.version)
      && LongerFile(s.written[v], data + Chunk(s, job, size), j, st, size)
  {
    var j, st := s.jobs[job], s.streams[s.jobs[job].inlet];
    assert JobFits(g, s, j);
    assert StreamFits(g, s, st);
    var v := j.command.writer.value;
    var data := Home(s, st.dst).partial[v].data;
    assert FileFits(s, j, st, data);
    hide JobFits, JobsFit, StreamsFit, Ready, OutletFits, RouteFits, PieceOf;
    if st.local {
      ClientFileGrows(s.written[v], data, st.sent, j.read, size);
    } else {
      SentFileGrows(s.written[v], data, j.base, st.sent, st.skip, j.read, size);
    }
  }

  lemma JoinedPiece(a: seq<Byte>, b: seq<Byte>, whole: seq<Byte>, start: nat)
    requires PieceOf(a, whole, start) && PieceOf(b, whole, start + |a|)
    ensures PieceOf(a + b, whole, start)
    ensures whole[start + |a|..][|b|..] == whole[start + |a + b|..]
  {
    assert whole[start..start + |a + b|] == whole[start..start + |a|] + whole[start + |a|..start + |a| + |b|];
  }

  ghost predicate Growing(g: Setting, s: Cluster, job: nat, size: nat, o: Outcome) {
    Calling(g, s, job, size) && Grows(s.jobs[job].command, Home(s, NodeOf(s, job)), Chunk(s, job, size), o)
  }

  lemma GrowsIs(c: Command, d: Directory, chunk: seq<Byte>, o: Outcome)
    requires Grows(c, d, chunk, o)
    ensures HasItsFile(c, d) && c.InFlight() && o.home == Appended(d, c.writer.value, chunk)
    ensures o.command == c.(pending := o.command.pending) && Ready(o.command)
  {
  }

  lemma GrownFileFits(g: Setting, s: Cluster, job: nat, size: nat, t: Cluster)
    requires CanFeed(s, job, size) && JobFits(g, s, s.jobs[job])
    requires HasItsFile(s.jobs[job].command, Home(s, NodeOf(s, job))) && s.jobs[job].command.started
    requires var (j, st, v) := (s.jobs[job], s.streams[s.jobs[job].inlet], s.jobs[job].command.writer.value);
      var more := Home(s, st.dst).partial[v].data + Chunk(s, job, size);
      && v in s.written && LongerFile(s.written[v], more, j, st, size)
      && job in t.jobs && t.streams == s.streams && t.written == s.written && t.asked == s.asked
      && t.jobs[job] == j.(read := j.read + size, command := t.jobs[job].command, position := t.jobs[job].position)
      && t.jobs[job].command == j.command.(pending := t.jobs[job].command.pending) && Ready(t.jobs[job].command)
      && v in Home(t, st.dst).partial && Home(t, st.dst).partial[v].data == more
    ensures JobFits(g, t, t.jobs[job])
  {
    hide PieceOf, RouteFits, Ready;
  }

  lemma GrownJobFits(g: Setting, s: Cluster, job: nat, size: nat, o: Outcome)
    requires Growing(g, s, job, size, o)
    ensures var t := Worked(s, job, size, o); JobFits(g, t, t.jobs[job])
  {
    hide JobsFit, StreamsFit, HomesFit, JobsApart, OwnFiles, Grows, Worked, PieceOf, RouteFits, Ready;
    GrowsIs(s.jobs[job].command, Home(s, NodeOf(s, job)), Chunk(s, job, size), o);
    LongerFileFits(g, s, job, size);
    JobOf(g, s, job);
    WorkedIs(s, job, size, o);
    GrownFileFits(g, s, job, size, Worked(s, job, size, o));
  }

  /** Adding to one's own file touches nobody else's. */
  lemma AppendTouches(g: Setting, s: Cluster, job: nat, e: Directory, bytes: seq<Byte>)
    requires JobsApart(s) && job in s.jobs && s.jobs[job].inlet in s.streams
    requires HasItsFile(s.jobs[job].command, Home(s, NodeOf(s, job)))
    requires e == Appended(Home(s, NodeOf(s, job)), s.jobs[job].command.writer.value, bytes)
    ensures var (d, v) := (Home(s, NodeOf(s, job)), s.jobs[job].command.writer.value);
      && TouchesOnly(d, e, v) && SameButBytes(d, e)
      && forall k <- s.jobs :: k != job ==> !WritesAt(s, k, NodeOf(s, job), v)
  {
    assert WritesAt(s, job, NodeOf(s, job), s.jobs[job].command.writer.value);
  }

  /** Nothing but the bytes of unfinished files is different. */
  ghost predicate SameButBytes(d: Directory, e: Directory) {
    && e.done == d.done && e.partial.Keys == d.partial.Keys
    && forall v <- d.partial :: e.partial[v].copies == d.partial[v].copies
  }

  /** With the same names in a directory, it is as fine as before. */
  lemma SameNames(s: Cluster, t: Cluster, d: Directory, e: Directory)
    requires HomeFits(s, d) && Recalls(s, t) && SameButBytes(d, e)
    ensures HomeFits(t, e)
  {
    hide TailOf, Antichain;
  }

  lemma GrownApart(g: Setting, s: Cluster, job: nat, size: nat, o: Outcome)
    requires Growing(g, s, job, size, o)
    ensures JobsApart(Worked(s, job, size, o)) && OwnFiles(Worked(s, job, size, o))
  {
    hide JobsFit, StreamsFit, HomesFit, JobsApart, OwnFiles, Grows, Worked, Ready, TouchesOnly, Appended, HasItsFile;
    var t := Worked(s, job, size, o);
    GrowsIs(s.jobs[job].command, Home(s, NodeOf(s, job)), Chunk(s, job, size), o);
    AppendTouches(g, s, job, o.home, Chunk(s, job, size));
    WorkedIs(s, job, size, o);
    assert forall i, m, w | WritesAt(t, i, m, w) :: WritesAt(s, i, m, w);
    hide WritesAt;
    StillApart(s, t);
    StillOwnFiles(s, t);
  }

  lemma NoneGrows(s: Cluster, t: Cluster)
    requires t.streams == s.streams
    ensures StreamsGrow(s, t, None)
  {
  }

  lemma GrownJobsFit(g: Setting, s: Cluster, job: nat, size: nat, o: Outcome)
    requires Growing(g, s, job, size, o)
    ensures JobsFit(g, Worked(s, job, size, o))
  {
    hide JobsFit, StreamsFit, HomesFit, JobsApart, OwnFiles, Grows, Worked, WritesAt, TouchesOnly, Appended,
      HasItsFile, Touched, StreamsGrow, JobFits, Recalls;
    GrowsIs(s.jobs[job].command, Home(s, NodeOf(s, job)), Chunk(s, job, size), o);
    var t, n, v := Worked(s, job, size, o), NodeOf(s, job), s.jobs[job].command.writer.value;
    AppendTouches(g, s, job, o.home, Chunk(s, job, size));
    GrownJobFits(g, s, job, size, o);
    WorkedIs(s, job, size, o);
    WorkedTouches(s, job, size, o, v);
    SameRecord(s, t);
    NoneGrows(s, t);
    OthersStillFit(g, s, t, job, n, v, None);
  }

  lemma SameDoneHere(d: Directory, e: Directory)
    requires SameButBytes(d, e)
    ensures e.done == d.done
  {
  }

  lemma GrowKeeps(g: Setting, s: Cluster, job: nat, size: nat, o: Outcome)
    requires Invariant(g, s) && Growing(g, s, job, size, o)
    ensures Invariant(g, Worked(s, job, size, o))
  {
    hide HomesFit, StreamsFit, JobsFit, JobsApart, OwnFiles, MessagesFit, Covered, Worked, HomeFits, Grows, WritesAt,
      TouchesOnly, Touched, Appended, HasItsFile, SameButBytes, Recalls, StreamFits;
    GrowsIs(s.jobs[job].command, Home(s, NodeOf(s, job)), Chunk(s, job, size), o);
    var t, n, v := Worked(s, job, size, o), NodeOf(s, job), s.jobs[job].command.writer.value;
    HomeOf(s, n);
    GrownJobsFit(g, s, job, size, o);
    GrownApart(g, s, job, size, o);
    AppendTouches(g, s, job, o.home, Chunk(s, job, size));
    WorkedIs(s, job, size, o);
    SameRecord(s, t);
    SameNames(s, t, Home(s, n), o.home);
    OneHomeFits(s, t, n);
    SameDoneHere(Home(s, n), o.home);
    SameDone(g, s, t, {});
    StreamsStillFit(g, s, t);
  }

  // ---- calls that flush, and their callbacks ----

  ghost predicate Flushing(g: Setting, s: Cluster, job: nat, size: nat, o: Outcome, out: nat) {
    && Sane(g) && Calling(g, s, job, size) && out !in s.streams
    && var (c, d, chunk) := (s.jobs[job].command, Home(s, NodeOf(s, job)), Chunk(s, job, size));
    && (FillsWindow(c, d, chunk, o) || Commits(c, d, chunk, o))
  }

  ghost function Answered(g: Setting, s: Cluster, job: nat, size: nat, o: Outcome, link: bool, out: nat): Cluster
    requires Flushing(g, s, job, size, o, out)
  {
    CalledBack(g, Worked(s, job, size, o), job, o.notices[0], Contents(s, job, size, o.notices[0].size), link, out)
  }

  /** What the callback reads is a piece of the contents, at the place where the file begins; at the end of the
      stream, it goes to the end of the contents, and the version's own write is committed. */
  ghost predicate Reads(g: Setting, s: Cluster, job: nat, size: nat, o: Outcome, out: nat, contents: seq<Byte>)
    requires Flushing(g, s, job, size, o, out)
  {
    var (j, st, notice) := (s.jobs[job], s.streams[s.jobs[job].inlet], o.notices[0]);
    var v := j.command.writer.value;
    && v in s.written && v != UNVERSIONED && |contents| == notice.size && PieceOf(contents, s.written[v], j.base)
    && notice.offset == j.command.instructions.offset
    && (j.outlet.Some? ==>
          && notice.offset <= |contents| && j.outlet.value in s.streams && j.outlet.value != j.inlet
          && var hop := s.streams[j.outlet.value];
             hop.skip + |hop.sent| == j.base + notice.offset && !hop.local && hop.version == v)
    && (notice.isComplete ==>
          && j.base + |contents| == |s.written[v]|
          && (if st.local then Given(j, st) == s.written[v] else Told(s, v)))
  }

  lemma CallbackReads(g: Setting, s: Cluster, job: nat, size: nat, o: Outcome, out: nat)
    requires Flushing(g, s, job, size, o, out)
    ensures Reads(g, s, job, size, o, out, Contents(s, job, size, o.notices[0].size))
  {
    var j, st := s.jobs[job], s.streams[s.jobs[job].inlet];
    assert JobFits(g, s, j);
    assert StreamFits(g, s, st);
    LongerFileFits(g, s, job, size);
    NotAstray(s, job);
    var v := j.command.writer.value;
    var more := Home(s, st.dst).partial[v].data + Chunk(s, job, size);
    hide HomesFit, JobsFit, JobsApart, StreamsFit, OwnFiles, Ready, RouteFits, PieceOf, Astray;
    PieceOfPiece(more, s.written[v], j.base, 0, o.notices[0].size);
    assert more[0..o.notices[0].size] == more[..o.notices[0].size];
  }

  lemma HopFits(g: Setting, node: string, route: Route)
    requires Sane(g)
    ensures var (next, peer, copies) := (Hop(g, node, route).0, Hop(g, node, route).1, Unsigned(route.copies));
      && next.copies == route.copies && (peer.Some? ==> RouteFits(g, peer.value.uid, copies, next))
      && (RouteFits(g, node, copies, route) ==> RouteFits(g, node, copies, next))
  {
    var (next, peer) := Hop(g, node, route);
    if peer.Some? {
      LocatedByRank(g, peer.value.uid, Unsigned(route.copies));
    }
    hide Rank;
  }

  /** A stream that carries a piece of a version on, up to a place in its contents. */
  ghost predicate Carries(g: Setting, s: Cluster, hop: Stream, v: Clock, upTo: nat) {
    && !hop.local && hop.version == v && v in s.written && hop.skip + |hop.sent| == upTo
    && PieceOf(hop.sent, s.written[v], hop.skip) && RouteFits(g, hop.dst, Asked(s, v), hop.route)
  }

  /** Passing a window on changes one stream at most, which then carries the version on to the end of the window. */
  ghost predicate Passes(
    g: Setting, s: Cluster, j: Job, v: Clock, notice: Notice, out: nat, streams: map<nat, Stream>, outlet: Option<nat>)
  {
    && (outlet.Some? ==> outlet == j.outlet || (j.outlet == None && outlet == Some(out)))
    && (j.outlet.Some? ==> outlet == j.outlet)
    && streams.Keys == s.streams.Keys + (if outlet.Some? then {outlet.value} else {})
    && (forall k <- s.streams :: outlet != Some(k) ==> streams[k] == s.streams[k])
    && (outlet.Some? ==>
          && Carries(g, s, streams[outlet.value], v, j.base + notice.size)
          && streams[outlet.value].closed == notice.isComplete
          && (outlet.value in s.streams ==>
                && var (a, b) := (s.streams[outlet.value], streams[outlet.value]);
                && b.dst == a.dst && b.version == a.version && b.route == a.route && b.local == a.local && b.skip == a.skip
                && |a.sent| <= |b.sent| && !a.local))
  }

  lemma WindowPasses(
    g: Setting, s: Cluster, j: Job, v: Clock, notice: Notice, contents: seq<Byte>, route: Route, peer: Option<Peer>, out: nat)
    requires v in s.written && |contents| == notice.size && PieceOf(contents, s.written[v], j.base)
    requires j.outlet.Some? ==>
      && j.outlet.value in s.streams && notice.offset <= |contents|
      && Carries(g, s, s.streams[j.outlet.value], v, j.base + notice.offset)
    requires j.outlet.None? && peer.Some? ==> RouteFits(g, peer.value.uid, Asked(s, v), route)
    requires out !in s.streams
    ensures var (streams, outlet) := PassedOn(s.streams, j, v, notice, contents, route, peer, out);
      Passes(g, s, j, v, notice, out, streams, outlet)
  {
    hide PieceOf, RouteFits;
    var p := From(notice.offset, contents);
    PieceOfPiece(contents, s.written[v], j.base, p, |contents|);
    assert contents[p..|contents|] == contents[p..];
    if j.outlet.Some? {
      var hop := s.streams[j.outlet.value];
      JoinedPiece(hop.sent, contents[p..], s.written[v], hop.skip);
    }
  }

  lemma HopCarries(g: Setting, s: Cluster, j: Job, data: seq<Byte>, st: Stream)
    requires StreamsFit(g, s) && j.command.writer.Some? && j.command.writer.value in s.written && j.read <= |st.sent|
    requires OutletFits(s, j) && FileFits(s, j, st, data) && j.outlet.Some?
    ensures Carries(g, s, s.streams[j.outlet.value], j.command.writer.value, j.base + j.command.instructions.offset)
  {
    hide PieceOf, RouteFits;
    assert StreamFits(g, s, s.streams[j.outlet.value]);
  }

  /** The callback of a call, as far as streams go. */
  lemma CallbackPasses(g: Setting, s: Cluster, job: nat, size: nat, o: Outcome, link: bool, out: nat)
    requires Flushing(g, s, job, size, o, out)
    ensures var t := Answered(g, s, job, size, o, link, out);
      Passes(g, s, s.jobs[job], s.jobs[job].command.writer.value, o.notices[0], out, t.streams, t.jobs[job].outlet)
  {
    hide HomesFit, JobsFit, JobsApart, StreamsFit, OwnFiles, FillsWindow, Commits, Contents, Acks, Ready, PieceOf,
      RouteFits, Hop, Carries, FileFits, Worked, Given, OpensNow, Wrote;
    FlushedIs(g, s, job, size, o, out);
    WorkedIs(s, job, size, o);
    var j, st, w := s.jobs[job], s.streams[s.jobs[job].inlet], Worked(s, job, size, o);
    var v := j.command.writer.value;
    var contents := Contents(s, job, size, o.notices[0].size);
    CallbackReads(g, s, job, size, o, out);
    HopFits(g, st.dst, j.route);
    JobOf(g, s, job);
    if j.outlet.Some? {
      HopCarries(g, s, j, Home(s, st.dst).partial[v].data, st);
    }
    var (route, peer) := if j.outlet.Some? then (j.route, None) else Hop(g, st.dst, j.route);
    WindowPasses(g, s, j, v, o.notices[0], contents, route, if link then peer else None, out);
    PassesAlike(s.streams, j, w.jobs[job], v, o.notices[0], contents, route, if link then peer else None, out);
  }

  lemma PassesAlike(
    streams: map<nat, Stream>, j: Job, k: Job, v: Clock, notice: Notice, contents: seq<Byte>,
    route: Route, peer: Option<Peer>, out: nat)
    requires k.outlet == j.outlet && k.base == j.base
    ensures PassedOn(streams, k, v, notice, contents, route, peer, out)
         == PassedOn(streams, j, v, notice, contents, route, peer, out)
  {
  }

  /** What a callback changes. */
  lemma CalledBackIs(
    g: Setting, w: Cluster, job: nat, notice: Notice, contents: seq<Byte>, link: bool, out: nat)
    requires job in w.jobs && w.jobs[job].inlet in w.streams && w.jobs[job].command.writer.Some?
    ensures var (t, j, st) := (CalledBack(g, w, job, notice, contents, link, out), w.jobs[job], w.streams[w.jobs[job].inlet]);
      && t.homes == w.homes && t.written == w.written && t.asked == w.asked && t.makers == w.makers
      && t.jobs.Keys == w.jobs.Keys && (forall k <- w.jobs :: k != job ==> t.jobs[k] == w.jobs[k])
      && t.jobs[job] == j.(route := t.jobs[job].route, outlet := t.jobs[job].outlet)
      && t.jobs[job].route == (if j.outlet.Some? then j.route else Hop(g, st.dst, j.route).0)
      && t.messages == w.messages
           + (if st.local then {} else Acks(g, st.dst, t.jobs[job].route, j.command.writer.value, notice.size))
      && t.committed == w.committed +
           if st.local && notice.isComplete then {Write(j.command.writer.value, Given(j, st))} else {}
  {
    hide Acks, Hop, PassedOn, Given;
  }

  lemma FlushedIs(g: Setting, s: Cluster, job: nat, size: nat, o: Outcome, out: nat)
    requires Flushing(g, s, job, size, o, out)
    ensures !OpensNow(s.jobs[job], o) && |o.notices| == 1 && HasItsFile(s.jobs[job].command, Home(s, NodeOf(s, job)))
    ensures o.command.writer == s.jobs[job].command.writer && s.jobs[job].command.writer.Some? && CanFeed(s, job, size)
    ensures (o.notices[0].isComplete ==> o.command.finished) && HomesFit(s) && StreamsFit(g, s)
  {
    hide HomesFit, StreamsFit, JobsFit, JobsApart, OwnFiles, Committed, Appended;
  }

  /** What they change together. */
  lemma AnsweredIs(g: Setting, s: Cluster, job: nat, size: nat, o: Outcome, link: bool, out: nat)
    requires Flushing(g, s, job, size, o, out)
    ensures var (t, j, st) := (Answered(g, s, job, size, o, link, out), s.jobs[job], s.streams[s.jobs[job].inlet]);
      && t.homes == s.homes[NodeOf(s, job) := o.home]
      && t.written == s.written && t.asked == s.asked && t.makers == s.makers
      && t.jobs.Keys == s.jobs.Keys && (forall k <- s.jobs :: k != job ==> t.jobs[k] == s.jobs[k])
      && t.jobs[job] == j.(read := j.read + size, command := o.command, route := t.jobs[job].route,
           outlet := t.jobs[job].outlet, position := t.jobs[job].position)
      && t.jobs[job].route == (if j.outlet.Some? then j.route else Hop(g, st.dst, j.route).0)
      && t.messages == s.messages
           + (if st.local then {} else Acks(g, st.dst, t.jobs[job].route, j.command.writer.value, o.notices[0].size))
      && t.committed == s.committed +
           if st.local && o.notices[0].isComplete then {Write(j.command.writer.value, Given(j, st))} else {}
  {
    hide Flushing, Worked, CalledBack, Contents, Acks, Hop, OpensNow, HasItsFile;
    FlushedIs(g, s, job, size, o, out);
    WorkedIs(s, job, size, o);
    var w := Worked(s, job, size, o);
    assert Given(w.jobs[job], s.streams[s.jobs[job].inlet]) == Given(s.jobs[job], s.streams[s.jobs[job].inlet]);
    hide Given;
    CalledBackIs(g, w, job, o.notices[0], Contents(s, job, size, o.notices[0].size), link, out);
  }

  lemma AnsweredTold(g: Setting, s: Cluster, job: nat, size: nat, o: Outcome, link: bool, out: nat)
    requires Flushing(g, s, job, size, o, out) && |o.notices| == 1
    ensures o.notices[0].isComplete ==> Told(Answered(g, s, job, size, o, link, out), s.jobs[job].command.writer.value)
  {
    hide Flushing, PieceOf, Contents, Acks, Hop, Answered, Given, HasItsFile, OpensNow, CanFeed;
    FlushedIs(g, s, job, size, o, out);
    CallbackReads(g, s, job, size, o, out);
    AnsweredIs(g, s, job, size, o, link, out);
  }

  lemma AnsweredRecalls(g: Setting, s: Cluster, job: nat, size: nat, o: Outcome, link: bool, out: nat)
    requires Flushing(g, s, job, size, o, out)
    ensures var (t, v) := (Answered(g, s, job, size, o, link, out), s.jobs[job].command.writer.value);
      && Recalls(s, t) && t.written == s.written && t.asked == s.asked && t.makers == s.makers
      && t.homes == s.homes[NodeOf(s, job) := o.home] && v in s.written
      && t.committed <= s.committed + {Write(v, s.written[v])} && (o.notices[0].isComplete ==> Told(t, v))
      && (!o.notices[0].isComplete ==> t.committed == s.committed)
      && t.jobs.Keys == s.jobs.Keys && forall k <- s.jobs :: k != job ==> t.jobs[k] == s.jobs[k]
  {
    hide Flushing, HomeFits, PieceOf, Contents, Acks, Hop, Answered, Given, HasItsFile, OpensNow, HomesFit, CanFeed,
      Reads, Told;
    FlushedIs(g, s, job, size, o, out);
    GivenOnce(g, s, job, size, o, out);
    AnsweredIs(g, s, job, size, o, link, out);
    SameRecord(s, Answered(g, s, job, size, o, link, out));
    hide Recalls;
    AnsweredTold(g, s, job, size, o, link, out);
  }

  /** What a client sent is what is on record. */
  lemma GivenOnce(g: Setting, s: Cluster, job: nat, size: nat, o: Outcome, out: nat)
    requires Flushing(g, s, job, size, o, out)
    ensures var (j, st) := (s.jobs[job], s.streams[s.jobs[job].inlet]);
      j.command.writer.value in s.written && (st.local ==> Given(j, st) == s.written[j.command.writer.value])
  {
    FlushedIs(g, s, job, size, o, out);
    assert JobFits(g, s, s.jobs[job]);
    hide Flushing, RouteFits, FileFits, Ready, OutletFits;
  }

  lemma AllStreamsFit(g: Setting, t: Cluster)
    requires forall k <- t.streams :: StreamFits(g, t, t.streams[k])
    ensures StreamsFit(g, t)
  {
  }

  /** The stream that is passed on fits, given what the callback read and passed. */
  lemma PassedFits(
    g: Setting, s: Cluster, t: Cluster, j: Job, v: Clock, notice: Notice, out: nat, outlet: Option<nat>)
    requires Passes(g, s, j, v, notice, out, t.streams, outlet) && outlet.Some? && Recalls(s, t)
    requires notice.isComplete ==> v in s.written && j.base + notice.size == |s.written[v]| && Told(t, v)
    ensures StreamFits(g, t, t.streams[outlet.value])
  {
    hide PieceOf, RouteFits;
  }

  lemma AnsweredStreamsFit(g: Setting, s: Cluster, job: nat, size: nat, o: Outcome, link: bool, out: nat)
    requires Flushing(g, s, job, size, o, out)
    ensures StreamsFit(g, Answered(g, s, job, size, o, link, out))
  {
    hide Flushing, Answered, Carries, RouteFits, PieceOf, Told, Contents, StreamFits, StreamsFit, HasItsFile, OpensNow;
    FlushedIs(g, s, job, size, o, out);
    var t, j := Answered(g, s, job, size, o, link, out), s.jobs[job];
    CallbackReads(g, s, job, size, o, out);
    CallbackPasses(g, s, job, size, o, link, out);
    AnsweredRecalls(g, s, job, size, o, link, out);
    var outlet := t.jobs[job].outlet;
    hide Recalls;
    if outlet.Some? {
      PassedFits(g, s, t, j, j.command.writer.value, o.notices[0], out, outlet);
    }
    forall k | k in t.streams ensures StreamFits(g, t, t.streams[k]) {
      if outlet != Some(k) {
        StreamOf(g, s, k);
        StreamStillFits(g, s, t, s.streams[k]);
      }
    }
    AllStreamsFit(g, t);
  }

  ghost predicate SameRoute(g: Setting, node: string, route: Route, next: Route) {
    next.copies == route.copies
    && (RouteFits(g, node, Unsigned(route.copies), route) ==> RouteFits(g, node, Unsigned(route.copies), next))
  }

  /** What the job itself is like after the callback. */
  lemma AnsweredJobIs(g: Setting, s: Cluster, job: nat, size: nat, o: Outcome, link: bool, out: nat)
    requires Flushing(g, s, job, size, o, out)
    ensures var (t, j) := (Answered(g, s, job, size, o, link, out), s.jobs[job]);
      && t.jobs[job] == j.(read := j.read + size, command := o.command, route := t.jobs[job].route,
           outlet := t.jobs[job].outlet, position := t.jobs[job].position)
      && SameRoute(g, NodeOf(s, job), j.route, t.jobs[job].route)
      && (t.jobs[job].route == j.route || t.jobs[job].route == Hop(g, NodeOf(s, job), j.route).0)
  {
    HopFits(g, NodeOf(s, job), s.jobs[job].route);
    AnsweredIs(g, s, job, size, o, link, out);
    hide Flushing, Answered, Contents, Acks, RouteFits, Hop;
  }

  lemma AnsweredJobFits(g: Setting, s: Cluster, job: nat, size: nat, o: Outcome, link: bool, out: nat)
    requires Flushing(g, s, job, size, o, out)
    ensures var t := Answered(g, s, job, size, o, link, out); JobFits(g, t, t.jobs[job])
  {
    var t, j, n := Answered(g, s, job, size, o, link, out), s.jobs[job], NodeOf(s, job);
    assert JobFits(g, s, j) && HasItsFile(j.command, Home(s, n)) && CanFeed(s, job, size) && Renewed(j.command, o);
    assert o.notices[0].isComplete ==> o.command.finished;
    assert !o.notices[0].isComplete ==> FillsWindow(j.command, Home(s, n), Chunk(s, job, size), o);
    var more := Home(s, n).partial[j.command.writer.value].data + Chunk(s, job, size);
    LongerFileFits(g, s, job, size);
    hide Flushing, Calling, HomesFit, JobsFit, JobsApart, StreamsFit, Answered, Reads, Carries, PieceOf, RouteFits,
      FillsWindow;
    CallbackPasses(g, s, job, size, o, link, out);
    AnsweredRecalls(g, s, job, size, o, link, out);
    AnsweredJobIs(g, s, job, size, o, link, out);
    if !o.notices[0].isComplete {
      assert Home(t, n) == o.home;
      WindowedJobFits(g, s, j, t, t.jobs[job], size, o.notices[0], out, more);
    } else {
      EndedJobFits(g, s, j, t, t.jobs[job], o.notices[0], out);
    }
  }

  /** After a window the file, the stream and the hop are where they should be. */
  lemma WindowedJobFits(
    g: Setting, s: Cluster, j: Job, t: Cluster, k: Job, size: nat, notice: Notice, out: nat, more: seq<Byte>)
    requires JobFits(g, s, j) && Recalls(s, t) && j.command.started && out !in s.streams
    requires k == j.(read := j.read + size, command := k.command, route := k.route, outlet := k.outlet, position := k.position)
    requires j.read + size <= |s.streams[j.inlet].sent|
    requires k.command.writer == j.command.writer && k.command.started && Ready(k.command)
    requires k.command.instructions.name == j.command.instructions.name
    requires k.command.instructions.offset == notice.size <= |more| && !notice.isComplete
    requires SameRoute(g, s.streams[j.inlet].dst, j.route, k.route)
    requires Passes(g, s, j, j.command.writer.value, notice, out, t.streams, k.outlet)
    requires LongerFile(s.written[j.command.writer.value], more, j, s.streams[j.inlet], size)
    requires var d := Home(t, s.streams[j.inlet].dst);
      j.command.writer.value in d.partial && d.partial[j.command.writer.value].data == more
    ensures JobFits(g, t, k)
  {
    assert k.command.writer.Some?;
    hide PieceOf, RouteFits, Ready;
    assert t.streams[j.inlet] == s.streams[j.inlet];
    assert FileFits(t, k, t.streams[k.inlet], more);
  }

  /** After the last flush there is no file any more that the job would have to fit. */
  lemma EndedJobFits(g: Setting, s: Cluster, j: Job, t: Cluster, k: Job, notice: Notice, out: nat)
    requires JobFits(g, s, j) && Recalls(s, t) && j.command.started
    requires k.inlet == j.inlet && k.start == j.start && k.read <= |s.streams[j.inlet].sent| && k.command.writer == j.command.writer
    requires k.command.finished && k.command.started && Ready(k.command)
    requires k.command.instructions.name == j.command.instructions.name
    requires SameRoute(g, s.streams[j.inlet].dst, j.route, k.route)
    requires Passes(g, s, j, j.command.writer.value, notice, out, t.streams, k.outlet) && out !in s.streams
    ensures JobFits(g, t, k)
  {
    hide PieceOf, RouteFits, Ready;
  }

  lemma FlushTouches(g: Setting, s: Cluster, job: nat, size: nat, o: Outcome, out: nat)
    requires Flushing(g, s, job, size, o, out)
    ensures var v := s.jobs[job].command.writer.value;
      && TouchesOnly(Home(s, NodeOf(s, job)), o.home, v)
      && forall k <- s.jobs :: k != job ==> !WritesAt(s, k, NodeOf(s, job), v)
  {
    var n, v, d := NodeOf(s, job), s.jobs[job].command.writer.value, Home(s, NodeOf(s, job));
    assert WritesAt(s, job, n, v);
    HomeOf(s, n);
    hide HomesFit, JobsFit, StreamsFit, WritesAt;
    if Commits(s.jobs[job].command, d, Chunk(s, job, size), o) {
      CommittedVersions(d, v);
    }
  }

  lemma OutletsKnown(g: Setting, s: Cluster, k: nat)
    requires JobsFit(g, s) && k in s.jobs && s.jobs[k].outlet.Some?
    ensures s.jobs[k].outlet.value in s.streams
  {
    assert JobFits(g, s, s.jobs[k]);
  }

  /** A stream that a job newly passes its write on with is nobody else's. */
  lemma NewOutletIsOwn(
    g: Setting, s: Cluster, job: nat, v: Clock, notice: Notice, out: nat, streams: map<nat, Stream>, outlet: Option<nat>)
    requires JobsFit(g, s) && JobsApart(s) && job in s.jobs && out !in s.streams
    requires Passes(g, s, s.jobs[job], v, notice, out, streams, outlet)
    ensures outlet.Some? ==> forall k <- s.jobs :: k != job ==> s.jobs[k].outlet != outlet
  {
    hide JobFits, JobsFit, Carries;
    forall k | k in s.jobs && k != job && outlet.Some? ensures s.jobs[k].outlet != outlet {
      if s.jobs[k].outlet.Some? {
        OutletsKnown(g, s, k);
      }
    }
  }

  lemma PassingGrows(g: Setting, s: Cluster, j: Job, v: Clock, notice: Notice, out: nat, t: Cluster, outlet: Option<nat>)
    requires Passes(g, s, j, v, notice, out, t.streams, outlet)
    ensures StreamsGrow(s, t, outlet)
  {
    hide Carries;
  }

  lemma AnsweredTouches(g: Setting, s: Cluster, job: nat, size: nat, o: Outcome, link: bool, out: nat)
    requires Flushing(g, s, job, size, o, out)
    ensures var (t, n, v) := (Answered(g, s, job, size, o, link, out), NodeOf(s, job), s.jobs[job].command.writer.value);
      Touched(s, t, n, v) && forall k <- s.jobs :: k != job ==> !WritesAt(s, k, n, v)
  {
    hide Flushing, Answered, TouchesOnly, WritesAt;
    AnsweredRecalls(g, s, job, size, o, link, out);
    FlushTouches(g, s, job, size, o, out);
  }

  lemma AnsweredJobsFit(g: Setting, s: Cluster, job: nat, size: nat, o: Outcome, link: bool, out: nat)
    requires Flushing(g, s, job, size, o, out)
    ensures JobsFit(g, Answered(g, s, job, size, o, link, out))
  {
    var t, n, v := Answered(g, s, job, size, o, link, out), NodeOf(s, job), s.jobs[job].command.writer.value;
    assert JobsFit(g, s) && JobsApart(s) && out !in s.streams;
    hide Flushing, JobFits, JobsFit, JobsApart, Answered, Passes, Touched, TouchesOnly, WritesAt, StreamsGrow;
    CallbackPasses(g, s, job, size, o, link, out);
    AnsweredRecalls(g, s, job, size, o, link, out);
    AnsweredJobFits(g, s, job, size, o, link, out);
    AnsweredTouches(g, s, job, size, o, link, out);
    NewOutletIsOwn(g, s, job, v, o.notices[0], out, t.streams, t.jobs[job].outlet);
    PassingGrows(g, s, s.jobs[job], v, o.notices[0], out, t, t.jobs[job].outlet);
    OthersStillFit(g, s, t, job, n, v, t.jobs[job].outlet);
  }

  lemma AnsweredApart(g: Setting, s: Cluster, job: nat, size: nat, o: Outcome, link: bool, out: nat)
    requires Flushing(g, s, job, size, o, out)
    ensures var t := Answered(g, s, job, size, o, link, out);
      JobsApart(t) && forall i, m, w | WritesAt(t, i, m, w) :: WritesAt(s, i, m, w)
  {
    var t, j, v := Answered(g, s, job, size, o, link, out), s.jobs[job], s.jobs[job].command.writer.value;
    assert JobsFit(g, s) && JobsApart(s) && out !in s.streams && WritesAt(s, job, NodeOf(s, job), v);
    assert o.command.writer == j.command.writer;
    hide Flushing, JobFits, JobsFit, Answered, Carries, OwnFiles;
    CallbackPasses(g, s, job, size, o, link, out);
    AnsweredRecalls(g, s, job, size, o, link, out);
    AnsweredJobIs(g, s, job, size, o, link, out);
    NewOutletIsOwn(g, s, job, v, o.notices[0], out, t.streams, t.jobs[job].outlet);
    PassingGrows(g, s, j, v, o.notices[0], out, t, t.jobs[job].outlet);
    hide Passes;
    StillWrites(g, s, t, t.jobs[job].outlet, job);
  }

  /** A commit ends the one command that writes the file; a window leaves the names in the directory. */
  lemma AnsweredOwnFiles(g: Setting, s: Cluster, job: nat, size: nat, o: Outcome, link: bool, out: nat)
    requires Flushing(g, s, job, size, o, out)
    ensures OwnFiles(Answered(g, s, job, size, o, link, out))
  {
    hide Flushing, Answered, JobsApart, WritesAt, OwnFiles, Hop, Acks, Given, HasItsFile, OpensNow, HomesFit;
    FlushedIs(g, s, job, size, o, out);
    var t, n, v := Answered(g, s, job, size, o, link, out), NodeOf(s, job), s.jobs[job].command.writer.value;
    FlushedNames(g, s, job, size, o, out);
    AnsweredApart(g, s, job, size, o, link, out);
    AnsweredIs(g, s, job, size, o, link, out);
    forall i, m, w | WritesAt(t, i, m, w)
      ensures (w in Home(t, m).done ==> w in Home(s, m).done) && (w in Home(t, m).partial ==> w in Home(s, m).partial)
    {
      if o.notices[0].isComplete {
        OtherWriter(s, t, job, i, n, v, m, w);
      }
    }
    StillOwnFiles(s, t);
  }

  /** Whoever still writes after the last call of a command writes something else. */
  lemma OtherWriter(s: Cluster, t: Cluster, job: nat, i: nat, n: string, v: Clock, m: string, w: Clock)
    requires JobsApart(s) && WritesAt(s, job, n, v) && WritesAt(s, i, m, w) && WritesAt(t, i, m, w)
    requires job in t.jobs && t.jobs[job].command.finished
    ensures m != n || w != v
  {
  }

  lemma FlushedNames(g: Setting, s: Cluster, job: nat, size: nat, o: Outcome, out: nat)
    requires Flushing(g, s, job, size, o, out)
    ensures var (d, v) := (Home(s, NodeOf(s, job)), s.jobs[job].command.writer.value);
      && o.home.partial.Keys <= d.partial.Keys && o.home.done.Keys <= d.done.Keys + {v}
      && (o.notices[0].isComplete || o.home.done.Keys == d.done.Keys) && WritesAt(s, job, NodeOf(s, job), v)
      && JobsApart(s) && OwnFiles(s)
  {
    var (d, v) := (Home(s, NodeOf(s, job)), s.jobs[job].command.writer.value);
    HomeOf(s, NodeOf(s, job));
    hide HomesFit, StreamsFit, JobsFit, JobsApart, OwnFiles, Ready, Committed, Consistent;
    if Commits(s.jobs[job].command, d, Chunk(s, job, size), o) {
      CommittedVersions(d, v);
    }
  }

  /** Nobody writes what they did not write before. */
  lemma StillWrites(g: Setting, s: Cluster, t: Cluster, hop: Option<nat>, job: nat)
    requires JobsFit(g, s) && JobsApart(s) && StreamsGrow(s, t, hop) && job in s.jobs && t.jobs.Keys == s.jobs.Keys
    requires forall k <- s.jobs :: k != job ==> t.jobs[k] == s.jobs[k]
    requires s.jobs[job].command.InFlight()
    requires t.jobs[job].inlet == s.jobs[job].inlet && t.jobs[job].command.writer == s.jobs[job].command.writer
    requires t.jobs[job].outlet.Some? ==> forall k <- s.jobs :: k != job ==> s.jobs[k].outlet != t.jobs[job].outlet
    ensures JobsApart(t) && forall i, m, w | WritesAt(t, i, m, w) :: WritesAt(s, i, m, w)
  {
    forall i, m, w | WritesAt(t, i, m, w) ensures WritesAt(s, i, m, w) {
      assert JobFits(g, s, s.jobs[i]);
    }
  }

  /** The version is kept here, and by itself or a newer one as near to the key. */
  ghost predicate Secured(g: Setting, s: Cluster, node: string, v: Clock) {
    Keeps(s, Home(s, node).done, v) && KeptUpTo(g, s, Rank(g, node), v)
  }

  /** Acknowledgements come from nodes that may serve the write, and report less than all while more is to come. */
  lemma AcksFit(g: Setting, s: Cluster, t: Cluster, node: string, route: Route, v: Clock, size: nat)
    requires Sane(g) && v in t.written && RouteFits(g, node, Asked(t, v), route)
    requires size == |t.written[v]| ==> Secured(g, t, node, v)
    ensures forall m <- Acks(g, node, route, v, size) :: MessageFits(g, t, m)
  {
    hide Keeps, KeptUpTo, Settled, Rank;
  }

  lemma AnsweredMessages(g: Setting, s: Cluster, job: nat, size: nat, o: Outcome, link: bool, out: nat)
    returns (sent: set<Message>)
    requires Flushing(g, s, job, size, o, out)
    requires var (t, v) := (Answered(g, s, job, size, o, link, out), s.jobs[job].command.writer.value);
      v in s.written && (o.notices[0].size == |s.written[v]| ==> Secured(g, t, NodeOf(s, job), v))
    ensures var t := Answered(g, s, job, size, o, link, out);
      t.messages == s.messages + sent && forall m <- sent :: MessageFits(g, t, m)
  {
    var t, j, v, n := Answered(g, s, job, size, o, link, out), s.jobs[job], s.jobs[job].command.writer.value, NodeOf(s, job);
    assert JobFits(g, s, j);
    sent := if s.streams[j.inlet].local then {} else Acks(g, n, t.jobs[job].route, v, o.notices[0].size);
    hide Flushing, Answered, Acks, Hop, Secured, RouteFits, Ready;
    AnsweredIs(g, s, job, size, o, link, out);
    AnsweredRecalls(g, s, job, size, o, link, out);
    AnsweredJobIs(g, s, job, size, o, link, out);
    if !s.streams[j.inlet].local {
      AcksFit(g, s, t, n, t.jobs[job].route, v, o.notices[0].size);
    }
  }

  lemma WindowIsNotAll(g: Setting, s: Cluster, job: nat, size: nat, o: Outcome, out: nat)
    requires Flushing(g, s, job, size, o, out) && !o.notices[0].isComplete
    ensures var (d, v) := (Home(s, NodeOf(s, job)), s.jobs[job].command.writer.value);
      && v in s.written && o.notices[0].size < |s.written[v]|
      && SameButBytes(d, o.home)
  {
    assert FillsWindow(s.jobs[job].command, Home(s, NodeOf(s, job)), Chunk(s, job, size), o);
    LongerFileFits(g, s, job, size);
    hide HomesFit, JobsFit, JobsApart, StreamsFit;
  }

  lemma FillKeeps(g: Setting, s: Cluster, job: nat, size: nat, o: Outcome, link: bool, out: nat)
    requires Invariant(g, s) && Flushing(g, s, job, size, o, out) && !o.notices[0].isComplete
    ensures Invariant(g, Answered(g, s, job, size, o, link, out))
  {
    var t, n, v := Answered(g, s, job, size, o, link, out), NodeOf(s, job), s.jobs[job].command.writer.value;
    hide HomesFit, HomeFits, StreamsFit, JobsFit, JobsApart, OwnFiles, MessagesFit, Covered, Answered, Flushing,
      WritesAt, TouchesOnly;
    WindowIsNotAll(g, s, job, size, o, out);
    AnsweredRecalls(g, s, job, size, o, link, out);
    AnsweredStreamsFit(g, s, job, size, o, link, out);
    AnsweredJobsFit(g, s, job, size, o, link, out);
    AnsweredApart(g, s, job, size, o, link, out);
    AnsweredOwnFiles(g, s, job, size, o, link, out);
    var sent := AnsweredMessages(g, s, job, size, o, link, out);
    AnsweredTouches(g, s, job, size, o, link, out);
    HomeOf(s, n);
    SameNames(s, t, Home(s, n), o.home);
    OneHomeFits(s, t, n);
    TouchedElsewhere(s, t, n, v);
    SameDone(g, s, t, sent);
  }

  // ---- commits ----

  /** A version that is not behind the new one outlives its commit. */
  lemma SurvivesCommit(d: Directory, v: Clock, y: Clock)
    requires Consistent(d) && v in d.partial && y in d.done && !AtMost(y, v)
    ensures y in Committed(d, v).done && Committed(d, v).done[y] == d.done[y]
  {
    hide AtMost, Committed;
    CommittedVersions(d, v);
  }

  /** The new version, or one ahead of it, is there after its commit. */
  lemma CommittedOrOutdone(d: Directory, v: Clock) returns (top: Clock)
    requires Consistent(d) && v in d.partial
    ensures top in Committed(d, v).done && AtMost(v, top)
    ensures if top == v then Committed(d, v).done[v] == d.partial[v] else top in d.done
  {
    hide AtMost, Committed;
    CommittedVersions(d, v);
    top := SomeMaximalCovers(d.done.Keys + {v}, v);
  }

  lemma CommitStillKeeps(s: Cluster, t: Cluster, d: Directory, v: Clock, w: Clock)
    requires Consistent(d) && v in d.partial && Keeps(s, d.done, w) && Recalls(s, t)
    ensures Keeps(t, Committed(d, v).done, w)
  {
    hide AtMost, Committed, Consistent;
    var z :| z in d.done && AtMost(w, z) && (z == w ==> w in s.written && d.done[w].data == s.written[w]);
    if !AtMost(z, v) {
      SurvivesCommit(d, v, z);
    } else {
      var top := CommittedOrOutdone(d, v);
      AtMostTransitive(w, z, v);
      AtMostTransitive(w, v, top);
      NotBack(d, w, z, v, top);
    }
  }

  lemma NotBack(d: Directory, w: Clock, z: Clock, v: Clock, top: Clock)
    requires Consistent(d) && v in d.partial && z in d.done
    requires AtMost(w, z) && AtMost(z, v) && AtMost(v, top)
    ensures top != w
  {
    hide AtMost;
    if top == w {
      AtMostTransitive(v, top, z);
      AtMostAntisymmetric(v, z);
    }
  }

  /** The committing node keeps the new version, if its file has all of the contents. */
  lemma CommitKeepsItself(t: Cluster, d: Directory, v: Clock)
    requires Consistent(d) && v in d.partial && v in t.written && d.partial[v].data == t.written[v]
    ensures Keeps(t, Committed(d, v).done, v)
  {
    hide AtMost, Committed, Consistent;
    var top := CommittedOrOutdone(d, v);
  }

  /** And it has all of it, if that is not superseded. */
  lemma CommitSecures(g: Setting, s: Cluster, t: Cluster, node: string, v: Clock)
    requires HomeFits(s, Home(s, node)) && Recalls(s, t) && v in Home(s, node).partial
    requires v in t.written && Home(s, node).partial[v].data == t.written[v]
    requires Home(t, node) == Committed(Home(s, node), v)
    ensures Secured(g, t, node, v)
  {
    hide AtMost, Committed, Antichain, TailOf, Rank;
    var d := Home(s, node);
    CommitKeepsItself(t, d, v);
    var top := CommittedOrOutdone(d, v);
    if top == v {
      assert HasAll(t, Home(t, node).done, v);
    } else {
      assert Told(s, top);
      assert Write(top, s.written[top]) in t.committed;
    }
  }

  /** What a node has all of, it has after a commit, or the new version supersedes it. */
  lemma CommitStillHasAll(s: Cluster, t: Cluster, d: Directory, v: Clock, w: Clock)
    requires Consistent(d) && v in d.partial && HasAll(s, d.done, w) && Recalls(s, t) && Told(t, v)
    ensures HasAll(t, Committed(d, v).done, w) || Superseded(t, w)
  {
    hide AtMost, Committed, Antichain;
    if AtMost(w, v) {
      assert Write(v, t.written[v]) in t.committed && v != w;
    } else {
      SurvivesCommit(d, v, w);
    }
  }

  /** A commit forgets nothing that was promised. */
  lemma CommitRemembers(g: Setting, s: Cluster, t: Cluster, node: string, v: Clock)
    requires HomesFit(s) && Recalls(s, t) && v in Home(s, node).partial && Told(t, v)
    requires Home(t, node) == Committed(Home(s, node), v) && forall m | m != node :: Home(t, m) == Home(s, m)
    ensures Remembers(g, s, t)
  {
    HomeOf(s, node);
    hide Keeps, HasAll, Superseded, Committed, Consistent, HomesFit, HomeFits, Rank, Settled, Told, Recalls;
    forall r: nat, w | w in s.written && KeptUpTo(g, s, r, w) ensures KeptUpTo(g, t, r, w) {
      if Superseded(s, w) {
        StillSuperseded(s, t, w);
      } else {
        var n :| Rank(g, n) <= r && HasAll(s, Home(s, n).done, w);
        if n == node {
          CommitStillHasAll(s, t, Home(s, node), v, w);
        } else {
          StillHasAll(s, t, Home(s, n).done, w);
        }
        assert HasAll(t, Home(t, n).done, w) || Superseded(t, w);
      }
    }
    forall n, w | Settled(g, t, n, w) && Keeps(s, Home(s, n).done, w) ensures Keeps(t, Home(t, n).done, w) {
      if n == node {
        CommitStillKeeps(s, t, Home(s, node), v, w);
      } else {
        StillKeeps(s, t, Home(s, n).done, w);
      }
    }
  }

  /** What was covered at the committing node still is, unless by a version behind the new one. */
  lemma CoverSurvives(s: Cluster, t: Cluster, d: Directory, v: Clock, x: Clock)
    requires Consistent(d) && v in d.partial && Covers(s, d.done, x) && Recalls(s, t)
    ensures Covers(t, Committed(d, v).done, x) || AtMost(x, v)
  {
    hide AtMost, Committed, Consistent;
    var w :| w in d.done && AtMost(x, w) && w in s.written && d.done[w].data == s.written[w];
    if AtMost(w, v) {
      AtMostTransitive(x, w, v);
    } else {
      SurvivesCommit(d, v, w);
    }
  }

  /** What covers a version ahead of the new one is not behind the new one. */
  lemma AheadSurvives(s: Cluster, t: Cluster, d: Directory, v: Clock, y: Clock)
    requires Consistent(d) && v in d.partial && AtMost(v, y) && Covers(s, d.done, y) && Recalls(s, t)
    ensures Covers(t, Committed(d, v).done, v)
  {
    hide AtMost, Committed, Antichain;
    var w :| w in d.done && AtMost(y, w) && w in s.written && d.done[w].data == s.written[w];
    AtMostTransitive(v, y, w);
    if AtMost(w, v) {
      AtMostAntisymmetric(w, v);
    }
    SurvivesCommit(d, v, w);
  }

  ghost predicate Closing(g: Setting, s: Cluster, job: nat, size: nat, o: Outcome, out: nat) {
    Flushing(g, s, job, size, o, out) && o.notices[0].isComplete
  }

  /** What is committed is a tail of the contents: all of them exactly if the file began where they do, as a
      client's does. The version's own write is committed by then. */
  lemma ClosedFile(g: Setting, s: Cluster, job: nat, size: nat, o: Outcome, out: nat)
    requires Closing(g, s, job, size, o, out)
    ensures var (j, d) := (s.jobs[job], Home(s, NodeOf(s, job)));
      var v := j.command.writer.value;
      && Consistent(d) && v in d.partial && v in s.written && v != UNVERSIONED && o.home == Committed(d, v)
      && d.partial[v].data == s.written[v][j.base..] && j.base <= |s.written[v]|
      && |d.partial[v].data| == o.notices[0].size
      && (if s.streams[j.inlet].local then j.base == 0 else Told(s, v))
  {
    HomeOf(s, NodeOf(s, job));
    var j := s.jobs[job];
    assert JobFits(g, s, j);
    assert StreamFits(g, s, s.streams[j.inlet]);
    LongerFileFits(g, s, job, size);
    var data := Home(s, NodeOf(s, job)).partial[j.command.writer.value].data;
    assert data + Chunk(s, job, size) == data;
    hide HomesFit, JobsFit, JobsApart, StreamsFit, Committed;
  }

  lemma CommittedHomeFits(s: Cluster, t: Cluster, d: Directory, v: Clock, base: nat)
    requires HomeFits(s, d) && v in d.partial && v in s.written && Recalls(s, t) && Told(t, v)
    requires base <= |s.written[v]| && d.partial[v].data == s.written[v][base..]
    ensures HomeFits(t, Committed(d, v))
  {
    CommittedVersions(d, v);
    assert TailOf(d.partial[v].data, s.written[v]);
    hide Committed, Antichain, TailOf;
  }

  /** Some node covers the version whose commit this is. */
  lemma CommitIsCovered(s: Cluster, t: Cluster, node: string, v: Clock) returns (n: string)
    requires HomesFit(s) && Covered(s) && Recalls(s, t)
    requires v in Home(s, node).partial && v in s.written
    requires Told(s, v) || Home(s, node).partial[v].data == s.written[v]
    requires Home(t, node) == Committed(Home(s, node), v) && forall m | m != node :: Home(t, m) == Home(s, m)
    ensures Covers(t, Home(t, n).done, v)
  {
    hide AtMost, Committed, TailOf, Antichain;
    var d := Home(s, node);
    HomeOf(s, node);
    var y := v;
    if !Told(s, v) {
      y := CommittedOrOutdone(d, v);
    } else {
      AtMostItself(v);
    }
    if y == v && !Told(s, v) {
      n := node;
      assert Covers(t, Home(t, n).done, v);
    } else {
      assert Told(s, y);
      n :| Covers(s, Home(s, n).done, Write(y, s.written[y]).version);
      if n == node {
        AheadSurvives(s, t, d, v, y);
      } else {
        CoversOlder(s, Home(s, n).done, v, y);
        StillCovers(s, t, Home(s, n).done, v);
      }
    }
  }

  /** What a node covers, it covers after a commit, unless the new version is ahead. */
  lemma CoveredAfterCommit(s: Cluster, t: Cluster, node: string, v: Clock, n: string, x: Clock)
    requires Consistent(Home(s, node)) && Recalls(s, t) && v in Home(s, node).partial && Covers(s, Home(s, n).done, x)
    requires Home(t, node) == Committed(Home(s, node), v) && (n != node ==> Home(t, n) == Home(s, n))
    ensures Covers(t, Home(t, n).done, x) || AtMost(x, v)
  {
    hide AtMost, Committed, Consistent, Covers;
    if n != node {
      StillCovers(s, t, Home(s, n).done, x);
    } else {
      CoverSurvives(s, t, Home(s, node), v, x);
    }
  }

  lemma OneStillCovered(s: Cluster, t: Cluster, node: string, v: Clock, own: string, x: Clock) returns (n: string)
    requires Consistent(Home(s, node)) && Recalls(s, t) && v in Home(s, node).partial
    requires exists n :: Covers(s, Home(s, n).done, x)
    requires Home(t, node) == Committed(Home(s, node), v) && forall m | m != node :: Home(t, m) == Home(s, m)
    requires Covers(t, Home(t, own).done, v)
    ensures Covers(t, Home(t, n).done, x)
  {
    hide AtMost, Committed, Consistent, Covers, Recalls;
    n :| Covers(s, Home(s, n).done, x);
    CoveredAfterCommit(s, t, node, v, n, x);
    if AtMost(x, v) {
      CoversOlder(t, Home(t, own).done, x, v);
      n := own;
    }
  }

  lemma CommitStillCovered(s: Cluster, t: Cluster, node: string, v: Clock)
    requires HomesFit(s) && Covered(s) && Recalls(s, t)
    requires v in Home(s, node).partial && v in s.written
    requires Told(s, v) || Home(s, node).partial[v].data == s.written[v]
    requires t.committed <= s.committed + {Write(v, s.written[v])}
    requires Home(t, node) == Committed(Home(s, node), v) && forall m | m != node :: Home(t, m) == Home(s, m)
    ensures Covered(t)
  {
    hide AtMost, Committed, HomesFit, Consistent, HomeFits, Covers, Home, Told;
    HomeOf(s, node);
    var own := CommitIsCovered(s, t, node, v);
    forall w | w in t.committed ensures exists n :: Covers(t, Home(t, n).done, w.version) {
      if w in s.committed {
        var n := OneStillCovered(s, t, node, v, own, w.version);
      }
    }
  }

  lemma CloseKeeps(g: Setting, s: Cluster, job: nat, size: nat, o: Outcome, link: bool, out: nat)
    requires Invariant(g, s) && Closing(g, s, job, size, o, out)
    ensures Invariant(g, Answered(g, s, job, size, o, link, out))
  {
    var t, n, v := Answered(g, s, job, size, o, link, out), NodeOf(s, job), s.jobs[job].command.writer.value;
    var base := s.jobs[job].base;
    hide HomesFit, HomeFits, StreamsFit, JobsFit, JobsApart, OwnFiles, MessagesFit, Covered, Answered, Flushing,
      WritesAt,
      TouchesOnly, Committed, Keeps, Consistent, Secured, Remembers;
    ClosedFile(g, s, job, size, o, out);
    AnsweredRecalls(g, s, job, size, o, link, out);
    AnsweredStreamsFit(g, s, job, size, o, link, out);
    AnsweredJobsFit(g, s, job, size, o, link, out);
    AnsweredApart(g, s, job, size, o, link, out);
    AnsweredOwnFiles(g, s, job, size, o, link, out);
    AnsweredTouches(g, s, job, size, o, link, out);
    TouchedElsewhere(s, t, n, v);
    HomeOf(s, n);
    CommittedHomeFits(s, t, Home(s, n), v, base);
    OneHomeFits(s, t, n);
    if o.notices[0].size == |s.written[v]| {
      CommitSecures(g, s, t, n, v);
    }
    var sent := AnsweredMessages(g, s, job, size, o, link, out);
    CommitRemembers(g, s, t, n, v);
    MessagesStillFit(g, s, t, sent);
    CommitStillCovered(s, t, n, v);
  }

  // ---- every step ----

  /** No command is astray, so it runs as the command alone would. */
  lemma CalledAsRan(g: Setting, s: Cluster, job: nat, size: nat, me: string, now: nat)
    requires OwnFiles(s) && CanFeed(s, job, size)
    ensures Called(g, s, job, size, me, now) == Ran(g.hash, s.jobs[job].command, Home(s, NodeOf(s, job)),
                                                    Chunk(s, job, size), Surroundings(false, me, now))
  {
    NotAstray(s, job);
    hide Ran;
  }

  lemma FeedDoesOneThing(g: Setting, s: Cluster, job: nat, size: nat, me: string, now: nat)
    requires Invariant(g, s) && CanFeed(s, job, size)
    ensures var (c, d, chunk, o) :=
        (s.jobs[job].command, Home(s, NodeOf(s, job)), Chunk(s, job, size), Called(g, s, job, size, me, now));
      && Calling(g, s, job, size)
      && (Idles(c, d, o) || Creates(c, d, chunk, o) || Grows(c, d, chunk, o) || FillsWindow(c, d, chunk, o)
          || Commits(c, d, chunk, o))
  {
    assert JobFits(g, s, s.jobs[job]);
    HomeOf(s, NodeOf(s, job));
    CalledAsRan(g, s, job, size, me, now);
    hide HomesFit, StreamsFit, JobsFit, JobsApart, OwnFiles, MessagesFit, Covered, Called, Ran, Idles, Creates, Grows,
      FillsWindow, Commits;
    CallDoesOneThing(g.hash, s.jobs[job].command, Home(s, NodeOf(s, job)), Chunk(s, job, size), Surroundings(false, me, now));
  }

  /** If everything fits once the file is created, then it agrees with its version. */
  lemma FittingAgrees(g: Setting, s: Cluster, job: nat, size: nat, o: Outcome)
    requires Calling(g, s, job, size)
    requires Creates(s.jobs[job].command, Home(s, NodeOf(s, job)), Chunk(s, job, size), o)
    requires JobsFit(g, Worked(s, job, size, o)) && JobsApart(Worked(s, job, size, o))
    ensures Agrees(s, job, o.command.writer.value)
  {
    hide HomesFit, StreamsFit, JobsFit, JobsApart, OwnFiles, Creates, Worked, Ready, VersionsOf, Busy;
    var j, st := s.jobs[job], s.streams[s.jobs[job].inlet];
    CreatesIs(j.command, Home(s, NodeOf(s, job)), Chunk(s, job, size), o);
    CreatedIs(s, job, size, o);
    var t, n, v := Worked(s, job, size, o), NodeOf(s, job), o.command.writer.value;
    JobOf(g, s, job);
    JobOf(g, t, job);
    NotBusy(s, t, job, n, v);
    if st.local && v in s.written {
      assert FileFits(t, t.jobs[job], st, Chunk(s, job, size));
      hide JobFits;
      WholeFromPieces(s.written[v], st.sent, j.read, size);
    }
  }

  lemma NotBusy(s: Cluster, t: Cluster, job: nat, n: string, v: Clock)
    requires JobsApart(t) && t.streams == s.streams && job in s.jobs && WritesAt(t, job, n, v)
    requires t.jobs == s.jobs[job := t.jobs[job]]
    ensures !Busy(s, job, n, v)
  {
    assert forall i | i != job :: WritesAt(s, i, n, v) == WritesAt(t, i, n, v);
    hide WritesAt;
  }

  lemma WholeFromPieces(whole: seq<Byte>, sent: seq<Byte>, read: nat, size: nat)
    requires read + size <= |sent| && PieceOf(sent[read..read + size], whole, 0) && whole[size..] == sent[read + size..]
    ensures whole == sent[read..]
  {
    assert whole == whole[..size] + whole[size..];
    assert sent[read..] == sent[read..read + size] + sent[read + size..];
  }

  /** A call keeps the invariant if and only if the file that it creates, if any, agrees with its version. */
  lemma FeedKeeps(g: Setting, s: Cluster, job: nat, size: nat, link: bool, out: nat, me: string, now: nat)
    requires Sane(g) && Invariant(g, s)
    ensures Invariant(g, Fed(g, s, job, size, link, out, me, now)) <==> Agreed(g, s, Feed(job, size, link, out, me, now))
  {
    if CanFeed(s, job, size) && out !in s.streams {
      FeedDoesOneThing(g, s, job, size, me, now);
      var (c, d, chunk, o) :=
        (s.jobs[job].command, Home(s, NodeOf(s, job)), Chunk(s, job, size), Called(g, s, job, size, me, now));
      if Creates(c, d, chunk, o) {
        CreatesIffAgrees(g, s, job, size, o);
        hide Calling, Called, Worked, CalledBack, Agrees, Contents, HasItsFile, Ready, VersionsOf, Committed, HomesFit,
          StreamsFit, JobsFit, JobsApart, OwnFiles, MessagesFit, Covered;
        assert Fed(g, s, job, size, link, out, me, now) == Worked(s, job, size, o);
      } else {
        OldFile(c, d, chunk, o);
        hide Invariant, Calling, Called, Worked, CalledBack, Agrees, Contents, HasItsFile, Ready, VersionsOf, Committed;
        if Idles(c, d, o) {
          IdleKeeps(g, s, job, size, o);
        } else if Grows(c, d, chunk, o) {
          GrowKeeps(g, s, job, size, o);
        } else {
          FlushKeeps(g, s, job, size, o, link, out);
        }
      }
    }
  }

  lemma CreatesIffAgrees(g: Setting, s: Cluster, job: nat, size: nat, o: Outcome)
    requires Invariant(g, s) && Calling(g, s, job, size)
    requires Creates(s.jobs[job].command, Home(s, NodeOf(s, job)), Chunk(s, job, size), o)
    ensures Invariant(g, Worked(s, job, size, o)) <==> Agrees(s, job, o.command.writer.value)
  {
    if Agrees(s, job, o.command.writer.value) {
      assert Creating(g, s, job, size, o);
      hide Invariant, Calling, Creates, Worked, Agrees;
      CreateKeeps(g, s, job, size, o);
    }
    if JobsFit(g, Worked(s, job, size, o)) && JobsApart(Worked(s, job, size, o)) {
      hide Calling, Creates, Worked, Agrees, JobsFit, JobsApart;
      FittingAgrees(g, s, job, size, o);
    }
  }

  /** All other calls create no file. */
  lemma OldFile(c: Command, d: Directory, chunk: seq<Byte>, o: Outcome)
    requires Idles(c, d, o) || Grows(c, d, chunk, o) || FillsWindow(c, d, chunk, o) || Commits(c, d, chunk, o)
    ensures !(!c.started && o.command.started)
    ensures HasItsFile(c, d) ==> c.started && c.writer.Some?
  {
  }

  lemma FlushKeeps(g: Setting, s: Cluster, job: nat, size: nat, o: Outcome, link: bool, out: nat)
    requires Sane(g) && Invariant(g, s) && Calling(g, s, job, size) && out !in s.streams
    requires var (c, d, chunk) := (s.jobs[job].command, Home(s, NodeOf(s, job)), Chunk(s, job, size));
      FillsWindow(c, d, chunk, o) || Commits(c, d, chunk, o)
    ensures o.command.writer.Some? && |o.notices| == 1
    ensures var contents := Contents(s, job, size, o.notices[0].size);
      Invariant(g, CalledBack(g, Worked(s, job, size, o), job, o.notices[0], contents, link, out))
  {
    assert Flushing(g, s, job, size, o, out) && o.command.writer.Some? && |o.notices| == 1;
    assert Answered(g, s, job, size, o, link, out)
        == CalledBack(g, Worked(s, job, size, o), job, o.notices[0], Contents(s, job, size, o.notices[0].size), link, out);
    hide Invariant, Flushing, Calling, Answered, FillsWindow, Commits, CalledBack, Worked, Contents;
    if o.notices[0].isComplete {
      CloseKeeps(g, s, job, size, o, link, out);
    } else {
      FillKeeps(g, s, job, size, o, link, out);
    }
  }

  /** A step keeps the invariant if and only if the file that it creates, if any, agrees with its version. */
  lemma NextKeeps(g: Setting, s: Cluster, step: Step)
    requires Sane(g) && Invariant(g, s)
    ensures Invariant(g, Next(g, s, step)) <==> Agreed(g, s, step)
  {
    hide Sane, Invariant;
    match step
    case Upload(stream, node, given, copies, data) => UploadKeeps(g, s, stream, node, given, copies, data);
    case Begin(job, stream) => BeginKeeps(g, s, job, stream);
    case Feed(job, size, link, out, me, now) =>
      hide Agreed;
      FeedKeeps(g, s, job, size, link, out, me, now);
    case Dismiss(job) => DismissKeeps(g, s, job);
    case SendOffer(src, dst, version, offload) => OfferKeeps(g, s, src, dst, version, offload);
    case TakeMessage(m, out) =>
      if m in s.messages {
        match m
        case OfferWrite(_, _, _, _) => OfferTakenKeeps(g, s, m);
        case DemandWrite(_, _, _, _) => DemandTakenKeeps(g, s, m, out);
        case AckWrite(_, _, _, _) => AckTakenKeeps(g, s, m);
      }
  }

  /** The invariant holds in all states of the run. */
  ghost predicate AlwaysSound(g: Setting, steps: seq<Step>)
    requires Sane(g)
  {
    Invariant(g, After(g, steps)) && (steps != [] ==> AlwaysSound(g, steps[..|steps| - 1]))
  }

  /** In every state of a run, all files, streams, copies and messages fit what is on record for their versions, no
      running command is astray, and what clients were told is covered, if and only if each file that a step creates
      agrees with its version. */
  lemma {:induction false} SoundIffAgreed(g: Setting, steps: seq<Step>)
    requires Sane(g)
    ensures AlwaysSound(g, steps) <==> AlwaysAgreed(g, steps)
  {
    if steps != [] {
      var n := |steps| - 1;
      SoundIffAgreed(g, steps[..n]);
      hide Sane, Invariant, Next, Agreed;
      if AlwaysSound(g, steps[..n]) {
        NextKeeps(g, After(g, steps[..n]), steps[n]);
      }
    } else {
      assert Invariant(g, NOTHING_YET);
    }
  }

  lemma RunKeeps(g: Setting, steps: seq<Step>)
    requires Sane(g) && AlwaysAgreed(g, steps)
    ensures Invariant(g, After(g, steps))
  {
    SoundIffAgreed(g, steps);
    hide Invariant, After, AlwaysAgreed;
    assert AlwaysSound(g, steps);
  }
}
