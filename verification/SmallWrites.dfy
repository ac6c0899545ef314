/** Writes of a few bytes, step by step: what runs of a cluster are made of. */
module SmallWrites {
  import opened Bytes
  import opened VectorClocks
  import opened FileStores
  import opened WriteCommands
  import opened Calls
  import opened MirrorChains
  import opened Clusters
  import opened ClusterInvariants

  lemma OneMoreStep(g: Setting, steps: seq<Step>, step: Step)
    requires Sane(g)
    ensures After(g, steps + [step]) == Next(g, After(g, steps), step)
  {
    assert (steps + [step])[..|steps|] == steps;
  }

  /** How a command is called: whether a hop can be opened and under which number, and the node's id and clock. */
  datatype How = How(link: bool, out: nat, me: string, now: nat)

  ghost function FedSo(g: Setting, s: Cluster, job: nat, size: nat, h: How): Cluster {
    Fed(g, s, job, size, h.link, h.out, h.me, h.now)
  }

  function WithFile(d: Directory, v: Clock, data: seq<Byte>, copies: nat): Directory {
    d.(partial := d.partial[v := File(data, StoredCopies(copies))])
  }

  /** The version that a command creates: the one in its stream's header, or a new one. */
  ghost predicate OpensAs(d: Directory, version: Clock, h: How, v: Clock) {
    && v !in VersionsOf(d, true) && v != UNVERSIONED
    && v == if version == UNVERSIONED then Increment(Merged(VersionsOf(d, true)), h.me, h.now) else version
  }

  /** What is on record once a client has written these bytes under this version. */
  function Recorded(s: Cluster, st: Stream, v: Clock): Cluster {
    if st.local && v !in s.written
    then s.(written := s.written[v := st.sent], asked := s.asked[v := Unsigned(st.route.copies)])
    else s
  }

  /** The command that has taken in the first bytes of the stream. */
  function Opened1(g: Setting, st: Stream, v: Clock, k: nat, size: nat): Job {
    var plain := Fresh(g.name, st.version, Unsigned(st.route.copies));
    var c := plain.(instructions := plain.instructions.(offset := st.offset));
    Job(k, size, c.(started := true, writer := Some(v), pending := size), st.route, None,
        if st.local then 0 else st.skip, 0, size)
  }

  function Begun1(g: Setting, st: Stream, k: nat): Job {
    var plain := Fresh(g.name, st.version, Unsigned(st.route.copies));
    Job(k, 0, plain.(instructions := plain.instructions.(offset := st.offset)), st.route, None, 0, 0, 0)
  }

  /** A command begins, and takes in its first chunk. */
  ghost function Begun2(g: Setting, s: Cluster, k: nat, i: nat, size: nat, h: How): Cluster {
    FedSo(g, Begun(g, s, i, k), i, size, h)
  }

  ghost predicate Starts(g: Setting, s: Cluster, k: nat, i: nat, v: Clock, size: nat, h: How) {
    && g.name != "" && k in s.streams && i !in s.jobs && h.out !in s.streams
    && var st := s.streams[k];
    && size <= WINDOW && size <= |st.sent|
    && Consistent(Home(s, st.dst)) && OpensAs(Home(s, st.dst), st.version, h, v)
  }

  lemma FirstOutcome(g: Setting, s: Cluster, k: nat, i: nat, v: Clock, size: nat, h: How)
    requires Starts(g, s, k, i, v, size, h)
    ensures var (t, st, d) := (Begun(g, s, i, k), s.streams[k], Home(s, s.streams[k].dst));
      && CanFeed(t, i, size) && Chunk(t, i, size) == st.sent[..size]
      && var o := Called(g, t, i, size, h.me, h.now);
      && o.home == WithFile(d, v, st.sent[..size], Unsigned(st.route.copies))
      && o.command == Opened1(g, st, v, k, size).command && o.notices == [] && o.ok
  {
    var t, st, d := Begun(g, s, i, k), s.streams[k], Home(s, s.streams[k].dst);
    var c := t.jobs[i].command;
    assert t.homes == s.homes && Chunk(t, i, size) == st.sent[..size];
    assert !Astray(t, i);
    FirstChunk(g.hash, c, d, st.sent[..size], Surroundings(false, h.me, h.now));
    assert Called(g, t, i, size, h.me, h.now) == Ran(g.hash, c, d, st.sent[..size], Surroundings(false, h.me, h.now));
    FirstRan(g.hash, c, d, st.sent[..size], h, v);
  }

  lemma ChosenIs(d: Directory, version: Clock, copies: nat, h: How, v: Clock)
    requires OpensAs(d, version, h, v)
    ensures Opened(d, version, copies, false, h.me, h.now) == Some((v, WithFile(d, v, [], copies)))
  {
    hide VersionsOf, Merged, Increment;
  }

  lemma FirstRan(hash: Hasher, c: Command, d: Directory, chunk: seq<Byte>, h: How, v: Clock)
    requires c == Fresh(c.instructions.name, c.instructions.version, c.instructions.copies).(instructions := c.instructions)
    requires c.instructions.name != "" && |chunk| <= WINDOW && Consistent(d) && OpensAs(d, c.instructions.version, h, v)
    ensures var o := Ran(hash, c, d, chunk, Surroundings(false, h.me, h.now));
      && o.home == WithFile(d, v, chunk, c.instructions.copies) && o.notices == [] && o.ok
      && o.command == c.(started := true, writer := Some(v), pending := |chunk|)
  {
    assert [] + chunk == chunk;
    ChosenIs(d, c.instructions.version, c.instructions.copies, h, v);
    hide Flushed, Finished, Opened, OpensAs, Consistent, StoredCopies;
  }

  /** What comes of the first chunk. */
  ghost predicate StartedSo(g: Setting, s: Cluster, t: Cluster, k: nat, i: nat, v: Clock, size: nat)
    requires k in s.streams && size <= |s.streams[k].sent|
  {
    var st := s.streams[k];
    && t.homes == s.homes[st.dst := WithFile(Home(s, st.dst), v, st.sent[..size], Unsigned(st.route.copies))]
    && t.jobs == s.jobs[i := Opened1(g, st, v, k, size)] && t.makers == s.makers[(st.dst, v) := i]
    && t.streams == s.streams && t.messages == s.messages && t.committed == s.committed
    && t.written == Recorded(s, st, v).written && t.asked == Recorded(s, st, v).asked
  }

  lemma WriteStarts(g: Setting, s: Cluster, k: nat, i: nat, v: Clock, size: nat, h: How)
    requires Starts(g, s, k, i, v, size, h)
    ensures StartedSo(g, s, Begun2(g, s, k, i, size, h), k, i, v, size)
  {
    hide Called, Starts, WithFile, CanFeed, Chunk, OpensAs, Consistent;
    FirstOutcome(g, s, k, i, v, size, h);
    StartsIs(g, s, k, i, v, size, h);
    var st, u := s.streams[k], Begun(g, s, i, k);
    FirstWork(g, u, i, size, v, Called(g, u, i, size, h.me, h.now), st, k);
  }

  lemma StartsIs(g: Setting, s: Cluster, k: nat, i: nat, v: Clock, size: nat, h: How)
    requires Starts(g, s, k, i, v, size, h)
    ensures k in s.streams && i !in s.jobs && h.out !in s.streams && size <= |s.streams[k].sent| && size <= WINDOW
    ensures Begun(g, s, i, k) == s.(jobs := s.jobs[i := Begun1(g, s.streams[k], k)])
  {
  }

  lemma FirstWork(g: Setting, u: Cluster, i: nat, size: nat, v: Clock, o: Outcome, st: Stream, k: nat)
    requires CanFeed(u, i, size) && u.jobs[i] == Begun1(g, st, k) && k in u.streams && u.streams[k] == st
    requires o.command == Opened1(g, st, v, k, size).command && o.ok && size <= WINDOW
    ensures var t := Worked(u, i, size, o);
      && t.homes == u.homes[st.dst := o.home] && t.jobs == u.jobs[i := Opened1(g, st, v, k, size)]
      && t.makers == u.makers[(st.dst, v) := i]
      && t.streams == u.streams && t.messages == u.messages && t.committed == u.committed
      && t.written == Recorded(u, st, v).written && t.asked == Recorded(u, st, v).asked
  {
    assert st.sent[0..] == st.sent;
  }

  // ---- the end of a write ----

  /** A command that finds the only file in its directory, its own or another one of that name, has passed nothing on,
      and whose stream has ended. */
  ghost predicate Ends(s: Cluster, job: nat, data: seq<Byte>) {
    && CanFeed(s, job, 0) && Ready(s.jobs[job].command) && s.jobs[job].command.InFlight()
    && s.jobs[job].outlet == None && s.jobs[job].command.writer.value != UNVERSIONED
    && var (j, n) := (s.jobs[job], s.streams[s.jobs[job].inlet].dst);
    && n in s.homes && s.homes[n].done == map[] && s.homes[n].partial.Keys == {j.command.writer.value}
    && s.homes[n].partial[j.command.writer.value].data == data
  }

  lemma OnlyCommit(d: Directory, v: Clock)
    requires Consistent(d) && d.done == map[] && d.partial.Keys == {v}
    ensures Committed(d, v) == Directory(d.partial, map[])
  {
    CommittedVersions(d, v);
    hide Committed;
    var e := Committed(d, v);
    assert e.done.Keys == {v};
    assert e.done == d.partial && e.partial == map[];
  }

  /** At the end of its stream, a command that is astray does what any other would. */
  lemma EndedAlike(g: Setting, s: Cluster, job: nat, h: How)
    requires CanFeed(s, job, 0) && s.jobs[job].command.InFlight()
    ensures Called(g, s, job, 0, h.me, h.now) == Ran(g.hash, s.jobs[job].command, Home(s, s.streams[s.jobs[job].inlet].dst), [],
                                                     Surroundings(false, h.me, h.now))
  {
    hide Finished, Flushed;
    assert Chunk(s, job, 0) == [];
  }

  lemma LastCall(g: Setting, s: Cluster, job: nat, data: seq<Byte>, h: How)
    requires Ends(s, job, data)
    ensures var (o, j, d) := (Called(g, s, job, 0, h.me, h.now), s.jobs[job], s.homes[s.streams[s.jobs[job].inlet].dst]);
      && o.home == Directory(d.partial, map[]) && |o.notices| == 1 && !OpensNow(j, o)
      && o.command.writer == j.command.writer && o.command.finished
      && o.notices[0].offset == j.command.instructions.offset && o.notices[0].size == |data| && o.notices[0].isComplete
      && Contents(s, job, 0, |data|) == data
  {
    var j, d := s.jobs[job], Home(s, s.streams[s.jobs[job].inlet].dst);
    assert Chunk(s, job, 0) == [] && Consistent(d);
    EndedAlike(g, s, job, h);
    CommitsIffItsFileIsThere(g.hash, j.command, d, [], Surroundings(false, h.me, h.now));
    OnlyCommit(d, j.command.writer.value);
    assert data + [] == data && data[..|data|] == data;
    hide Ran, Committed, Consistent;
  }

  /** What comes of the end of a write that had no hop yet: a hop gets what the write's offset says. */
  ghost predicate EndedSo(
    g: Setting, s: Cluster, t: Cluster, job: nat, st: Stream, v: Clock, data: seq<Byte>, h: How)
    requires job in s.jobs && st.dst in s.homes
  {
    var j := s.jobs[job];
    var (p, hop) := (From(j.command.instructions.offset, data), Hop(g, st.dst, j.route));
    && t.homes == s.homes[st.dst := Directory(s.homes[st.dst].partial, map[])] && t.makers == s.makers
    && t.written == s.written && t.asked == s.asked
    && t.committed == s.committed + (if st.local then {Write(v, Given(j, st))} else {})
    && t.messages == s.messages + (if st.local then {} else Acks(g, st.dst, hop.0, v, |data|))
    && t.streams == (if h.link && hop.1.Some? then s.streams[h.out := Stream(hop.1.value.uid, v, hop.0,
                       j.command.instructions.offset, false, data[p..], true, j.base + p)] else s.streams)
    && t.jobs.Keys == s.jobs.Keys && (forall i <- s.jobs :: i != job ==> t.jobs[i] == s.jobs[i])
    && t.jobs[job].command.finished && t.jobs[job].inlet == j.inlet
  }

  lemma AnsweredAtEnd(
    g: Setting, s: Cluster, w: Cluster, job: nat, k: nat, v: Clock, notice: Notice, data: seq<Byte>, h: How)
    requires job in s.jobs && k in s.streams && s.jobs[job].inlet == k && s.streams[k].dst in s.homes
    requires s.jobs[job].outlet == None
    requires job in w.jobs && w == s.(homes := s.homes[s.streams[k].dst := Directory(s.homes[s.streams[k].dst].partial, map[])],
                     jobs := s.jobs[job := w.jobs[job]])
    requires var (i, j) := (s.jobs[job], w.jobs[job]);
      && j == i.(read := j.read, command := j.command, position := j.position)
      && j.command.writer == Some(v) && j.command.finished
      && notice.offset == i.command.instructions.offset && notice.size == |data| && notice.isComplete
    ensures EndedSo(g, s, CalledBack(g, w, job, notice, data, h.link, h.out), job, s.streams[k], v, data, h)
  {
    hide Hop, Acks, From, Given, CalledBack;
    GivenAlike(s.jobs[job], w.jobs[job], s.streams[k]);
    CalledBackIs(g, w, job, notice, data, h.link, h.out);
    PassedAtEnd(g, w, job, notice, data, h);
  }

  lemma LastFeed(g: Setting, s: Cluster, job: nat, data: seq<Byte>, h: How)
    requires Ends(s, job, data) && h.out !in s.streams
    ensures EndedSo(g, s, FedSo(g, s, job, 0, h), job, s.streams[s.jobs[job].inlet], s.jobs[job].command.writer.value, data, h)
  {
    LastCall(g, s, job, data, h);
    hide Called, Contents, Ready, CalledBack, Worked, EndedSo, Astray;
    var o := Called(g, s, job, 0, h.me, h.now);
    WorkedIs(s, job, 0, o);
    AnsweredAtEnd(g, s, Worked(s, job, 0, o), job, s.jobs[job].inlet, s.jobs[job].command.writer.value, o.notices[0], data, h);
  }

  lemma GivenAlike(j: Job, k: Job, st: Stream)
    requires k.start == j.start
    ensures Given(k, st) == Given(j, st)
  {
  }

  lemma PassedAtEnd(g: Setting, w: Cluster, job: nat, notice: Notice, data: seq<Byte>, h: How)
    requires job in w.jobs && w.jobs[job].inlet in w.streams && w.jobs[job].command.writer.Some?
    requires w.jobs[job].outlet == None && notice.isComplete
    ensures var (t, j, st) := (CalledBack(g, w, job, notice, data, h.link, h.out), w.jobs[job], w.streams[w.jobs[job].inlet]);
      var (p, hop) := (From(notice.offset, data), Hop(g, st.dst, j.route));
      t.streams == if h.link && hop.1.Some? then w.streams[h.out := Stream(hop.1.value.uid, j.command.writer.value, hop.0,
                     notice.offset, false, data[p..], true, j.base + p)] else w.streams
  {
    hide Hop, Acks, From, Given;
  }

  // ---- a whole write ----

  /** A stream of a few bytes, all there, is about to come to a node that has nothing. */
  ghost predicate Comes(g: Setting, s: Cluster, k: nat, i: nat, v: Clock, h: How) {
    && k in s.streams && Starts(g, s, k, i, v, |s.streams[k].sent|, h)
    && s.streams[k].closed && 0 < |s.streams[k].sent| && s.streams[k].dst !in s.homes
  }

  lemma ComesStarts(g: Setting, s: Cluster, k: nat, i: nat, v: Clock, h: How)
    requires Comes(g, s, k, i, v, h)
    ensures k in s.streams && Starts(g, s, k, i, v, |s.streams[k].sent|, h)
  {
    hide Starts;
  }

  ghost function Ended3(g: Setting, s: Cluster, k: nat, i: nat, size: nat, h: How): Cluster {
    FedSo(g, Begun2(g, s, k, i, size, h), i, 0, h)
  }

  function OneFile(st: Stream, v: Clock): map<Clock, File> {
    map[v := File(st.sent, StoredCopies(Unsigned(st.route.copies)))]
  }

  /** The command whose first chunk was the whole stream. */
  lemma OpenedEnds(g: Setting, s: Cluster, k: nat, i: nat, v: Clock, t: Cluster)
    requires g.name != "" && k in s.streams && t.streams == s.streams && v != UNVERSIONED
    requires s.streams[k].closed && 0 < |s.streams[k].sent| <= WINDOW
    requires t.homes == s.homes[s.streams[k].dst := Directory(map[], OneFile(s.streams[k], v))]
    requires i in t.jobs && t.jobs[i] == Opened1(g, s.streams[k], v, k, |s.streams[k].sent|)
    ensures Ends(t, i, s.streams[k].sent) && Given(t.jobs[i], s.streams[k]) == s.streams[k].sent
  {
  }

  lemma AllTaken(g: Setting, s: Cluster, k: nat, i: nat, v: Clock, h: How)
    requires Comes(g, s, k, i, v, h)
    ensures var (t, st) := (Begun2(g, s, k, i, |s.streams[k].sent|, h), s.streams[k]);
      && t.homes == s.homes[st.dst := Directory(map[], OneFile(st, v))] && t.makers == s.makers[(st.dst, v) := i]
      && t.streams == s.streams && t.messages == s.messages && t.committed == s.committed
      && t.written == Recorded(s, st, v).written && t.asked == Recorded(s, st, v).asked
      && t.jobs == s.jobs[i := Opened1(g, st, v, k, |st.sent|)] && h.out !in s.streams && i !in s.jobs
      && Ends(t, i, st.sent) && Given(t.jobs[i], st) == st.sent
  {
    var st := s.streams[k];
    assert Home(s, st.dst) == EMPTY && g.name != "" && v != UNVERSIONED;
    assert st.sent[..|st.sent|] == st.sent;
    assert WithFile(EMPTY, v, st.sent, Unsigned(st.route.copies)) == Directory(map[], OneFile(st, v));
    hide Begun2, WithFile, OneFile, Starts, Ends, Given, Opened1, Recorded;
    StartsIs(g, s, k, i, v, |st.sent|, h);
    WriteStarts(g, s, k, i, v, |st.sent|, h);
    OpenedEnds(g, s, k, i, v, Begun2(g, s, k, i, |st.sent|, h));
  }

  /** The stream that a small write is passed on with, if a hop can be opened. */
  function Onward(g: Setting, st: Stream, v: Clock): Option<Stream> {
    var (route, peer) := Hop(g, st.dst, st.route);
    var p := From(st.offset, st.sent);
    if peer.None? then None
    else
      Some(Stream(peer.value.uid, v, route, st.offset, false, st.sent[p..], true, (if st.local then 0 else st.skip) + p))
  }

  /** What comes of a small write. */
  ghost predicate WrittenSo(g: Setting, s: Cluster, t: Cluster, k: nat, i: nat, v: Clock, h: How)
    requires k in s.streams
  {
    var st := s.streams[k];
    && t.homes == s.homes[st.dst := Directory(OneFile(st, v), map[])]
    && t.written == Recorded(s, st, v).written && t.asked == Recorded(s, st, v).asked
    && t.committed == s.committed + (if st.local then {Write(v, st.sent)} else {})
    && t.messages == s.messages + (if st.local then {} else Acks(g, st.dst, Hop(g, st.dst, st.route).0, v, |st.sent|))
    && t.streams == (if h.link && Onward(g, st, v).Some? then s.streams[h.out := Onward(g, st, v).value] else s.streams)
    && t.jobs.Keys == s.jobs.Keys + {i} && (forall l <- s.jobs :: t.jobs[l] == s.jobs[l])
    && t.jobs[i].command.finished && t.jobs[i].inlet == k
  }

  lemma WriteEnds(g: Setting, s: Cluster, u: Cluster, t: Cluster, k: nat, i: nat, v: Clock, h: How)
    requires k in s.streams && i !in s.jobs && i in u.jobs && u.jobs[i] == Opened1(g, s.streams[k], v, k, |s.streams[k].sent|)
    requires var st := s.streams[k];
      && u.homes == s.homes[st.dst := Directory(map[], OneFile(st, v))] && u.jobs == s.jobs[i := u.jobs[i]]
      && u.streams == s.streams && u.messages == s.messages && u.committed == s.committed
      && u.written == Recorded(s, st, v).written && u.asked == Recorded(s, st, v).asked
      && EndedSo(g, u, t, i, st, v, st.sent, h) && Given(u.jobs[i], st) == st.sent
    ensures WrittenSo(g, s, t, k, i, v, h)
  {
    hide Hop, Acks, From, OneFile, Given, Recorded;
  }

  /** A node that has nothing takes in a small write, commits it, passes it on if it can, and acknowledges it if it is
      to. */
  lemma SmallWrite(g: Setting, s: Cluster, k: nat, i: nat, v: Clock, h: How)
    requires Comes(g, s, k, i, v, h)
    ensures k in s.streams && WrittenSo(g, s, Ended3(g, s, k, i, |s.streams[k].sent|, h), k, i, v, h)
  {
    assert k in s.streams;
    hide Comes, Begun2, FedSo, Ends, OneFile, Given, Recorded, EndedSo, WrittenSo, WithFile;
    var st := s.streams[k];
    var u := Begun2(g, s, k, i, |st.sent|, h);
    AllTaken(g, s, k, i, v, h);
    EndsIs(u, i, st.sent);
    LastFeed(g, u, i, st.sent, h);
    WriteEnds(g, s, u, Ended3(g, s, k, i, |st.sent|, h), k, i, v, h);
  }

  lemma EndsIs(s: Cluster, job: nat, data: seq<Byte>)
    requires Ends(s, job, data)
    ensures job in s.jobs && s.jobs[job].inlet in s.streams && s.streams[s.jobs[job].inlet].dst in s.homes
    ensures s.jobs[job].command.writer.Some?
  {
  }

  lemma RunHalf(g: Setting, steps: seq<Step>, k: nat, i: nat, size: nat, h: How)
    requires Sane(g)
    ensures After(g, steps + [Begin(i, k)] + [Feed(i, size, h.link, h.out, h.me, h.now)])
         == Begun2(g, After(g, steps), k, i, size, h)
  {
    hide Fed, Begun;
    OneMoreStep(g, steps, Begin(i, k));
    OneMoreStep(g, steps + [Begin(i, k)], Feed(i, size, h.link, h.out, h.me, h.now));
  }

  /** A write from its header to its end, in one chunk. */
  function Through(k: nat, i: nat, size: nat, h: How): seq<Step> {
    [Begin(i, k), Feed(i, size, h.link, h.out, h.me, h.now), Feed(i, 0, h.link, h.out, h.me, h.now)]
  }

  lemma RunThrough(g: Setting, steps: seq<Step>, k: nat, i: nat, size: nat, h: How)
    requires Sane(g)
    ensures After(g, steps + Through(k, i, size, h)) == Ended3(g, After(g, steps), k, i, size, h)
  {
    hide Fed, Begun2;
    var (a, b, c) :=
      (Begin(i, k), Feed(i, size, h.link, h.out, h.me, h.now), Feed(i, 0, h.link, h.out, h.me, h.now));
    RunHalf(g, steps, k, i, size, h);
    OneMoreStep(g, steps + [a] + [b], c);
    assert steps + [a] + [b] + [c] == steps + Through(k, i, size, h);
  }

  // ---- runs in which versions can be relied upon ----

  /** Only a call can create a file. */
  lemma QuietAgrees(g: Setting, steps: seq<Step>, step: Step)
    requires Sane(g) && AlwaysAgreed(g, steps) && !step.Feed?
    ensures AlwaysAgreed(g, steps + [step])
  {
    AgreedOneMore(g, steps, step);
    hide AlwaysAgreed;
  }

  lemma AgreedOneMore(g: Setting, steps: seq<Step>, step: Step)
    requires Sane(g)
    ensures AlwaysAgreed(g, steps + [step]) <==> AlwaysAgreed(g, steps) && Agreed(g, After(g, steps), step)
  {
    hide Agreed, After;
    assert (steps + [step])[..|steps|] == steps;
  }

  /** No other command at the node writes this version, and a client that wrote it before wrote the same. */
  ghost predicate MayWrite(s: Cluster, k: nat, v: Clock)
    requires k in s.streams
  {
    var st := s.streams[k];
    && (forall l <- s.jobs :: !WritesAt(s, l, st.dst, v))
    && (st.local && v in s.written ==> s.written[v] == st.sent && Asked(s, v) == Unsigned(st.route.copies))
  }

  lemma StartAgrees(g: Setting, s: Cluster, k: nat, i: nat, v: Clock, size: nat, h: How)
    requires Starts(g, s, k, i, v, size, h) && MayWrite(s, k, v)
    ensures Agreed(g, Begun(g, s, i, k), Feed(i, size, h.link, h.out, h.me, h.now))
  {
    FirstOutcome(g, s, k, i, v, size, h);
    StartsIs(g, s, k, i, v, size, h);
    hide Called, Starts, CanFeed, WithFile;
    var t, st := Begun(g, s, i, k), s.streams[k];
    forall l | l in t.jobs && l != i ensures !WritesAt(t, l, st.dst, v) {
      assert WritesAt(t, l, st.dst, v) == WritesAt(s, l, st.dst, v);
    }
    hide WritesAt;
    assert !Busy(t, i, st.dst, v) && st.sent[0..] == st.sent;
  }

  lemma StartedAgrees(g: Setting, s: Cluster, step: Step)
    requires step.Feed? && step.job in s.jobs && s.jobs[step.job].command.started
    ensures Agreed(g, s, step)
  {
    hide Called;
  }

  /** The first half of a write. */
  lemma StartRunAgrees(g: Setting, steps: seq<Step>, k: nat, i: nat, v: Clock, size: nat, h: How)
    requires Sane(g) && AlwaysAgreed(g, steps)
    requires Starts(g, After(g, steps), k, i, v, size, h) && MayWrite(After(g, steps), k, v)
    ensures AlwaysAgreed(g, steps + [Begin(i, k)] + [Feed(i, size, h.link, h.out, h.me, h.now)])
    ensures After(g, steps + [Begin(i, k)] + [Feed(i, size, h.link, h.out, h.me, h.now)])
         == Begun2(g, After(g, steps), k, i, size, h)
  {
    hide Fed, Begun, After, Starts, AlwaysAgreed, MayWrite, Sane;
    var (a, b) := (Begin(i, k), Feed(i, size, h.link, h.out, h.me, h.now));
    StartAgrees(g, After(g, steps), k, i, v, size, h);
    OneMoreStep(g, steps, a);
    RunHalf(g, steps, k, i, size, h);
    AgreedOneMore(g, steps, a);
    AgreedOneMore(g, steps + [a], b);
  }

  lemma ThroughAgrees(g: Setting, steps: seq<Step>, k: nat, i: nat, v: Clock, size: nat, h: How)
    requires Sane(g) && AlwaysAgreed(g, steps)
    requires Starts(g, After(g, steps), k, i, v, size, h) && MayWrite(After(g, steps), k, v)
    ensures AlwaysAgreed(g, steps + Through(k, i, size, h))
  {
    hide After, AlwaysAgreed, MayWrite, Sane, Agreed, Begun2, WithFile, Starts;
    var (a, b, c) :=
      (Begin(i, k), Feed(i, size, h.link, h.out, h.me, h.now), Feed(i, 0, h.link, h.out, h.me, h.now));
    StartRunAgrees(g, steps, k, i, v, size, h);
    StartsIs(g, After(g, steps), k, i, v, size, h);
    WriteStarts(g, After(g, steps), k, i, v, size, h);
    StartedAgrees(g, After(g, steps + [a] + [b]), c);
    AgreedOneMore(g, steps + [a] + [b], c);
    assert steps + [a] + [b] + [c] == steps + Through(k, i, size, h);
  }
}
