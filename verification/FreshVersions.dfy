/** When the versions that nodes make for unversioned writes can be relied upon: a node makes a version again only for
    a write that comes in a second for which it has made one before. */
module FreshVersions {
  import opened Bytes
  import opened VectorClocks
  import opened FileStores
  import opened WriteCommands
  import opened Calls
  import opened Clusters
  import opened ClusterInvariants
  import opened ReplicationSafety

  /** All stamps with this id, in versions that clients have written, are from before this second. */
  predicate Later(s: Cluster, me: string, now: nat) {
    forall v: Clock <- s.written :: me in v ==> v[me].time < now
  }

  // ---- the stamps of a new version ----

  /** Each stamp of a least upper bound is that of some version. */
  lemma {:induction false} StampsComeFrom(vs: set<Clock>, c: Clock)
    requires LeastUpperBound(vs, c)
    ensures forall id <- c :: exists v: Clock <- vs :: id in v && v[id] == c[id]
    decreases |vs|
  {
    if vs == {} {
      LeastUpperBoundUnique(vs, c, UNVERSIONED);
    } else {
      var v :| v in vs;
      var rest := vs - {v};
      assert rest + {v} == vs;
      MergeExtendsLeastUpperBound(rest, Merged(rest), v);
      LeastUpperBoundUnique(vs, c, Merge(Merged(rest), v));
      StampsComeFrom(rest, Merged(rest));
    }
  }

  /** A version made later than all stamps of the node has the second of its making. */
  lemma NextStamp(vs: set<Clock>, me: string, now: nat)
    requires forall v: Clock <- vs :: me in v ==> v[me].time < now
    ensures var v := Increment(Merged(vs), me, now); me in v && v[me] == Stamp(now, 0)
  {
    StampsComeFrom(vs, Merged(vs));
  }

  // ---- what a call opens ----

  /** A command that creates a file creates it under the version that the store chose. */
  lemma OpensAsChosen(hash: Hasher, c: Command, d: Directory, chunk: seq<Byte>, env: Surroundings)
    requires Ready(c) && Consistent(d) && |chunk| <= WINDOW && !c.started
    ensures var o := Ran(hash, c, d, chunk, env);
      var chosen := Opened(d, c.instructions.version, c.instructions.copies, env.expired, env.me, env.now);
      && (o.command.started ==> o.command.writer.Some? && chosen.Some? && o.command.writer.value == chosen.value.0)
      && (!c.finished && chosen.Some? ==> o.command.started)
  {
    assert [] + chunk == chunk;
    hide Merged, VersionsOf, StoredCopies;
  }

  /** The version that a call of a command that has not begun creates a file under, if it creates one. */
  lemma CallOpensAs(g: Setting, s: Cluster, job: nat, size: nat, me: string, now: nat)
    requires Invariant(g, s) && CanFeed(s, job, size) && !s.jobs[job].command.started
    ensures var (c, d, o) := (s.jobs[job].command, Home(s, NodeOf(s, job)), Called(g, s, job, size, me, now));
      var chosen := Opened(d, c.instructions.version, c.instructions.copies, false, me, now);
      && (OpensNow(s.jobs[job], o) ==> chosen.Some? && o.command.writer.value == chosen.value.0)
      && (!c.finished && chosen.Some? ==> OpensNow(s.jobs[job], o))
  {
    hide HomesFit, StreamsFit, JobsFit, JobsApart, OwnFiles, MessagesFit, Covered, Called, Ran, Opened, Consistent,
      Ready;
    JobOf(g, s, job);
    HomeOf(s, NodeOf(s, job));
    CalledAsRan(g, s, job, size, me, now);
    OpensAsChosen(g.hash, s.jobs[job].command, Home(s, NodeOf(s, job)), Chunk(s, job, size), Surroundings(false, me, now));
  }

  lemma OnRecordHere(s: Cluster, node: string)
    requires HomesFit(s)
    ensures forall v <- VersionsOf(Home(s, node), true) :: v in s.written
  {
    HomeOf(s, node);
    hide TailOf, Consistent;
  }

  /** A command at work on a file writes a version that is on record. */
  lemma WriterOnRecord(g: Setting, s: Cluster, node: string, v: Clock)
    requires JobsFit(g, s) && v !in s.written
    ensures forall i <- s.jobs :: !WritesAt(s, i, node, v)
  {
    forall i | i in s.jobs ensures !WritesAt(s, i, node, v) {
      JobOf(g, s, i);
      hide OriginFits, OutletFits, FileFits, RouteFits, Ready;
    }
  }

  /** A version that is not on record agrees with any write. */
  lemma NewVersionAgrees(g: Setting, s: Cluster, job: nat, v: Clock)
    requires Invariant(g, s) && job in s.jobs && v !in s.written
    requires s.jobs[job].inlet in s.streams && s.jobs[job].read <= |s.streams[s.jobs[job].inlet].sent|
    ensures Agrees(s, job, v)
  {
    hide HomesFit, StreamsFit, JobsFit, JobsApart, OwnFiles, MessagesFit, Covered, WritesAt;
    WriterOnRecord(g, s, NodeOf(s, job), v);
  }

  /** An unversioned write that comes later than all stamps of its node's id gets a version that no client has written
      before, so the step agrees. */
  lemma LaterIsNew(g: Setting, s: Cluster, job: nat, size: nat, link: bool, out: nat, me: string, now: nat)
    requires Invariant(g, s) && CanFeed(s, job, size) && !s.jobs[job].command.started
    requires s.jobs[job].command.instructions.version == UNVERSIONED && Later(s, me, now)
    ensures var o := Called(g, s, job, size, me, now);
      OpensNow(s.jobs[job], o) ==> o.command.writer.value !in s.written
    ensures Agreed(g, s, Feed(job, size, link, out, me, now))
  {
    var d, o := Home(s, NodeOf(s, job)), Called(g, s, job, size, me, now);
    CallOpensAs(g, s, job, size, me, now);
    hide Called, HomesFit, StreamsFit, JobsFit, JobsApart, OwnFiles, MessagesFit, Covered, Agrees, Merged, Increment,
      VersionsOf;
    OnRecordHere(s, NodeOf(s, job));
    NextStamp(VersionsOf(d, true), me, now);
    if OpensNow(s.jobs[job], o) {
      NewVersionAgrees(g, s, job, o.command.writer.value);
    }
  }

  /** At a node that has nothing of the key, such as one that has dropped it, an unversioned write gets the version that
      has only this second in it; and the step agrees if and only if that version does. */
  lemma AfterADrop(g: Setting, s: Cluster, job: nat, size: nat, link: bool, out: nat, me: string, now: nat)
    requires Invariant(g, s) && CanFeed(s, job, size) && out !in s.streams
    requires !s.jobs[job].command.started && !s.jobs[job].command.finished
    requires s.jobs[job].command.instructions.version == UNVERSIONED && Home(s, NodeOf(s, job)) == EMPTY
    ensures var (o, v) := (Called(g, s, job, size, me, now), map[me := Stamp(now, 0)]);
      && OpensNow(s.jobs[job], o) && o.command.writer.value == v
      && (Agreed(g, s, Feed(job, size, link, out, me, now)) <==> Agrees(s, job, v))
  {
    CallOpensAs(g, s, job, size, me, now);
    hide Called, Invariant, Agrees;
    NothingThere(me, now);
  }

  lemma NothingThere(me: string, now: nat)
    ensures Increment(Merged(VersionsOf(EMPTY, true)), me, now) == map[me := Stamp(now, 0)]
  {
    assert VersionsOf(EMPTY, true) == {};
    LeastUpperBoundUnique({}, Merged({}), UNVERSIONED);
  }

  // ---- runs ----

  /** What can be checked before a call that may create a file: an unversioned write comes later than all stamps of the
      node's id; and of a version that is named, no other command at the node is still writing, and a client that
      names it sends what was sent for it before, for as many copies. */
  ghost predicate Careful(s: Cluster, step: Step) {
    step.Feed? && CanFeed(s, step.job, step.size) && !s.jobs[step.job].command.started ==>
      var v := s.jobs[step.job].command.instructions.version;
      if v == UNVERSIONED then Later(s, step.me, step.now) else Agrees(s, step.job, v)
  }

  ghost predicate AlwaysCareful(g: Setting, steps: seq<Step>)
    requires Sane(g)
  {
    var n := |steps| - 1;
    steps != [] ==> AlwaysCareful(g, steps[..n]) && Careful(After(g, steps[..n]), steps[n])
  }

  lemma CarefulAgrees(g: Setting, s: Cluster, step: Step)
    requires Invariant(g, s) && Careful(s, step)
    ensures Agreed(g, s, step)
  {
    hide Called, Invariant, Agrees, Later;
    if step.Feed? && CanFeed(s, step.job, step.size) && !s.jobs[step.job].command.started {
      if s.jobs[step.job].command.instructions.version == UNVERSIONED {
        LaterIsNew(g, s, step.job, step.size, step.link, step.out, step.me, step.now);
      } else {
        CallOpensAs(g, s, step.job, step.size, step.me, step.now);
      }
    }
  }

  /** In a run in which every call is careful, versions can be relied upon. */
  lemma {:induction false} CarefulRunsAgree(g: Setting, steps: seq<Step>)
    requires Sane(g) && AlwaysCareful(g, steps)
    ensures AlwaysAgreed(g, steps)
  {
    if steps != [] {
      var n := |steps| - 1;
      CarefulRunsAgree(g, steps[..n]);
      hide Sane, Invariant, After, Agreed, Careful;
      RunKeeps(g, steps[..n]);
      CarefulAgrees(g, After(g, steps[..n]), steps[n]);
    }
  }
}
