/** Any number of chunked writes to one key, interleaved chunk by chunk, and the entry the key has in the
    digest index.  Every write keeps the entry in step with what the store holds, and tells the commit
    callback about its file window by window. */
module DigestAgreement {
  import opened Bytes
  import opened VectorClocks
  import opened XorFold
  import opened FileStores
  import opened WriteCommands

  /** A write command, the bytes fed to it so far, and the callback calls it has made. */
  datatype Job = Job(command: Command, fed: seq<Byte>, notices: seq<Notice>)

  /** One key of one node: its directory, the writes to it, and its entry in the digest index. */
  datatype System = System(home: Directory, jobs: map<nat, Job>, entry: Option<Digest>)

  datatype Action =
    | Begin(job: nat, version: Clock)
    | Feed(job: nat, chunk: seq<Byte>, env: Surroundings)

  /** What stays fixed: the digest of a version and its size, the digest of an unfinished file's name and
      size, and the key's name, hash and number of copies. */
  datatype Key = Key(hash: Hasher, hashPartial: Hasher, name: string, keyHash: Digest, copies: nat)

  /** `DigestTree::update`: a new entry starts from the hash of the key. */
  function Updated(entry: Option<Digest>, keyHash: Digest, delta: Digest): Option<Digest> {
    Some(Xor(delta, EntryValue(entry, keyHash)))
  }

  function EntryValue(entry: Option<Digest>, keyHash: Digest): Digest {
    if entry.Some? then entry.value else keyHash
  }

  /** `digestAddFunct`, called for every notice. */
  function Indexed(entry: Option<Digest>, keyHash: Digest, notices: seq<Notice>): Option<Digest> {
    if notices == [] then entry
    else Updated(Indexed(entry, keyHash, notices[..|notices| - 1]), keyHash, notices[|notices| - 1].delta)
  }

  ghost function Step(key: Key, s: System, a: Action): System {
    match a
    case Begin(job, version) =>
      if job in s.jobs then s
      else s.(jobs := s.jobs[job := Job(Fresh(key.name, version, key.copies), [], [])])
    case Feed(job, chunk, env) =>
      if job !in s.jobs then s
      else
        var j := s.jobs[job];
        var o := Ran(key.hash, j.command, s.home, chunk, env);
        System(
          o.home,
          s.jobs[job := Job(o.command, if o.ok then j.fed + chunk else j.fed, j.notices + o.notices)],
          Indexed(s.entry, key.keyHash, o.notices))
  }

  ghost function Run(key: Key, s: System, actions: seq<Action>): System {
    if actions == [] then s
    else Step(key, Run(key, s, actions[..|actions| - 1]), actions[|actions| - 1])
  }

  /** `postStart`: the entry rebuilt from what `enumerate` finds in the directory. */
  ghost function Rebuilt(key: Key, d: Directory): Option<Digest> {
    if d.done == map[] && d.partial == map[] then None
    else Updated(None, key.keyHash, Xor(XorAll(DigestsOf(key.hash, d.done)), XorAll(DigestsOf(key.hashPartial, d.partial))))
  }

  ghost function InFlightDigests(jobs: map<nat, Job>): map<nat, Digest> {
    map j | j in jobs && jobs[j].command.InFlight() :: jobs[j].command.instructions.digest
  }

  /** The key's hash, the digests of all committed versions, and the last digest each unfinished write
      has flushed. */
  ghost function Expected(key: Key, s: System): Digest {
    Xor(key.keyHash, Xor(XorAll(DigestsOf(key.hash, s.home.done)), XorAll(InFlightDigests(s.jobs))))
  }

  /** The callback windows of the first `n` bytes of a file, when nothing is complete yet. */
  ghost predicate FullWindows(notices: seq<Notice>) {
    forall i | 0 <= i < |notices| ::
      notices[i].offset == i * WINDOW && notices[i].size == (i + 1) * WINDOW && !notices[i].isComplete
  }

  /** A write under way: the unfinished file holds exactly what was fed, all of it reported in full windows
      but the last one to 0x10000 bytes. */
  ghost predicate Progressing(j: Job, d: Directory) {
    var c := j.command;
    && c.writer.Some? && c.writer.value in d.partial && d.partial[c.writer.value].data == j.fed
    && !c.instructions.isComplete
    && FullWindows(j.notices)
    && c.instructions.offset == |j.notices| * WINDOW
    && c.pending == |j.fed| - c.instructions.offset <= WINDOW
    && (j.notices != [] ==> c.pending > 0)
  }

  /** A finished write: its windows tile the file in order, and only the last one is complete. */
  ghost predicate Tiled(j: Job) {
    var n := |j.notices| - 1;
    && n >= 0
    && FullWindows(j.notices[..n])
    && j.notices[n].offset == n * WINDOW && j.notices[n].size == |j.fed| && j.notices[n].isComplete
    && (n > 0 ==> n * WINDOW < |j.fed|) && |j.fed| <= (n + 1) * WINDOW
  }

  ghost predicate JobFine(key: Key, j: Job, d: Directory) {
    var c := j.command;
    && c.instructions.name == key.name && c.pending <= WINDOW
    && (c.finished ==> c.started && Tiled(j))
    && (c.InFlight() ==> Progressing(j, d))
    && (!c.started ==> c == Fresh(key.name, c.instructions.version, key.copies) && j.fed == [] && j.notices == [])
    && (c.started ==> c.writer.Some?)
  }

  /** No two unfinished writes create the same version, and every unfinished file is being written. */
  ghost predicate WritersApart(s: System) {
    && (forall i, j | i in s.jobs && j in s.jobs && i != j && s.jobs[i].command.InFlight() && s.jobs[j].command.InFlight() ::
          s.jobs[i].command.writer != s.jobs[j].command.writer)
    && (forall v <- s.home.partial :: exists j <- s.jobs :: s.jobs[j].command.InFlight() && s.jobs[j].command.writer == Some(v))
  }

  ghost predicate JobsFine(key: Key, s: System) {
    Consistent(s.home) && forall j <- s.jobs :: JobFine(key, s.jobs[j], s.home)
  }

  /** The index entry is what the store and the writes in flight add up to. */
  ghost predicate Agrees(key: Key, s: System) {
    && EntryValue(s.entry, key.keyHash) == Expected(key, s)
    && (s.entry.None? ==> s.home.done == map[])
    && (s.entry.Some? ==> s.home.done != map[] || s.home.partial != map[])
  }

  ghost predicate Invariant(key: Key, s: System) {
    JobsFine(key, s) && WritersApart(s) && Agrees(key, s)
  }

  /** A node that has just started: only committed versions, and the index rebuilt from them. */
  ghost predicate Initial(key: Key, s: System) {
    && key.name != ""
    && Consistent(s.home) && s.home.partial == map[] && s.jobs == map[]
    && s.entry == Rebuilt(key, s.home)
  }

  ghost predicate Legal(actions: seq<Action>) {
    forall i | 0 <= i < |actions| && actions[i].Feed? :: |actions[i].chunk| <= WINDOW
  }

  // ---------- the digests of the writes in flight ----------

  lemma FlightPut(jobs: map<nat, Job>, job: nat, j: Job)
    requires job !in jobs || !jobs[job].command.InFlight()
    requires j.command.InFlight()
    ensures XorAll(InFlightDigests(jobs[job := j])) == Xor(j.command.instructions.digest, XorAll(InFlightDigests(jobs)))
  {
    assert InFlightDigests(jobs[job := j]) == InFlightDigests(jobs)[job := j.command.instructions.digest];
    XorAllPut(InFlightDigests(jobs), job, j.command.instructions.digest);
  }

  lemma FlightReplace(jobs: map<nat, Job>, job: nat, j: Job)
    requires job in jobs && jobs[job].command.InFlight() && j.command.InFlight()
    ensures XorAll(InFlightDigests(jobs[job := j]))
         == Xor(Xor(jobs[job].command.instructions.digest, j.command.instructions.digest), XorAll(InFlightDigests(jobs)))
  {
    assert InFlightDigests(jobs[job := j]) == InFlightDigests(jobs)[job := j.command.instructions.digest];
    XorAllReplace(InFlightDigests(jobs), job, j.command.instructions.digest);
  }

  lemma FlightTake(jobs: map<nat, Job>, job: nat, j: Job)
    requires job in jobs && jobs[job].command.InFlight() && !j.command.InFlight()
    ensures XorAll(InFlightDigests(jobs))
         == Xor(jobs[job].command.instructions.digest, XorAll(InFlightDigests(jobs[job := j])))
  {
    assert InFlightDigests(jobs[job := j]) == InFlightDigests(jobs) - {job};
    XorAllTake(InFlightDigests(jobs), job);
  }

  lemma FlightSame(jobs: map<nat, Job>, job: nat, j: Job)
    requires job !in jobs || !jobs[job].command.InFlight()
    requires !j.command.InFlight()
    ensures InFlightDigests(jobs[job := j]) == InFlightDigests(jobs)
  {
  }

  // ---------- one call of run, by what it does ----------

  /** The call opens the writer (and takes in a first chunk that cannot fill a window). */
  ghost predicate Opens(key: Key, s: System, job: nat, chunk: seq<Byte>, t: System) {
    && job in s.jobs && job in t.jobs && !s.jobs[job].command.started
    && var c := t.jobs[job].command;
    && c.writer.Some? && c.writer.value !in VersionsOf(s.home, true) && c.writer.value != UNVERSIONED
    && t.home == s.home.(partial := s.home.partial[c.writer.value := File(chunk, StoredCopies(key.copies))])
    && c == Fresh(key.name, c.instructions.version, key.copies).(started := true, writer := c.writer, pending := |chunk|)
    && t.jobs == s.jobs[job := Job(c, chunk, [])]
    && t.entry == s.entry
  }

  lemma UnstartedCall(key: Key, s: System, job: nat, chunk: seq<Byte>, env: Surroundings)
    requires key.name != "" && Consistent(s.home) && |chunk| <= WINDOW
    requires job in s.jobs && JobFine(key, s.jobs[job], s.home) && !s.jobs[job].command.started
    ensures var t := Step(key, s, Feed(job, chunk, env)); t == s || Opens(key, s, job, chunk, t)
  {
    var j := s.jobs[job];
    var c := j.command;
    FirstCall(key.hash, c, s.home, chunk, env);
    OpenedConsistent(s.home, c.instructions.version, key.copies, env.expired, env.me, env.now);
    var o := Opened(s.home, c.instructions.version, key.copies, env.expired, env.me, env.now);
    assert j.notices + [] == j.notices && j.fed + chunk == chunk;
    if o.None? {
      assert s.jobs[job := j] == s.jobs;
    } else {
      assert o.value.0 in o.value.1.partial;
    }
  }

  /** A call for one job leaves the others fine as long as it leaves their unfinished files alone. */
  lemma OthersFine(key: Key, s: System, job: nat, j: Job, home: Directory)
    requires JobsFine(key, s) && Consistent(home)
    requires forall v | v in s.home.partial && (job !in s.jobs || s.jobs[job].command.writer != Some(v)) ::
      v in home.partial && home.partial[v] == s.home.partial[v]
    requires job in s.jobs && s.jobs[job].command.InFlight() ==>
      forall i | i in s.jobs && i != job && s.jobs[i].command.InFlight() :: s.jobs[i].command.writer != s.jobs[job].command.writer
    requires !(job in s.jobs && s.jobs[job].command.finished)
    requires job in s.jobs && !s.jobs[job].command.started ==> s.jobs[job].command.writer == None
    requires JobFine(key, j, home)
    ensures JobsFine(key, System(home, s.jobs[job := j], s.entry))
  {
    forall i | i in s.jobs && i != job ensures JobFine(key, s.jobs[i], home) {
      assert JobFine(key, s.jobs[i], s.home);
    }
  }

  lemma WriterHasItsFile(key: Key, s: System, job: nat)
    requires JobsFine(key, s) && job in s.jobs && s.jobs[job].command.InFlight()
    ensures s.jobs[job].command.writer.Some? && s.jobs[job].command.writer.value in s.home.partial
  {
    assert JobFine(key, s.jobs[job], s.home);
  }

  lemma OpensApart(key: Key, s: System, job: nat, chunk: seq<Byte>, t: System)
    requires Invariant(key, s) && Opens(key, s, job, chunk, t)
    ensures WritersApart(t)
  {
    hide Agrees, Consistent, Progressing, Tiled;
    var v := t.jobs[job].command.writer.value;
    forall w | w in t.home.partial
      ensures exists i <- t.jobs :: t.jobs[i].command.InFlight() && t.jobs[i].command.writer == Some(w)
    {
      if w == v {
        assert t.jobs[job].command.InFlight();
      } else {
        var i :| i in s.jobs && s.jobs[i].command.InFlight() && s.jobs[i].command.writer == Some(w);
        assert t.jobs[i] == s.jobs[i];
      }
    }
    forall i | i in s.jobs && s.jobs[i].command.InFlight() ensures s.jobs[i].command.writer != Some(v) {
      WriterHasItsFile(key, s, i);
    }
  }

  lemma OpensAgrees(key: Key, s: System, job: nat, chunk: seq<Byte>, t: System)
    requires Agrees(key, s) && Opens(key, s, job, chunk, t)
    ensures Agrees(key, t)
  {
    FlightPut(s.jobs, job, t.jobs[job]);
    XorUnit(XorAll(InFlightDigests(s.jobs)));
  }

  lemma OpensFine(key: Key, s: System, job: nat, chunk: seq<Byte>, t: System)
    requires JobsFine(key, s) && Opens(key, s, job, chunk, t) && |chunk| <= WINDOW
    ensures JobsFine(key, t)
  {
    assert JobFine(key, s.jobs[job], s.home);
    OthersFine(key, s, job, t.jobs[job], t.home);
  }

  /** The chunk stays within the current window. */
  ghost predicate Adds(s: System, job: nat, chunk: seq<Byte>, t: System) {
    && job in s.jobs && s.jobs[job].command.InFlight() && s.jobs[job].command.writer.value in s.home.partial
    && var (j, c) := (s.jobs[job], s.jobs[job].command);
    && c.pending + |chunk| <= WINDOW && chunk != []
    && t.home == Appended(s.home, c.writer.value, chunk)
    && t.jobs == s.jobs[job := Job(c.(pending := c.pending + |chunk|), j.fed + chunk, j.notices)]
    && t.entry == s.entry
  }

  /** The chunk completes the window, which is flushed. */
  ghost predicate Flushes(key: Key, s: System, job: nat, chunk: seq<Byte>, t: System) {
    && job in s.jobs && s.jobs[job].command.InFlight() && s.jobs[job].command.writer.value in s.home.partial
    && job in t.jobs
    && var (j, c, i) := (s.jobs[job], s.jobs[job].command, t.jobs[job].command.instructions);
    && var delta := Xor(c.instructions.digest, i.digest);
    && c.pending + |chunk| > WINDOW
    && t.home == Appended(s.home, c.writer.value, chunk)
    && i.offset == c.instructions.offset + WINDOW && i.name == c.instructions.name && !i.isComplete
    && t.jobs == s.jobs[job := Job(
         c.(pending := c.pending + |chunk| - WINDOW, instructions := i), j.fed + chunk,
         j.notices + [Notice(c.instructions.offset, i.offset, false, delta)])]
    && t.entry == Updated(s.entry, key.keyHash, delta)
  }

  /** The empty chunk commits the version. */
  ghost predicate Closes(key: Key, s: System, job: nat, t: System) {
    && job in s.jobs && s.jobs[job].command.InFlight() && s.jobs[job].command.writer.value in s.home.partial
    && job in t.jobs
    && var (j, c, v) := (s.jobs[job], s.jobs[job].command, s.jobs[job].command.writer.value);
    && var delta := Xor(c.instructions.digest, CommitDigest(key.hash, s.home, v));
    && t.home == Committed(s.home, v)
    && t.jobs == s.jobs[job := Job(t.jobs[job].command, j.fed, j.notices + [Notice(c.instructions.offset, |j.fed|, true, delta)])]
    && t.jobs[job].command.finished && t.jobs[job].command.started && t.jobs[job].command.pending == 0
    && t.jobs[job].command.writer == c.writer
    && t.jobs[job].command.instructions.name == c.instructions.name
    && t.entry == Updated(s.entry, key.keyHash, delta)
  }

  lemma AddingCall(key: Key, s: System, job: nat, chunk: seq<Byte>, env: Surroundings)
    requires job in s.jobs && JobFine(key, s.jobs[job], s.home) && s.jobs[job].command.InFlight()
    requires chunk != [] && s.jobs[job].command.pending + |chunk| <= WINDOW
    ensures Adds(s, job, chunk, Step(key, s, Feed(job, chunk, env)))
  {
    assert s.jobs[job].notices + [] == s.jobs[job].notices;
  }

  lemma FlushingCall(key: Key, s: System, job: nat, chunk: seq<Byte>, env: Surroundings)
    requires job in s.jobs && JobFine(key, s.jobs[job], s.home) && s.jobs[job].command.InFlight()
    requires |chunk| <= WINDOW < s.jobs[job].command.pending + |chunk|
    ensures Flushes(key, s, job, chunk, Step(key, s, Feed(job, chunk, env)))
  {
    var c := s.jobs[job].command;
    OverflowingCall(key.hash, c, s.home, chunk);
    var o := Absorbed(key.hash, c, s.home, chunk);
    assert Ran(key.hash, c, s.home, chunk, env) == o;
    IndexedOnce(s.entry, key.keyHash, o.notices[0]);
  }

  lemma ClosingCall(key: Key, s: System, job: nat, env: Surroundings)
    requires job in s.jobs && JobFine(key, s.jobs[job], s.home) && s.jobs[job].command.InFlight()
    ensures Closes(key, s, job, Step(key, s, Feed(job, [], env)))
  {
    var j := s.jobs[job];
    var o := Finished(key.hash, j.command, s.home);
    assert Ran(key.hash, j.command, s.home, [], env) == o;
    assert j.fed + [] == j.fed;
    IndexedOnce(s.entry, key.keyHash, o.notices[0]);
  }

  lemma IndexedOnce(entry: Option<Digest>, keyHash: Digest, n: Notice)
    ensures Indexed(entry, keyHash, [n]) == Updated(entry, keyHash, n.delta)
  {
    assert [n][..0] == [];
  }

  // ---------- every kind of call keeps the invariant ----------

  lemma ApartStill(s: System, job: nat, t: System, j: Job)
    requires WritersApart(s) && t.jobs == s.jobs[job := j] && t.home.partial.Keys == s.home.partial.Keys
    requires job in s.jobs && s.jobs[job].command.InFlight() && j.command.InFlight()
    requires j.command.writer == s.jobs[job].command.writer
    ensures WritersApart(t)
  {
    forall w | w in t.home.partial
      ensures exists i <- t.jobs :: t.jobs[i].command.InFlight() && t.jobs[i].command.writer == Some(w)
    {
      var i :| i in s.jobs && s.jobs[i].command.InFlight() && s.jobs[i].command.writer == Some(w);
      assert i in t.jobs;
    }
  }

  lemma AddsFine(key: Key, s: System, job: nat, chunk: seq<Byte>, t: System)
    requires JobsFine(key, s) && WritersApart(s) && Adds(s, job, chunk, t)
    ensures JobsFine(key, t)
  {
    assert JobFine(key, s.jobs[job], s.home);
    assert Progressing(t.jobs[job], t.home);
    OthersFine(key, s, job, t.jobs[job], t.home);
  }

  lemma AddsAgrees(key: Key, s: System, job: nat, chunk: seq<Byte>, t: System)
    requires Agrees(key, s) && Adds(s, job, chunk, t)
    ensures Agrees(key, t)
  {
    assert InFlightDigests(t.jobs) == InFlightDigests(s.jobs);
  }

  lemma FlushesFine(key: Key, s: System, job: nat, chunk: seq<Byte>, t: System)
    requires JobsFine(key, s) && WritersApart(s) && Flushes(key, s, job, chunk, t) && |chunk| <= WINDOW
    ensures JobsFine(key, t)
  {
    var j := s.jobs[job];
    var n := t.jobs[job].notices;
    assert JobFine(key, j, s.home);
    assert forall i | 0 <= i < |j.notices| :: n[i] == j.notices[i];
    assert (|j.notices| + 1) * WINDOW == |j.notices| * WINDOW + WINDOW;
    assert Progressing(t.jobs[job], t.home);
    OthersFine(key, s, job, t.jobs[job], t.home);
  }

  lemma FlushesAgrees(key: Key, s: System, job: nat, chunk: seq<Byte>, t: System)
    requires Agrees(key, s) && Flushes(key, s, job, chunk, t)
    ensures Agrees(key, t)
  {
    var delta := t.jobs[job].notices[|s.jobs[job].notices|].delta;
    var done, flight := XorAll(DigestsOf(key.hash, s.home.done)), XorAll(InFlightDigests(s.jobs));
    FlightReplace(s.jobs, job, t.jobs[job]);
    XorSwap(delta, key.keyHash, Xor(done, flight));
    XorSwap(delta, done, flight);
  }

  lemma ClosesFine(key: Key, s: System, job: nat, t: System)
    requires JobsFine(key, s) && WritersApart(s) && Closes(key, s, job, t)
    ensures JobsFine(key, t)
  {
    var j, v := s.jobs[job], s.jobs[job].command.writer.value;
    assert JobFine(key, j, s.home);
    CommittedVersions(s.home, v);
    assert t.jobs[job].notices[..|j.notices|] == j.notices;
    assert (|j.notices| + 1) * WINDOW == |j.notices| * WINDOW + WINDOW;
    assert Tiled(t.jobs[job]);
    OthersFine(key, s, job, t.jobs[job], t.home);
  }

  lemma ClosesApart(key: Key, s: System, job: nat, t: System)
    requires JobsFine(key, s) && WritersApart(s) && Closes(key, s, job, t)
    ensures WritersApart(t)
  {
    CommittedVersions(s.home, s.jobs[job].command.writer.value);
    forall w | w in t.home.partial
      ensures exists i <- t.jobs :: t.jobs[i].command.InFlight() && t.jobs[i].command.writer == Some(w)
    {
      var i :| i in s.jobs && s.jobs[i].command.InFlight() && s.jobs[i].command.writer == Some(w);
      assert i in t.jobs && i != job;
    }
  }

  lemma ClosesAgrees(key: Key, s: System, job: nat, t: System)
    requires Consistent(s.home) && Agrees(key, s) && Closes(key, s, job, t)
    ensures Agrees(key, t)
  {
    var v := s.jobs[job].command.writer.value;
    var last, digest := s.jobs[job].command.instructions.digest, CommitDigest(key.hash, s.home, v);
    var before, after := XorAll(DigestsOf(key.hash, s.home.done)), XorAll(DigestsOf(key.hash, t.home.done));
    var flight, rest := XorAll(InFlightDigests(s.jobs)), XorAll(InFlightDigests(t.jobs));
    CommitDigestAgrees(key.hash, s.home, v);
    FlightTake(s.jobs, job, t.jobs[job]);
    calc {
      Xor(Xor(last, digest), Xor(key.keyHash, Xor(before, flight)));
      { XorSwap(Xor(last, digest), key.keyHash, Xor(before, flight)); }
      Xor(key.keyHash, Xor(Xor(last, digest), Xor(before, Xor(last, rest))));
      { XorCommutesThrough(last, digest, before, rest); }
      Xor(key.keyHash, Xor(Xor(digest, before), rest));
    }
    CommittedVersions(s.home, v);
    var m := SomeMaximalCovers(s.home.done.Keys + {v}, v);
    assert m in t.home.done;
  }

  lemma XorCommutesThrough(last: Digest, digest: Digest, before: Digest, rest: Digest)
    ensures Xor(Xor(last, digest), Xor(before, Xor(last, rest))) == Xor(Xor(digest, before), rest)
  {
    XorSwap(before, last, rest);
    XorAssociative(last, digest, Xor(last, Xor(before, rest)));
    XorSwap(digest, last, Xor(before, rest));
    XorCancels(last, Xor(digest, Xor(before, rest)));
    XorAssociative(digest, before, rest);
  }

  lemma UnstartedFeedKeeps(key: Key, s: System, job: nat, chunk: seq<Byte>, env: Surroundings)
    requires key.name != "" && Invariant(key, s) && |chunk| <= WINDOW
    requires job in s.jobs && !s.jobs[job].command.started
    ensures Invariant(key, Step(key, s, Feed(job, chunk, env)))
  {
    var t := Step(key, s, Feed(job, chunk, env));
    assert JobFine(key, s.jobs[job], s.home);
    UnstartedCall(key, s, job, chunk, env);
    if t != s {
      OpensFine(key, s, job, chunk, t);
      OpensApart(key, s, job, chunk, t);
      OpensAgrees(key, s, job, chunk, t);
    }
  }

  lemma ClosingFeedKeeps(key: Key, s: System, job: nat, env: Surroundings)
    requires Invariant(key, s) && job in s.jobs && s.jobs[job].command.InFlight()
    ensures Invariant(key, Step(key, s, Feed(job, [], env)))
  {
    var t := Step(key, s, Feed(job, [], env));
    assert JobFine(key, s.jobs[job], s.home);
    ClosingCall(key, s, job, env);
    ClosesFine(key, s, job, t);
    ClosesApart(key, s, job, t);
    ClosesAgrees(key, s, job, t);
  }

  lemma AddingFeedKeeps(key: Key, s: System, job: nat, chunk: seq<Byte>, env: Surroundings)
    requires Invariant(key, s) && job in s.jobs && s.jobs[job].command.InFlight()
    requires chunk != [] && s.jobs[job].command.pending + |chunk| <= WINDOW
    ensures Invariant(key, Step(key, s, Feed(job, chunk, env)))
  {
    var t := Step(key, s, Feed(job, chunk, env));
    assert JobFine(key, s.jobs[job], s.home);
    AddingCall(key, s, job, chunk, env);
    AddsFine(key, s, job, chunk, t);
    ApartStill(s, job, t, t.jobs[job]);
    AddsAgrees(key, s, job, chunk, t);
  }

  lemma FlushingFeedKeeps(key: Key, s: System, job: nat, chunk: seq<Byte>, env: Surroundings)
    requires Invariant(key, s) && job in s.jobs && s.jobs[job].command.InFlight()
    requires |chunk| <= WINDOW < s.jobs[job].command.pending + |chunk|
    ensures Invariant(key, Step(key, s, Feed(job, chunk, env)))
  {
    var t := Step(key, s, Feed(job, chunk, env));
    assert JobFine(key, s.jobs[job], s.home);
    FlushingCall(key, s, job, chunk, env);
    FlushesFine(key, s, job, chunk, t);
    ApartStill(s, job, t, t.jobs[job]);
    FlushesAgrees(key, s, job, chunk, t);
  }

  lemma FeedKeeps(key: Key, s: System, job: nat, chunk: seq<Byte>, env: Surroundings)
    requires key.name != "" && Invariant(key, s) && |chunk| <= WINDOW
    ensures Invariant(key, Step(key, s, Feed(job, chunk, env)))
  {
    if job in s.jobs {
      var c := s.jobs[job].command;
      assert JobFine(key, s.jobs[job], s.home);
      if !c.started {
        UnstartedFeedKeeps(key, s, job, chunk, env);
      } else if c.finished {
        FinishedCall(key, s, job, chunk, env);
      } else if chunk == [] {
        ClosingFeedKeeps(key, s, job, env);
      } else if c.pending + |chunk| <= WINDOW {
        AddingFeedKeeps(key, s, job, chunk, env);
      } else {
        FlushingFeedKeeps(key, s, job, chunk, env);
      }
    }
  }

  lemma FinishedCall(key: Key, s: System, job: nat, chunk: seq<Byte>, env: Surroundings)
    requires job in s.jobs && s.jobs[job].command.finished
    ensures Step(key, s, Feed(job, chunk, env)) == s
  {
    assert s.jobs[job].notices + [] == s.jobs[job].notices;
    assert s.jobs[job := s.jobs[job]] == s.jobs;
  }

  lemma BeginKeeps(key: Key, s: System, job: nat, version: Clock)
    requires Invariant(key, s)
    ensures Invariant(key, Step(key, s, Begin(job, version)))
  {
    if job !in s.jobs {
      var j, t := Job(Fresh(key.name, version, key.copies), [], []), Step(key, s, Begin(job, version));
      OthersFine(key, s, job, j, s.home);
      FlightSame(s.jobs, job, j);
      BeginApart(key, s, job, j);
    }
  }

  lemma BeginApart(key: Key, s: System, job: nat, j: Job)
    requires WritersApart(s) && job !in s.jobs && !j.command.InFlight()
    ensures WritersApart(s.(jobs := s.jobs[job := j]))
  {
    var t := s.(jobs := s.jobs[job := j]);
    forall w | w in t.home.partial
      ensures exists i <- t.jobs :: t.jobs[i].command.InFlight() && t.jobs[i].command.writer == Some(w)
    {
      var i :| i in s.jobs && s.jobs[i].command.InFlight() && s.jobs[i].command.writer == Some(w);
      assert i in t.jobs;
    }
  }

  lemma InitialAgrees(key: Key, s: System)
    requires Initial(key, s)
    ensures Invariant(key, s)
  {
    var done := XorAll(DigestsOf(key.hash, s.home.done));
    assert DigestsOf(key.hashPartial, s.home.partial) == map[];
    assert InFlightDigests(s.jobs) == map[];
    XorUnit(done);
    XorUnit(key.keyHash);
    XorCommutative(done, key.keyHash);
    if s.home.done == map[] {
      assert DigestsOf(key.hash, s.home.done) == map[];
    }
  }

  lemma {:induction false} RunKeeps(key: Key, s: System, actions: seq<Action>)
    requires Initial(key, s) && Legal(actions)
    ensures Invariant(key, Run(key, s, actions))
  {
    if actions == [] {
      InitialAgrees(key, s);
    } else {
      var n := |actions| - 1;
      assert Legal(actions[..n]) by {
        assert forall i | 0 <= i < n :: actions[..n][i] == actions[i];
      }
      RunKeeps(key, s, actions[..n]);
      match actions[n] {
        case Begin(job, version) => BeginKeeps(key, Run(key, s, actions[..n]), job, version);
        case Feed(job, chunk, env) => FeedKeeps(key, Run(key, s, actions[..n]), job, chunk, env);
      }
    }
  }

  // ---------- the main results ----------

  /** The states a node can be in: some run from a start reaches them. */
  ghost predicate Reachable(key: Key, t: System) {
    exists s, actions :: Initial(key, s) && Legal(actions) && t == Run(key, s, actions)
  }

  lemma ReachableKeeps(key: Key, t: System)
    requires Reachable(key, t)
    ensures Invariant(key, t)
  {
    var s, actions :| Initial(key, s) && Legal(actions) && t == Run(key, s, actions);
    RunKeeps(key, s, actions);
  }

  /** In every state of every run the key's entry is its hash, xor the digests of all committed versions, xor
      the last digest each write in flight has flushed, although commits purge other versions. */
  lemma EntryAgreesWithStore(key: Key, t: System)
    requires Reachable(key, t)
    ensures t.entry.Some? ==> t.entry.value == Expected(key, t)
    ensures t.entry.None? ==> t.home.done == map[]
  {
    ReachableKeeps(key, t);
  }

  /** With nothing in flight, a restart rebuilds exactly the entry the node already has. */
  lemma RestartRebuildsEntry(key: Key, t: System)
    requires Reachable(key, t)
    requires forall j <- t.jobs :: !t.jobs[j].command.InFlight()
    ensures Rebuilt(key, t.home) == t.entry
  {
    ReachableKeeps(key, t);
    assert t.home.partial == map[];
    assert DigestsOf(key.hashPartial, t.home.partial) == map[];
    assert InFlightDigests(t.jobs) == map[];
    XorUnit(XorAll(DigestsOf(key.hash, t.home.done)));
    XorCommutative(XorAll(DigestsOf(key.hash, t.home.done)), key.keyHash);
  }

  /** However the writes interleave, an unfinished file holds exactly the bytes fed to its own write, the
      counter never passes 0x10000, and the callback windows of a finished write tile its file in order:
      full windows, then one complete window up to the end. */
  lemma ChunksTileTheFile(key: Key, t: System, job: nat)
    requires Reachable(key, t) && job in t.jobs
    ensures t.jobs[job].command.pending <= WINDOW
    ensures t.jobs[job].command.InFlight() ==> Progressing(t.jobs[job], t.home)
    ensures t.jobs[job].command.finished ==> Tiled(t.jobs[job])
  {
    ReachableKeeps(key, t);
    assert JobFine(key, t.jobs[job], t.home);
  }

  /** In every such state a write can begin, with its first chunk, exactly if the store lets it. */
  lemma AWriteBegins(key: Key, t: System, job: nat, version: Clock, chunk: seq<Byte>, env: Surroundings)
    requires Reachable(key, t) && job !in t.jobs && |chunk| <= WINDOW
    ensures var u := Step(key, Step(key, t, Begin(job, version)), Feed(job, chunk, env));
      && job in u.jobs && u.home.done == t.home.done && u.entry == t.entry
      && var refused := version != UNVERSIONED && (env.expired || version in t.home.done || version in t.home.partial);
      && (refused ==> !u.jobs[job].command.started && u.home == t.home)
      && (!refused ==>
            && u.jobs[job].command.InFlight() && u.jobs[job].fed == chunk
            && var v := u.jobs[job].command.writer.value;
            && (version != UNVERSIONED ==> v == version) && v !in t.home.partial
            && u.home.partial == t.home.partial[v := File(chunk, key.copies % 256)])
  {
    ReachableKeeps(key, t);
    assert Consistent(t.home) && key.name != "";
    var b := Step(key, t, Begin(job, version));
    assert b.jobs[job := b.jobs[job]] == b.jobs && [] + chunk == chunk;
    hide Invariant, Reachable, Ran, Consistent;
    FirstCallIs(key, t.home, version, chunk, env);
  }

  lemma FirstCallIs(key: Key, d: Directory, version: Clock, chunk: seq<Byte>, env: Surroundings)
    requires key.name != "" && Consistent(d) && |chunk| <= WINDOW
    ensures var c := Fresh(key.name, version, key.copies);
      var o := Ran(key.hash, c, d, chunk, env);
      if version != UNVERSIONED && (env.expired || version in d.done || version in d.partial)
      then o == Outcome(c, d, [], false)
      else
        && o.notices == [] && o.ok && o.command.InFlight()
        && var v := o.command.writer.value;
        && (version != UNVERSIONED ==> v == version) && v !in d.partial && v !in d.done
        && o.home == Directory(d.done, d.partial[v := File(chunk, key.copies % 256)])
  {
    FirstCall(key.hash, Fresh(key.name, version, key.copies), d, chunk, env);
    OpenedConsistent(d, version, key.copies, env.expired, env.me, env.now);
    hide Ran, Consistent, Increment, Merged;
  }

  /** And takes in every further chunk. */
  lemma AChunkIsTaken(key: Key, t: System, job: nat, chunk: seq<Byte>, env: Surroundings)
    requires Reachable(key, t) && job in t.jobs && t.jobs[job].command.InFlight() && 0 < |chunk| <= WINDOW
    ensures var (v, u) := (t.jobs[job].command.writer.value, Step(key, t, Feed(job, chunk, env)));
      && job in u.jobs && u.jobs[job].command.InFlight() && u.jobs[job].command.writer == Some(v)
      && u.jobs[job].fed == t.jobs[job].fed + chunk
      && v in u.home.partial && u.home.partial[v].data == t.jobs[job].fed + chunk
  {
    ReachableKeeps(key, t);
    assert JobFine(key, t.jobs[job], t.home);
    hide Step;
    if t.jobs[job].command.pending + |chunk| <= WINDOW {
      AddingCall(key, t, job, chunk, env);
    } else {
      FlushingCall(key, t, job, chunk, env);
    }
  }

  /** Committing leaves the maximal versions, and the new one has as contents exactly the bytes fed. */
  lemma CommitPublishesTheBytesFed(key: Key, t: System, job: nat, env: Surroundings)
    requires Reachable(key, t) && job in t.jobs && t.jobs[job].command.InFlight()
    ensures var (v, u) := (t.jobs[job].command.writer.value, Step(key, t, Feed(job, [], env)));
      && u.jobs[job].command.finished && v !in u.home.partial
      && u.home.done.Keys == Maximal(t.home.done.Keys + {v})
      && (v in u.home.done ==> u.home.done[v].data == t.jobs[job].fed)
  {
    ReachableKeeps(key, t);
    assert JobFine(key, t.jobs[job], t.home);
    ClosingCall(key, t, job, env);
    CommittedVersions(t.home, t.jobs[job].command.writer.value);
  }
}
