/** Runs of a cluster in which a write loses its file to a drop. */
module LostFileRuns {
  import opened Bytes
  import opened VectorClocks
  import opened FileStores
  import opened WriteCommands
  import opened Calls
  import opened MirrorChains
  import opened Clusters
  import opened ClusterInvariants
  import opened ReplicationSafety
  import opened LostWrites
  import opened SmallWrites
  import opened ClusterRuns

  /** A client's write at "x" and its copies, and another write there, which has begun. */
  function WriteAndWriteAgain(): seq<Step> {
    WriteAndCopies(FIRST, ONE) + [Upload(4, "x", SECOND, 2, OTHER)] + [Begin(4, 4)] + [Feed(4, 1, true, 5, "x", 5)]
  }

  const AGAIN: Stream := FromClient(SECOND, OTHER)

  ghost predicate SecondBegun(g: Setting, s: Cluster) {
    && s.homes == map["x" := Directory(map[FIRST := File(ONE, 2)], map[SECOND := File(OTHER, 2)]),
                      "a" := HomeWith(FIRST, ONE), "b" := HomeWith(FIRST, ONE)]
    && s.written == map[FIRST := ONE, SECOND := OTHER] && AckWrite("a", "x", FIRST, 1) in s.messages
    && s.streams.Keys == {0, 1, 2, 4} && s.streams[4] == AGAIN
    && s.jobs.Keys == {0, 1, 2, 4} && s.jobs[4] == Opened1(g, AGAIN, SECOND, 4, 1)
  }

  lemma AgainStarts(hash: Hasher, s: Cluster)
    requires AtThree(s)
    ensures var t := Uploaded(s, 4, "x", SECOND, 2, OTHER);
      && t == s.(streams := s.streams[4 := AGAIN])
      && Starts(Nodes(hash), t, 4, 4, SECOND, 1, AtX(5)) && MayWrite(t, 4, SECOND)
  {
    NamesDiffer();
    var t := Uploaded(s, 4, "x", SECOND, 2, OTHER);
    assert t == s.(streams := s.streams[4 := AGAIN]) && Home(t, "x") == HomeWith(FIRST, ONE);
    assert VersionsOf(Home(t, "x"), true) == {FIRST} && Consistent(Home(t, "x"));
    NothingWrites(t, "x", SECOND);
    hide WritesAt, Consistent, VersionsOf;
  }

  lemma AgainAtHome(homes: map<string, Directory>)
    requires homes == map["x" := HomeWith(FIRST, ONE), "a" := HomeWith(FIRST, ONE), "b" := HomeWith(FIRST, ONE)]
    ensures homes["x" := WithFile(HomeWith(FIRST, ONE), SECOND, OTHER, 2)]
         == map["x" := Directory(map[FIRST := File(ONE, 2)], map[SECOND := File(OTHER, 2)]),
                "a" := HomeWith(FIRST, ONE), "b" := HomeWith(FIRST, ONE)]
  {
    assert WithFile(HomeWith(FIRST, ONE), SECOND, OTHER, 2) == Directory(map[FIRST := File(ONE, 2)], map[SECOND := File(OTHER, 2)]);
    hide HomeWith, WithFile;
  }

  lemma AgainBegun(hash: Hasher, s: Cluster, t: Cluster)
    requires AtThree(s) && StartedSo(Nodes(hash), s.(streams := s.streams[4 := AGAIN]), t, 4, 4, SECOND, 1)
    ensures SecondBegun(Nodes(hash), t)
  {
    NamesDiffer();
    AgainAtHome(s.homes);
    assert AGAIN.sent[..1] == OTHER && Home(s, "x") == HomeWith(FIRST, ONE);
    var u := s.(streams := s.streams[4 := AGAIN]);
    assert Recorded(u, AGAIN, SECOND).written == map[FIRST := ONE, SECOND := OTHER];
    hide WithFile, Opened1, Nodes, Recorded, HomeWith;
  }

  lemma AgainBegins(hash: Hasher, s: Cluster)
    requires AtThree(s)
    ensures SecondBegun(Nodes(hash), Begun2(Nodes(hash), Uploaded(s, 4, "x", SECOND, 2, OTHER), 4, 4, 1, AtX(5)))
  {
    hide Starts, MayWrite, Uploaded, Begun2, StartedSo, SecondBegun, Nodes, AtThree;
    AgainStarts(hash, s);
    WriteStarts(Nodes(hash), Uploaded(s, 4, "x", SECOND, 2, OTHER), 4, 4, SECOND, 1, AtX(5));
    AgainBegun(hash, s, Begun2(Nodes(hash), Uploaded(s, 4, "x", SECOND, 2, OTHER), 4, 4, 1, AtX(5)));
  }

  lemma AfterSecondBegun(hash: Hasher)
    ensures Sane(Nodes(hash)) && AlwaysAgreed(Nodes(hash), WriteAndWriteAgain())
    ensures SecondBegun(Nodes(hash), After(Nodes(hash), WriteAndWriteAgain()))
  {
    var g, steps, upload := Nodes(hash), WriteAndCopies(FIRST, ONE), Upload(4, "x", SECOND, 2, OTHER);
    var how := AtX(5);
    hide Nodes, Sane, AlwaysAgreed, After, AtThree, WriteAndCopies, Uploaded, Begun2, Starts, MayWrite, SecondBegun;
    AfterAllCopies(hash, FIRST);
    AgainStarts(hash, After(g, steps));
    AgainBegins(hash, After(g, steps));
    TakesUpload(g, steps, 4, "x", SECOND, 2, OTHER);
    QuietAgrees(g, steps, upload);
    StartRunAgrees(g, steps + [upload], 4, 4, SECOND, 1, how);
  }

  lemma SecondIsInFlight(hash: Hasher, s: Cluster)
    requires SecondBegun(Nodes(hash), s)
    ensures Drops(Nodes(hash), s, AckWrite("a", "x", FIRST, 1))
    ensures CanFeed(s, 4, 0) && NodeOf(s, 4) == "x" && HasItsFile(s.jobs[4].command, Home(s, "x"))
  {
    NamesDiffer();
    var d := Home(s, "x");
    assert d.done.Keys == {FIRST} && d.partial.Keys == {SECOND} && Consistent(d);
    hide Drops;
    DropIsDue(hash, s, AckWrite("a", "x", FIRST, 1), ONE);
  }

  /** Such a run: the acknowledgement is there, the drop it leads to is due, and a write is in flight at the node. */
  lemma ADropWithAWriteInFlight(hash: Hasher)
    ensures Sane(Nodes(hash)) && AlwaysAgreed(Nodes(hash), WriteAndWriteAgain())
    ensures var (g, s, m) := (Nodes(hash), After(Nodes(hash), WriteAndWriteAgain()), AckWrite("a", "x", FIRST, 1));
      && m in s.messages && Drops(g, s, m) && 6 !in s.streams
      && CanFeed(s, 4, 0) && NodeOf(s, 4) == "x" && HasItsFile(s.jobs[4].command, Home(s, "x"))
  {
    AfterSecondBegun(hash);
    hide Nodes, Sane, AlwaysAgreed, After, WriteAndWriteAgain, Drops, HasItsFile;
    SecondIsInFlight(hash, After(Nodes(hash), WriteAndWriteAgain()));
  }

  /** How it goes on: the write comes to its end, nothing is left of it at its node, and nobody hears of it. */
  lemma AWriteIsLost(hash: Hasher)
    ensures Sane(Nodes(hash))
    ensures var (g, m) := (Nodes(hash), AckWrite("a", "x", FIRST, 1));
      var s := After(g, WriteAndWriteAgain());
      var t := After(g, WriteAndWriteAgain() + [TakeMessage(m, 0)] + [Feed(4, 0, true, 6, "x", 5)]);
      && Home(t, "x") == EMPTY && 4 in t.jobs && t.jobs[4].command.finished
      && t.streams == s.streams && t.messages == s.messages && t.committed == s.committed
  {
    var (g, m, steps) := (Nodes(hash), AckWrite("a", "x", FIRST, 1), WriteAndWriteAgain());
    ADropWithAWriteInFlight(hash);
    var s := After(g, steps);
    assert s.jobs[4].command.InFlight();
    OneMoreStep(g, steps + [TakeMessage(m, 0)], Feed(4, 0, true, 6, "x", 5));
    hide Fed, After, Drops, Nodes, WriteAndWriteAgain, HasItsFile, Sane, AlwaysAgreed;
    TakesAck(g, steps, m);
    DropDefeatsWritesInFlight(g, steps, m, 4, 0, true, 6, "x", 5);
  }

  // ---- the file is created again ----

  /** After the drop, another command comes for the same write and has taken in its header when the first one ends. Then
      its connection breaks. */
  function FileAgain(): seq<Step> {
    WriteAndWriteAgain() + [TakeMessage(AckWrite("a", "x", FIRST, 1), 0)] + [Upload(5, "x", SECOND, 2, OTHER)]
    + [Begin(5, 5)] + [Feed(5, 0, false, 6, "x", 5)] + [Feed(4, 0, false, 6, "x", 5)] + [Dismiss(5)]
  }

  const UNLINKED: How := How(false, 6, "x", 5)

  ghost predicate SecondLost(g: Setting, s: Cluster) {
    && s.homes == map["a" := HomeWith(FIRST, ONE), "b" := HomeWith(FIRST, ONE)]
    && s.written == map[FIRST := ONE, SECOND := OTHER]
    && s.streams.Keys == {0, 1, 2, 4} && s.streams[4] == AGAIN
    && s.jobs.Keys == {0, 1, 2, 4} && s.jobs[4] == Opened1(g, AGAIN, SECOND, 4, 1)
  }

  lemma DropLosesSecond(hash: Hasher, s: Cluster)
    requires SecondBegun(Nodes(hash), s)
    ensures SecondLost(Nodes(hash), AckTaken(Nodes(hash), s, AckWrite("a", "x", FIRST, 1)))
  {
    SecondIsInFlight(hash, s);
    NamesDiffer();
    hide Drops, Opened1;
  }

  /** Both commands write to the same name. */
  ghost predicate TwoCommands(g: Setting, s: Cluster) {
    && s.homes == map["a" := HomeWith(FIRST, ONE), "b" := HomeWith(FIRST, ONE), "x" := Directory(map[], map[SECOND := File([], 2)])]
    && s.streams.Keys == {0, 1, 2, 4, 5} && s.streams[4] == AGAIN
    && s.jobs.Keys == {0, 1, 2, 4, 5} && s.jobs[4] == Opened1(g, AGAIN, SECOND, 4, 1)
  }

  lemma FileAgainStarts(hash: Hasher, s: Cluster)
    requires SecondLost(Nodes(hash), s)
    ensures var t := Uploaded(s, 5, "x", SECOND, 2, OTHER);
      && t == s.(streams := s.streams[5 := AGAIN]) && Starts(Nodes(hash), t, 5, 5, SECOND, 0, UNLINKED)
  {
    NamesDiffer();
    var t := Uploaded(s, 5, "x", SECOND, 2, OTHER);
    assert t == s.(streams := s.streams[5 := AGAIN]) && Home(t, "x") == EMPTY && Consistent(EMPTY);
    assert VersionsOf(EMPTY, true) == {};
    hide Consistent, VersionsOf, Opened1;
  }

  lemma FileIsThereAgain(hash: Hasher, s: Cluster, t: Cluster)
    requires SecondLost(Nodes(hash), s) && StartedSo(Nodes(hash), s.(streams := s.streams[5 := AGAIN]), t, 5, 5, SECOND, 0)
    ensures TwoCommands(Nodes(hash), t)
  {
    NamesDiffer();
    assert WithFile(EMPTY, SECOND, [], 2) == Directory(map[], map[SECOND := File([], 2)]) && AGAIN.sent[..0] == [];
    hide WithFile, Opened1, Nodes;
  }

  lemma SecondAgain(hash: Hasher, s: Cluster)
    requires SecondLost(Nodes(hash), s)
    ensures TwoCommands(Nodes(hash), Begun2(Nodes(hash), Uploaded(s, 5, "x", SECOND, 2, OTHER), 5, 5, 0, UNLINKED))
  {
    hide Starts, Uploaded, Begun2, StartedSo, TwoCommands, SecondLost, Nodes;
    FileAgainStarts(hash, s);
    WriteStarts(Nodes(hash), Uploaded(s, 5, "x", SECOND, 2, OTHER), 5, 5, SECOND, 0, UNLINKED);
    FileIsThereAgain(hash, s, Begun2(Nodes(hash), Uploaded(s, 5, "x", SECOND, 2, OTHER), 5, 5, 0, UNLINKED));
  }

  /** The client of the first command was told that its write is committed. */
  ghost predicate CommittedEmpty(s: Cluster) {
    && s.homes == map["a" := HomeWith(FIRST, ONE), "b" := HomeWith(FIRST, ONE), "x" := HomeWith(SECOND, [])]
    && Write(SECOND, OTHER) in s.committed && 5 in s.jobs
  }

  lemma FirstCommandMayEnd(hash: Hasher, s: Cluster)
    requires TwoCommands(Nodes(hash), s)
    ensures Ends(s, 4, []) && 6 !in s.streams && Given(s.jobs[4], AGAIN) == OTHER && s.jobs[4].command.writer == Some(SECOND)
  {
    NamesDiffer();
  }

  lemma FirstCommandEnded(hash: Hasher, s: Cluster, t: Cluster)
    requires TwoCommands(Nodes(hash), s) && Given(s.jobs[4], AGAIN) == OTHER
    requires EndedSo(Nodes(hash), s, t, 4, AGAIN, SECOND, [], UNLINKED)
    ensures CommittedEmpty(t)
  {
    hide Hop, Acks, From, Given, Opened1, Nodes;
  }

  lemma FirstCommandEnds(hash: Hasher, s: Cluster)
    requires TwoCommands(Nodes(hash), s)
    ensures CommittedEmpty(FedSo(Nodes(hash), s, 4, 0, UNLINKED))
  {
    FirstCommandMayEnd(hash, s);
    assert s.jobs[4].inlet == 4 && s.streams[4] == AGAIN;
    hide FedSo, Ends, EndedSo, Given, Opened1, Nodes, CommittedEmpty, TwoCommands;
    LastFeed(Nodes(hash), s, 4, [], UNLINKED);
    FirstCommandEnded(hash, s, FedSo(Nodes(hash), s, 4, 0, UNLINKED));
  }

  /** All commands have ended. */
  ghost predicate LostForGood(s: Cluster) {
    && Write(SECOND, OTHER) in s.committed && 5 in s.jobs && s.jobs[5].command.finished
    && s.homes == map["a" := HomeWith(FIRST, ONE), "b" := HomeWith(FIRST, ONE), "x" := HomeWith(SECOND, [])]
  }

  lemma SecondCommandEnds(s: Cluster)
    requires CommittedEmpty(s)
    ensures LostForGood(Dismissed(s, 5))
  {
  }

  lemma UpToTwoCommands(hash: Hasher, a: seq<Step>)
    requires Sane(Nodes(hash)) && SecondBegun(Nodes(hash), After(Nodes(hash), a))
    ensures TwoCommands(Nodes(hash), After(Nodes(hash),
      a + [TakeMessage(AckWrite("a", "x", FIRST, 1), 0)] + [Upload(5, "x", SECOND, 2, OTHER)]
      + [Begin(5, 5)] + [Feed(5, 0, false, 6, "x", 5)]))
  {
    var g, m, how := Nodes(hash), AckWrite("a", "x", FIRST, 1), UNLINKED;
    var b := a + [TakeMessage(m, 0)];
    assert m in After(g, a).messages;
    hide Nodes, Sane, After, SecondBegun, SecondLost, TwoCommands, Uploaded, Begun2, AckTaken;
    TakesAck(g, a, m);
    DropLosesSecond(hash, After(g, a));
    TakesUpload(g, b, 5, "x", SECOND, 2, OTHER);
    SecondAgain(hash, After(g, b));
    RunHalf(g, b + [Upload(5, "x", SECOND, 2, OTHER)], 5, 5, 0, how);
  }

  lemma UpToTheEnd(hash: Hasher, d: seq<Step>)
    requires Sane(Nodes(hash)) && TwoCommands(Nodes(hash), After(Nodes(hash), d))
    ensures LostForGood(After(Nodes(hash), d + [Feed(4, 0, false, 6, "x", 5)] + [Dismiss(5)]))
  {
    var g, how, e := Nodes(hash), UNLINKED, d + [Feed(4, 0, false, 6, "x", 5)];
    OneMoreStep(g, d, Feed(4, 0, false, 6, "x", 5));
    OneMoreStep(g, e, Dismiss(5));
    hide Nodes, Sane, After, TwoCommands, CommittedEmpty, LostForGood, Dismissed, Fed;
    FirstCommandEnds(hash, After(g, d));
    SecondCommandEnds(After(g, e));
  }

  lemma AfterFileAgain(hash: Hasher)
    ensures Sane(Nodes(hash)) && LostForGood(After(Nodes(hash), FileAgain()))
  {
    hide Nodes, Sane, AlwaysAgreed, After, WriteAndWriteAgain, SecondBegun, TwoCommands, LostForGood;
    AfterSecondBegun(hash);
    UpToTwoCommands(hash, WriteAndWriteAgain());
    UpToTheEnd(hash, WriteAndWriteAgain() + [TakeMessage(AckWrite("a", "x", FIRST, 1), 0)] + [Upload(5, "x", SECOND, 2, OTHER)]
      + [Begin(5, 5)] + [Feed(5, 0, false, 6, "x", 5)]);
  }

  /** Up to the step that creates the file again, versions can be relied upon; that step is the one. */
  lemma AFileIsCreatedAgain(hash: Hasher)
    ensures var before := WriteAndWriteAgain() + [TakeMessage(AckWrite("a", "x", FIRST, 1), 0)]
        + [Upload(5, "x", SECOND, 2, OTHER)] + [Begin(5, 5)];
      && Sane(Nodes(hash)) && AlwaysAgreed(Nodes(hash), before) && Lost(After(Nodes(hash), before), 4)
      && Recreates(Nodes(hash), After(Nodes(hash), before), Feed(5, 0, false, 6, "x", 5), 4)
      && FileAgain() == before + [Feed(5, 0, false, 6, "x", 5)] + [Feed(4, 0, false, 6, "x", 5)] + [Dismiss(5)]
  {
    var g, m, a := Nodes(hash), AckWrite("a", "x", FIRST, 1), WriteAndWriteAgain();
    AfterSecondBegun(hash);
    assert m in After(g, a).messages;
    var (b, c, d) := (TakeMessage(m, 0), Upload(5, "x", SECOND, 2, OTHER), Begin(5, 5));
    OneMoreStep(g, a + [b] + [c], d);
    hide Nodes, Sane, After, SecondBegun, SecondLost, Lost, Recreates, Uploaded, Begun, AckTaken, AlwaysAgreed,
      WriteAndWriteAgain;
    TakesAck(g, a, m);
    QuietAgrees(g, a, b);
    DropLosesSecond(hash, After(g, a));
    TakesUpload(g, a + [b], 5, "x", SECOND, 2, OTHER);
    QuietAgrees(g, a + [b], c);
    QuietAgrees(g, a + [b] + [c], d);
    CreatedAgain(hash, After(g, a + [b]));
  }

  lemma CreatedAgain(hash: Hasher, s: Cluster)
    requires SecondLost(Nodes(hash), s)
    ensures var t := Begun(Nodes(hash), Uploaded(s, 5, "x", SECOND, 2, OTHER), 5, 5);
      Lost(t, 4) && Recreates(Nodes(hash), t, Feed(5, 0, false, 6, "x", 5), 4)
  {
    FileAgainStarts(hash, s);
    var g, u := Nodes(hash), Uploaded(s, 5, "x", SECOND, 2, OTHER);
    FirstOutcome(g, u, 5, 5, SECOND, 0, UNLINKED);
    StartsIs(g, u, 5, 5, SECOND, 0, UNLINKED);
    assert Home(Begun(g, u, 5, 5), "x") == EMPTY;
    hide Called, Starts, CanFeed, WithFile, Uploaded, Begun, Nodes;
  }

  /** Such a run: a client was told that its write is committed, all commands have ended, and no node has a byte of
      it, nor anything newer. */
  lemma AFileCreatedAgainLosesAWrite(hash: Hasher)
    ensures Sane(Nodes(hash))
    ensures var s := After(Nodes(hash), FileAgain());
      && Write(SECOND, OTHER) in s.committed && OTHER != []
      && forall n, z :: z in Home(s, n).done && AtMost(SECOND, z) ==> z == SECOND && Home(s, n).done[z].data == []
    ensures !AlwaysAgreed(Nodes(hash), FileAgain())
  {
    AfterFileAgain(hash);
    var g, steps := Nodes(hash), FileAgain();
    NothingOfSecond(After(g, steps));
    hide After, AlwaysAgreed, FileAgain, Sane, Nodes, AtMost;
    if AlwaysAgreed(g, steps) {
      NoCommittedWriteIsLost(g, steps, Write(SECOND, OTHER));
    }
  }

  lemma NothingOfSecond(s: Cluster)
    requires LostForGood(s)
    ensures forall n, z :: z in Home(s, n).done && AtMost(SECOND, z) ==> z == SECOND && Home(s, n).done[z].data == []
  {
    assert SECOND["x"].time == 6 && FIRST["x"].time == 5;
  }
}
