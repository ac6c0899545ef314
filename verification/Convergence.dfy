/** Replicas that complete the same writes, in any order, any number of times, and interleaved in any way, end up
    alike: in what they hold and in what their digest indexes say. */
module Convergence {
  import opened Bytes
  import opened VectorClocks
  import opened XorFold
  import opened FileStores
  import opened WriteCommands
  import opened DigestAgreement

  /** One completed write of version `v`: the store refuses a version it has, and otherwise receives the
      file and commits it. */
  ghost function Received(d: Directory, v: Clock, file: File): Directory {
    if v in VersionsOf(d, true) then d
    else Committed(d.(partial := d.partial[v := file]), v)
  }

  /** Completing the writes `vs` in order, each version with its own contents. */
  ghost function Replayed(vs: seq<Clock>, contents: map<Clock, File>): Directory
    requires Elements(vs) <= contents.Keys
  {
    if vs == [] then EMPTY
    else
      var n := |vs| - 1;
      assert vs[n] in Elements(vs) && Elements(vs[..n]) <= Elements(vs);
      Received(Replayed(vs[..n], contents), vs[n], contents[vs[n]])
  }

  /** Superseded versions never come back: what is maximal among the survivors and one more version is
      what is maximal among all versions ever written. */
  lemma MaximalOfMaximal(all: set<Clock>, v: Clock)
    ensures Maximal(Maximal(all) + {v}) == Maximal(all + {v})
  {
    forall w | w in Maximal(Maximal(all) + {v}) ensures w in Maximal(all + {v}) {
      forall u | u in all + {v} && AtMost(w, u) ensures w == u {
        if u in all {
          var m := SomeMaximalCovers(all, u);
          AtMostTransitive(w, u, m);
          assert m in Maximal(all) + {v};
          AtMostAntisymmetric(w, u);
        }
      }
    }
    forall w | w in Maximal(all + {v}) ensures w in Maximal(Maximal(all) + {v}) {
      assert forall u | u in Maximal(all) + {v} :: u in all + {v};
      if w != v {
        assert forall u | u in all :: u in all + {v};
        assert w in Maximal(all);
      }
    }
  }

  /** The directory holds the maximal versions of `all`, with the contents they were written with. */
  ghost predicate HoldsMaximal(d: Directory, all: set<Clock>, contents: map<Clock, File>) {
    && Consistent(d) && d.partial == map[] && d.done.Keys == Maximal(all)
    && forall w <- d.done :: w in contents && d.done[w] == contents[w]
  }

  lemma ReceivedHolds(d: Directory, v: Clock, all: set<Clock>, contents: map<Clock, File>)
    requires HoldsMaximal(d, all, contents) && v != UNVERSIONED && v in contents
    ensures HoldsMaximal(Received(d, v, contents[v]), all + {v}, contents)
  {
    MaximalOfMaximal(all, v);
    if v in d.done {
      assert Maximal(all) + {v} == Maximal(all);
      assert Maximal(Maximal(all)) == Maximal(all);
    } else {
      var written := d.(partial := d.partial[v := contents[v]]);
      assert Consistent(written);
      CommittedVersions(written, v);
    }
  }

  /** After any sequence of completed writes the store holds exactly the maximal versions among all those
      written, each with the contents it was written with. */
  lemma {:induction false} StoreHoldsMaximalVersions(vs: seq<Clock>, contents: map<Clock, File>)
    requires Elements(vs) <= contents.Keys && UNVERSIONED !in Elements(vs)
    ensures HoldsMaximal(Replayed(vs, contents), Elements(vs), contents)
  {
    if vs == [] {
      assert Elements(vs) == {};
    } else {
      var n := |vs| - 1;
      assert Elements(vs) == Elements(vs[..n]) + {vs[n]};
      StoreHoldsMaximalVersions(vs[..n], contents);
      ReceivedHolds(Replayed(vs[..n], contents), vs[n], Elements(vs[..n]), contents);
    }
  }

  /** So the order and the number of times do not matter. */
  lemma OrderDoesNotMatter(vs: seq<Clock>, ws: seq<Clock>, contents: map<Clock, File>)
    requires Elements(vs) == Elements(ws) <= contents.Keys && UNVERSIONED !in Elements(vs)
    ensures Replayed(vs, contents) == Replayed(ws, contents)
  {
    StoreHoldsMaximalVersions(vs, contents);
    StoreHoldsMaximalVersions(ws, contents);
  }

  // ---------- chunked writes, interleaved chunk by chunk ----------

  /** The versions that finished writes have written. */
  ghost function Finished(jobs: map<nat, Job>): set<Clock> {
    set j | j in jobs && jobs[j].command.finished && jobs[j].command.writer.Some? :: jobs[j].command.writer.value
  }

  /** A finished write of this version was fed exactly the file's bytes. */
  ghost predicate Wrote(key: Key, jobs: map<nat, Job>, v: Clock, f: File) {
    exists j <- jobs ::
      jobs[j].command.finished && jobs[j].command.writer == Some(v) && f == File(jobs[j].fed, StoredCopies(key.copies))
  }

  /** The maximal ones of the versions there were at the start and those written since, with their bytes. */
  ghost predicate HoldsWritten(key: Key, start: map<Clock, File>, t: System) {
    && t.home.done.Keys == Maximal(start.Keys + Finished(t.jobs))
    && (forall v <- t.home.partial :: t.home.partial[v].copies == StoredCopies(key.copies))
    && forall v <- t.home.done :: (v in start && start[v] == t.home.done[v]) || Wrote(key, t.jobs, v, t.home.done[v])
  }

  /** The step finishes no write and commits nothing. */
  ghost predicate StillRuns(key: Key, s: System, job: nat, t: System) {
    && t.home.done == s.home.done && job in t.jobs && !t.jobs[job].command.finished
    && t.jobs == s.jobs[job := t.jobs[job]] && (job in s.jobs ==> !s.jobs[job].command.finished)
    && ((forall v <- s.home.partial :: s.home.partial[v].copies == StoredCopies(key.copies))
        ==> forall v <- t.home.partial :: t.home.partial[v].copies == StoredCopies(key.copies))
  }

  /** What finished writes wrote is not changed by another write's progress. */
  lemma StillWrote(key: Key, jobs: map<nat, Job>, job: nat, j: Job, v: Clock, f: File)
    requires Wrote(key, jobs, v, f) && (job in jobs ==> !jobs[job].command.finished)
    ensures Wrote(key, jobs[job := j], v, f)
  {
    var i :| i in jobs && jobs[i].command.finished && jobs[i].command.writer == Some(v)
      && f == File(jobs[i].fed, StoredCopies(key.copies));
    assert i != job && jobs[job := j][i] == jobs[i];
  }

  lemma FinishedWith(jobs: map<nat, Job>, job: nat, j: Job)
    requires job in jobs ==> !jobs[job].command.finished
    ensures Finished(jobs[job := j]) ==
      Finished(jobs) + if j.command.finished && j.command.writer.Some? then {j.command.writer.value} else {}
  {
    var more := jobs[job := j];
    assert job in more && more[job] == j;
    forall v | v in Finished(jobs) ensures v in Finished(more) {
      var i :| i in jobs && jobs[i].command.finished && jobs[i].command.writer == Some(v);
      assert i != job && more[i] == jobs[i];
    }
    forall v | v in Finished(more) && !(j.command.finished && j.command.writer == Some(v)) ensures v in Finished(jobs) {
      var i :| i in more && more[i].command.finished && more[i].command.writer == Some(v);
      assert i != job && more[i] == jobs[i];
    }
  }

  lemma RunningHolds(key: Key, start: map<Clock, File>, s: System, job: nat, t: System)
    requires HoldsWritten(key, start, s) && StillRuns(key, s, job, t)
    ensures HoldsWritten(key, start, t)
  {
    FinishedWith(s.jobs, job, t.jobs[job]);
    hide Finished, Maximal, Wrote;
    assert Finished(t.jobs) == Finished(s.jobs);
    forall v | v in t.home.done && Wrote(key, s.jobs, v, t.home.done[v]) ensures Wrote(key, t.jobs, v, t.home.done[v]) {
      StillWrote(key, s.jobs, job, t.jobs[job], v, t.home.done[v]);
    }
  }

  /** What a commit leaves, given what there was. */
  lemma CommitHolds(d: Directory, v: Clock, all: set<Clock>)
    requires Consistent(d) && v in d.partial && d.done.Keys == Maximal(all)
    ensures Committed(d, v).done.Keys == Maximal(all + {v}) && Committed(d, v).partial == d.partial - {v}
    ensures forall w <- Committed(d, v).done ::
      if w == v then Committed(d, v).done[w] == d.partial[v] else w in d.done && Committed(d, v).done[w] == d.done[w]
  {
    CommittedVersions(d, v);
    MaximalOfMaximal(all, v);
    hide Committed;
  }

  lemma ClosingHolds(key: Key, start: map<Clock, File>, s: System, job: nat, t: System)
    requires HoldsWritten(key, start, s) && Consistent(s.home) && Closes(key, s, job, t)
    requires JobFine(key, s.jobs[job], s.home)
    ensures HoldsWritten(key, start, t)
  {
    var v, all := s.jobs[job].command.writer.value, start.Keys + Finished(s.jobs);
    assert s.home.partial[v] == File(s.jobs[job].fed, StoredCopies(key.copies));
    assert Wrote(key, t.jobs, v, s.home.partial[v]);
    CommitHolds(s.home, v, all);
    FinishedWith(s.jobs, job, t.jobs[job]);
    hide Committed, Consistent, Finished, Maximal, Wrote, JobFine;
    assert start.Keys + Finished(t.jobs) == all + {v};
    forall w | w in t.home.done && w != v && Wrote(key, s.jobs, w, s.home.done[w])
      ensures Wrote(key, t.jobs, w, s.home.done[w])
    {
      StillWrote(key, s.jobs, job, t.jobs[job], w, s.home.done[w]);
    }
  }

  lemma StepHolds(key: Key, start: map<Clock, File>, s: System, a: Action)
    requires key.name != "" && Invariant(key, s) && HoldsWritten(key, start, s)
    requires a.Feed? ==> |a.chunk| <= WINDOW
    ensures HoldsWritten(key, start, Step(key, s, a))
  {
    var t := Step(key, s, a);
    if a.job in s.jobs {
      assert JobFine(key, s.jobs[a.job], s.home);
    }
    hide HoldsWritten, WritersApart, Agrees, Progressing, Tiled, Closes;
    match a {
      case Begin(job, version) =>
        if job !in s.jobs {
          RunningHolds(key, start, s, job, t);
        }
      case Feed(job, chunk, env) =>
        if job in s.jobs {
          FeedHolds(key, start, s, job, chunk, env);
        }
    }
  }

  lemma FeedHolds(key: Key, start: map<Clock, File>, s: System, job: nat, chunk: seq<Byte>, env: Surroundings)
    requires key.name != "" && Invariant(key, s) && HoldsWritten(key, start, s) && |chunk| <= WINDOW
    requires job in s.jobs && JobFine(key, s.jobs[job], s.home)
    ensures HoldsWritten(key, start, Step(key, s, Feed(job, chunk, env)))
  {
    var t, c := Step(key, s, Feed(job, chunk, env)), s.jobs[job].command;
    assert Consistent(s.home);
    hide HoldsWritten, WritersApart, Agrees, Progressing, Tiled, Closes, Step, Consistent, StillRuns;
    if !c.started {
      UnstartedCall(key, s, job, chunk, env);
      if t != s {
        OpenedRuns(key, s, job, chunk, t);
        RunningHolds(key, start, s, job, t);
      }
    } else if c.finished {
      FinishedCall(key, s, job, chunk, env);
    } else if chunk == [] {
      ClosingCall(key, s, job, env);
      ClosingHolds(key, start, s, job, t);
    } else if c.pending + |chunk| <= WINDOW {
      AddingCall(key, s, job, chunk, env);
      AddedRuns(key, s, job, chunk, t);
      RunningHolds(key, start, s, job, t);
    } else {
      FlushingCall(key, s, job, chunk, env);
      FlushedRuns(key, s, job, chunk, t);
      RunningHolds(key, start, s, job, t);
    }
  }

  lemma OpenedRuns(key: Key, s: System, job: nat, chunk: seq<Byte>, t: System)
    requires Opens(key, s, job, chunk, t) && !s.jobs[job].command.finished
    ensures StillRuns(key, s, job, t)
  {
  }

  lemma AddedRuns(key: Key, s: System, job: nat, chunk: seq<Byte>, t: System)
    requires Adds(s, job, chunk, t)
    ensures StillRuns(key, s, job, t)
  {
  }

  lemma FlushedRuns(key: Key, s: System, job: nat, chunk: seq<Byte>, t: System)
    requires Flushes(key, s, job, chunk, t)
    ensures StillRuns(key, s, job, t)
  {
  }

  /** In every state of every run, the store holds exactly the maximal ones of the versions it had at the start and
      those whose writes have finished, each with the bytes that were fed to its write, or that were there. */
  lemma {:induction false} RunHoldsMaximalVersions(key: Key, s: System, actions: seq<Action>)
    requires Initial(key, s) && Legal(actions)
    ensures HoldsWritten(key, s.home.done, Run(key, s, actions))
  {
    if actions == [] {
      StartsMaximal(s.home);
      assert Finished(s.jobs) == {};
      assert s.home.done.Keys + {} == s.home.done.Keys;
    } else {
      var n := |actions| - 1;
      assert Legal(actions[..n]) by {
        assert forall i | 0 <= i < n :: actions[..n][i] == actions[i];
      }
      RunHoldsMaximalVersions(key, s, actions[..n]);
      RunKeeps(key, s, actions[..n]);
      hide HoldsWritten, Invariant, Step;
      StepHolds(key, s.home.done, Run(key, s, actions[..n]), actions[n]);
    }
  }

  lemma StartsMaximal(d: Directory)
    requires Consistent(d)
    ensures d.done.Keys == Maximal(d.done.Keys)
  {
  }

  /** `contents` has what each version was written with. */
  ghost predicate WrittenAs(key: Key, start: map<Clock, File>, jobs: map<nat, Job>, contents: map<Clock, File>) {
    && (forall v <- start :: v in contents && contents[v] == start[v])
    && forall j <- jobs :: jobs[j].command.finished && jobs[j].command.writer.Some? ==>
         var v := jobs[j].command.writer.value;
         v in contents && contents[v] == File(jobs[j].fed, StoredCopies(key.copies))
  }

  ghost predicate AtRest(t: System) {
    forall j <- t.jobs :: !t.jobs[j].command.InFlight()
  }

  /** A replica, the run that brought it where it is, and the versions it was told of. */
  ghost predicate Lived(key: Key, s: System, actions: seq<Action>, contents: map<Clock, File>) {
    Initial(key, s) && Legal(actions) && WrittenAs(key, s.home.done, Run(key, s, actions).jobs, contents)
  }

  ghost function Told(key: Key, s: System, actions: seq<Action>): set<Clock> {
    s.home.done.Keys + Finished(Run(key, s, actions).jobs)
  }

  lemma HoldsContents(key: Key, s: System, actions: seq<Action>, contents: map<Clock, File>)
    requires Lived(key, s, actions, contents)
    ensures var t := Run(key, s, actions);
      && t.home.done.Keys == Maximal(Told(key, s, actions))
      && forall v <- t.home.done :: v in contents && t.home.done[v] == contents[v]
  {
    RunHoldsMaximalVersions(key, s, actions);
    hide Run;
  }

  /** Two replicas of a key at which no write is in flight, told of the same versions with the same contents, by
      writes interleaved in any way, in any order, in chunks of any size, some of them refused and some there from
      the start: they hold the same, and their digest indexes have the same entry for the key, although each has
      got there by its own xor steps. */
  lemma ReplicasConverge(
    key: Key, a: System, b: System, xs: seq<Action>, ys: seq<Action>, contents: map<Clock, File>)
    requires Lived(key, a, xs, contents) && Lived(key, b, ys, contents)
    requires AtRest(Run(key, a, xs)) && AtRest(Run(key, b, ys))
    requires Told(key, a, xs) == Told(key, b, ys)
    ensures Run(key, a, xs).home == Run(key, b, ys).home
    ensures Run(key, a, xs).entry == Run(key, b, ys).entry
  {
    HoldsContents(key, a, xs, contents);
    HoldsContents(key, b, ys, contents);
    RestIsFinished(key, a, xs);
    RestIsFinished(key, b, ys);
    hide Run, Told, Rebuilt, Lived;
    assert Run(key, a, xs).home.done == Run(key, b, ys).home.done;
  }

  lemma RestIsFinished(key: Key, s: System, actions: seq<Action>)
    requires Initial(key, s) && Legal(actions) && AtRest(Run(key, s, actions))
    ensures var t := Run(key, s, actions); t.home.partial == map[] && t.entry == Rebuilt(key, t.home)
  {
    var t := Run(key, s, actions);
    RunKeeps(key, s, actions);
    assert Reachable(key, t);
    hide Run, JobsFine, Agrees, Reachable;
    RestartRebuildsEntry(key, t);
    assert forall v :: v !in t.home.partial;
  }
}
