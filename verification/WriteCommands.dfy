/** `WriteCommand`: a client or a peer pushes a file in chunks; every 0x10000 bytes, and at the end, the
    command flushes and tells the commit callback about the new window of the file. */
module WriteCommands {
  import opened Bytes
  import opened VectorClocks
  import opened XorFold
  import opened FileStores

  const WINDOW := 0x10000
  /** The command counts in `unsigned`: arithmetic is modulo 2^32. */
  const UNSIGNED := 0x1_0000_0000

  datatype Instructions = Instructions(
    name: string, version: Clock, copies: nat, offset: nat, isComplete: bool, digest: Digest)

  /** One call of the commit callback: the window [offset, size) of the file is new, and the key's entry in
      the digest index changes by `delta` (`params.digest xor contents.digest()`). */
  datatype Notice = Notice(offset: nat, size: nat, isComplete: bool, delta: Digest)

  /** The fields of a command.  `writer` is the version its stream is writing, once it is open. */
  datatype Command = Command(
    started: bool, finished: bool, pending: nat, instructions: Instructions, writer: Option<Clock>)
  {
    predicate InFlight() {
      started && !finished && writer.Some?
    }
  }

  /** What the surroundings decide when a write opens: expiry of the version, own member id, clock. */
  datatype Surroundings = Surroundings(expired: bool, me: string, now: nat)

  function Fresh(name: string, version: Clock, copies: nat): Command {
    Command(false, false, 0, Instructions(name, version, copies, 0, false, ZERO), None)
  }

  /** A command, the directory of its key, and the callback calls made on the way. */
  datatype Outcome = Outcome(command: Command, home: Directory, notices: seq<Notice>, ok: bool)

  ghost function Written(d: Directory, c: Command, bytes: seq<Byte>): Directory {
    if c.writer.Some? && c.writer.value in d.partial then Appended(d, c.writer.value, bytes) else d
  }

  /** Only a successful flush changes anything, and it starts a new window for the same writer. */
  ghost function Flushed(hash: Hasher, c: Command, d: Directory): (o: Outcome)
    ensures !o.ok ==> o == Outcome(c, d, [], false)
    ensures o.ok ==> o.command == c.(pending := 0, instructions := o.command.instructions) && |o.notices| == 1
    ensures o.command.instructions.name == c.instructions.name
  {
    if c.writer.None? || c.writer.value !in d.partial then Outcome(c, d, [], false)
    else
      var v, i := c.writer.value, c.instructions;
      var size := |d.partial[v].data|;
      var digest := if i.isComplete then CommitDigest(hash, d, v) else hash(v, size);
      var next := i.(
        version := if i.version == UNVERSIONED then v else i.version,
        digest := digest,
        offset := if i.isComplete then i.offset else size);
      Outcome(
        c.(pending := 0, instructions := next),
        if i.isComplete then Committed(d, v) else d,
        [Notice(i.offset, size, i.isComplete, Xor(i.digest, digest))],
        true)
  }

  ghost function Finished(hash: Hasher, c: Command, d: Directory): Outcome {
    Flushed(hash, c.(finished := true, instructions := c.instructions.(isComplete := true)), d)
  }

  /** Opening the writer on the first call that reaches it. */
  ghost function Started(c: Command, d: Directory, env: Surroundings): (Command, Directory) {
    if c.started then (c, d)
    else if c.instructions.name == "" then (c.(finished := true), d)
    else
      var o := Opened(d, c.instructions.version, c.instructions.copies, env.expired, env.me, env.now);
      if o.None? then (c.(writer := None), d) else (c.(writer := Some(o.value.0)), o.value.1)
  }

  /** The sum of two `unsigned`s. */
  function Sum(a: nat, b: nat): nat {
    if a + b < UNSIGNED then a + b else a + b - UNSIGNED
  }

  /** Taking in a non-empty chunk: what completes the current window is flushed, the rest begins the next. Nothing is
      said of a chunk that has fewer bytes than what is taken to be the rest. */
  ghost function Absorbed(hash: Hasher, c: Command, d: Directory, buff: seq<Byte>): Outcome {
    var next := Sum(c.pending, |buff|);
    if next <= WINDOW then
      Outcome(c.(pending := next), Written(d, c, buff), [], true)
    else
      var topoff := |buff| - (next - WINDOW);
      if topoff < 0 then Outcome(c, d, [], false)
      else
        var o := Flushed(hash, c, Written(d, c, buff[..topoff]));
        if !o.ok then o
        else Outcome(o.command.(pending := |buff| - topoff), Written(o.home, c, buff[topoff..]), o.notices, true)
  }

  /** The call reads past its chunk: the counter is beyond the window it counts for. */
  ghost predicate Overruns(c: Command, d: Directory, buff: seq<Byte>, env: Surroundings) {
    var c1 := Started(c, d, env).0;
    && !c.finished && !c1.finished && c1.writer.Some? && buff != []
    && WINDOW < c.pending && c.pending + |buff| < UNSIGNED
  }

  /** One call of `run`. */
  ghost function Ran(hash: Hasher, c: Command, d: Directory, buff: seq<Byte>, env: Surroundings): Outcome {
    if c.finished then Outcome(c, d, [], false)
    else
      var (c1, d1) := Started(c, d, env);
      if c1.finished || c1.writer.None? then Outcome(c1, d1, [], false)
      else if buff == [] then
        if !c.started then Outcome(c1.(started := true), d1, [], true) else Finished(hash, c1, d1)
      else Absorbed(hash, c1.(started := true), d1, buff)
  }

  /** A first call either finds its version refused and changes nothing, or opens the unfinished file and
      takes the chunk in: a chunk of at most one window never flushes. */
  lemma FirstCall(hash: Hasher, c: Command, d: Directory, chunk: seq<Byte>, env: Surroundings)
    requires c == Fresh(c.instructions.name, c.instructions.version, c.instructions.copies)
    requires c.instructions.name != "" && |chunk| <= WINDOW
    ensures var o := Opened(d, c.instructions.version, c.instructions.copies, env.expired, env.me, env.now);
      Ran(hash, c, d, chunk, env) ==
      if o.None? then Outcome(c, d, [], false)
      else Outcome(
        c.(started := true, writer := Some(o.value.0), pending := |chunk|),
        d.(partial := d.partial[o.value.0 := File(chunk, StoredCopies(c.instructions.copies))]), [], true)
  {
    var o := Opened(d, c.instructions.version, c.instructions.copies, env.expired, env.me, env.now);
    if o.Some? {
      var (v, d1) := o.value;
      assert [] + chunk == chunk;
      assert Appended(d1, v, chunk) == d.(partial := d.partial[v := File(chunk, StoredCopies(c.instructions.copies))]);
    }
  }

  lemma AppendedTwice(d: Directory, v: Clock, a: seq<Byte>, b: seq<Byte>)
    requires v in d.partial
    ensures Appended(Appended(d, v, a), v, b) == Appended(d, v, a + b)
  {
    assert d.partial[v].data + a + b == d.partial[v].data + (a + b);
    assert Appended(Appended(d, v, a), v, b).partial == Appended(d, v, a + b).partial;
  }

  /** A chunk that overflows the window: the file takes all of it, and one flush reports the full window. */
  lemma OverflowingCall(hash: Hasher, c: Command, d: Directory, chunk: seq<Byte>)
    requires c.writer.Some? && c.writer.value in d.partial && !c.instructions.isComplete
    requires c.pending <= WINDOW < c.pending + |chunk| < UNSIGNED
    requires |d.partial[c.writer.value].data| == c.instructions.offset + c.pending
    ensures var (v, i, o) := (c.writer.value, c.instructions, Absorbed(hash, c, d, chunk));
      var size := i.offset + WINDOW;
      && o.ok && o.home == Appended(d, v, chunk)
      && o.notices == [Notice(i.offset, size, false, Xor(i.digest, hash(v, size)))]
      && o.command == c.(pending := c.pending + |chunk| - WINDOW, instructions := o.command.instructions)
      && o.command.instructions ==
           i.(version := if i.version == UNVERSIONED then v else i.version, offset := size, digest := hash(v, size))
  {
    var v, topoff := c.writer.value, WINDOW - c.pending;
    AppendedTwice(d, v, chunk[..topoff], chunk[topoff..]);
    assert chunk[..topoff] + chunk[topoff..] == chunk;
  }

  /** The counter stays within a window exactly when the chunk does not reach past the end of the next one, or is so
      large that the counter wraps. */
  lemma CounterStaysInWindow(hash: Hasher, c: Command, d: Directory, chunk: seq<Byte>)
    requires c.pending <= WINDOW && |chunk| < UNSIGNED && Absorbed(hash, c, d, chunk).ok
    ensures Absorbed(hash, c, d, chunk).command.pending <= WINDOW
       <==> c.pending + |chunk| <= 2 * WINDOW || c.pending + |chunk| >= UNSIGNED
    ensures |chunk| <= WINDOW ==> Absorbed(hash, c, d, chunk).command.pending <= WINDOW
  {
    hide Flushed, Written;
  }

  /** Otherwise the next chunk is overrun: after one of two windows and a byte, for example, any short one. */
  lemma ALargeChunkThenAnOverrun(
    hash: Hasher, c: Command, d: Directory, chunk: seq<Byte>, more: seq<Byte>, env: Surroundings)
    requires c.InFlight() && c.writer.value in d.partial && !c.instructions.isComplete && c.pending == 0
    requires |chunk| == 2 * WINDOW + 1 && 0 < |more| <= WINDOW
    ensures var o := Ran(hash, c, d, chunk, env); o.ok && Overruns(o.command, o.home, more, env)
  {
    assert Ran(hash, c, d, chunk, env) == Absorbed(hash, c, d, chunk);
    var o := Flushed(hash, c, Written(d, c, chunk[..WINDOW]));
    assert o.ok;
    hide Flushed, Written;
  }

  class WriteCommand {
    const store: FileStore
    var started: bool
    var finished: bool
    var bytesSinceLastFlush: nat
    var instructions: Instructions
    var writer: Option<Clock>
    var status: nat
    /** The calls made to the commit callback so far. */
    var notices: seq<Notice>

    constructor (store: FileStore, name: string, version: Clock, copies: nat)
      ensures this.store == store && State() == Fresh(name, version, copies) && notices == []
    {
      this.store := store;
      started, finished, bytesSinceLastFlush, writer, notices := false, false, 0, None, [];
      instructions := Instructions(name, version, copies, 0, false, ZERO);
      status := 0;
    }

    ghost predicate Valid()
      reads this, store
    {
      store.Valid() && (started ==> writer.Some?) && bytesSinceLastFlush < UNSIGNED
    }

    function State(): Command
      reads this
    {
      Command(started, finished, bytesSinceLastFlush, instructions, writer)
    }

    function Home(): Directory
      reads this, store
    {
      store.Home(instructions.name)
    }

    method Flush() returns (ok: bool)
      requires Valid()
      modifies this, store
      ensures Valid()
      ensures var o := old(Flushed(store.hash, State(), Home()));
        && ok == o.ok && State() == o.command && notices == old(notices) + o.notices
        && store.homes == if o.ok then old(store.homes)[instructions.name := o.home] else old(store.homes)
    {
      if writer.None? {
        return false;
      }
      var v := writer.value;
      var size := if v in Home().partial then |Home().partial[v].data| else 0;
      var digest := store.Commit(instructions.name, v, instructions.isComplete);
      if digest.None? {
        return false;
      }
      if instructions.version == UNVERSIONED {
        instructions := instructions.(version := v);
      }
      notices := notices + [Notice(instructions.offset, size, instructions.isComplete, Xor(instructions.digest, digest.value))];
      instructions := instructions.(digest := digest.value);
      if !instructions.isComplete {
        instructions := instructions.(offset := size);
      }
      bytesSinceLastFlush := 0;
      ok := true;
    }

    /** The command's state, its key's directory and the callback calls are what `o` says; no other key's
        directory changed. */
    twostate predicate Became(o: Outcome)
      reads this, store
    {
      && State() == o.command && Home() == o.home && notices == old(notices) + o.notices
      && instructions.name == old(instructions.name)
      && store.homes - {instructions.name} == old(store.homes) - {instructions.name}
    }

    method Commit() returns (ok: bool)
      requires Valid()
      modifies this, store
      ensures Valid()
      ensures var o := old(Finished(store.hash, State(), Home())); ok == o.ok && Became(o)
      ensures status == if ok then 200 else 500
    {
      finished := true;
      instructions := instructions.(isComplete := true);
      ok := Flush();
      status := if ok then 200 else 500;
    }

    method Put(bytes: seq<Byte>)
      requires Valid()
      modifies store
      ensures Valid() && Home() == old(Written(Home(), State(), bytes))
      ensures store.homes - {instructions.name} == old(store.homes) - {instructions.name}
    {
      // bytes written to a file that has been removed are gone
      if writer.Some? && writer.value in Home().partial {
        store.Append(instructions.name, writer.value, bytes);
      }
    }

    /** The part of `run` before the first byte. */
    method Open(env: Surroundings)
      requires Valid() && !finished
      modifies this, store
      ensures Valid()
      ensures var (c, d) := old(Started(State(), Home(), env)); Became(Outcome(c, d, [], true))
      ensures finished || writer.None? || started ==> store.homes == old(store.homes)
      ensures !started && instructions.name == "" ==> finished && status == 400
      ensures !started && instructions.name != "" ==>
        && !finished && (writer.None? ==> status == 500)
        && var (d, v) := (old(Home()), instructions.version);
           writer.None? <==> v != UNVERSIONED && (env.expired || v in d.done || v in d.partial)
    {
      if !started {
        if instructions.name == "" {
          finished, status := true, 400;
        } else {
          writer := store.Write(instructions.name, instructions.version, instructions.copies, env.expired, env.me, env.now);
          status := if writer.None? then 500 else status;
        }
      }
    }

    /** The part of `run` for a non-empty chunk. */
    method Absorb(buff: seq<Byte>) returns (ok: bool)
      requires Valid() && |buff| < UNSIGNED
      requires bytesSinceLastFlush <= WINDOW || bytesSinceLastFlush + |buff| >= UNSIGNED
      modifies this, store
      ensures Valid()
      ensures var o := old(Absorbed(store.hash, State(), Home(), buff)); ok == o.ok && Became(o)
    {
      hide Flushed;
      var nextSize, overfill, topoff := Sizes(bytesSinceLastFlush, |buff|);
      if nextSize > WINDOW {
        ok := FillWindow(buff[..topoff]);
        if ok {
          Put(buff[topoff..]);
          bytesSinceLastFlush := bytesSinceLastFlush + overfill;
        }
      } else {
        Put(buff);
        bytesSinceLastFlush := nextSize;
        ok := true;
      }
    }

    static method Sizes(pending: nat, size: nat) returns (nextSize: nat, overfill: nat, topoff: nat)
      requires pending < UNSIGNED && size < UNSIGNED
      ensures nextSize == Sum(pending, size) && (nextSize > WINDOW ==> overfill == nextSize - WINDOW)
      ensures nextSize > WINDOW ==> topoff == if overfill <= size then size - overfill else size - overfill + UNSIGNED
      ensures nextSize > WINDOW ==> (topoff > size <==> WINDOW < pending && pending + size < UNSIGNED)
    {
      nextSize := (pending + size) % UNSIGNED;
      overfill := (nextSize - WINDOW) % UNSIGNED;
      topoff := (size - overfill) % UNSIGNED;
    }

    method FillWindow(bytes: seq<Byte>) returns (ok: bool)
      requires Valid()
      modifies this, store
      ensures Valid()
      ensures var o := old(Flushed(store.hash, State(), Written(Home(), State(), bytes))); ok == o.ok && Became(o)
    {
      Put(bytes);
      ok := Flush();
    }

    /** One chunk. `overrun` says that the call reads past it; what it makes of the bytes there is not said. */
    method Run(buff: seq<Byte>, env: Surroundings) returns (ok: bool, overrun: bool)
      requires Valid() && |buff| < UNSIGNED
      modifies this, store
      ensures Valid()
      ensures overrun == old(Overruns(State(), Home(), buff, env))
      ensures var o := old(Ran(store.hash, State(), Home(), buff, env)); !overrun ==> ok == o.ok && Became(o)
      // a finished command does nothing
      ensures old(finished) ==>
        !ok && State() == old(State()) && status == old(status) && store.homes == old(store.homes) && notices == old(notices)
      // one without a name finishes, and one whose version is refused stays as it is
      ensures !old(finished) && !old(started) && instructions.name == "" ==>
        !ok && finished && status == 400 && store.homes == old(store.homes) && notices == old(notices)
      ensures !old(finished) && !old(started) && instructions.name != "" ==>
        var (d, v) := (old(Home()), old(instructions).version);
        var refused := v != UNVERSIONED && (env.expired || v in d.done || v in d.partial);
        && (refused ==>
              && !ok && !started && !finished && writer == None && status == 500
              && store.homes == old(store.homes) && notices == old(notices))
        && (!refused ==> started && writer.Some? && (buff == [] ==> ok && notices == old(notices)))
    {
      overrun := false;
      if finished {
        return false, false;
      }
      Open(env);
      if finished || writer.None? {
        return false, false;
      }
      if buff == [] {
        if !started {
          started := true;
          return true, false;
        }
        ok := Commit();
      } else {
        started := true;
        overrun := WINDOW < bytesSinceLastFlush && bytesSinceLastFlush + |buff| < UNSIGNED;
        if overrun {
          return false, true;
        }
        ok := Absorb(buff);
      }
    }
  }
}
