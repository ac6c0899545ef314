/** One call of `WriteCommand::run`, by what it does to the command and to its key's directory. */
module Calls {
  import opened Bytes
  import opened VectorClocks
  import opened FileStores
  import opened WriteCommands

  /** A command that a chunk of at most one window can be fed to. */
  ghost predicate Ready(c: Command) {
    && c.instructions.name != "" && c.pending <= WINDOW
    && (c.started ==> c.writer.Some?) && (!c.started ==> c.pending == 0 && c.writer == None)
    && (!c.finished ==> !c.instructions.isComplete)
  }

  /** Nothing happens outside the command. */
  ghost predicate Idles(c: Command, d: Directory, o: Outcome) {
    && o.home == d && o.notices == [] && o.command.started == c.started && Ready(o.command)
    && (if c.started then o.command.writer == c.writer else o.command.writer == None)
    && o.command.instructions == c.instructions.(isComplete := o.command.instructions.isComplete)
    && (c.finished ==> o.command.finished) && !HasItsFile(c, d)
  }

  /** The unfinished file is created, with the first chunk in it. */
  ghost predicate Creates(c: Command, d: Directory, chunk: seq<Byte>, o: Outcome) {
    && !c.started && !c.finished && o.notices == []
    && o.command == c.(started := true, writer := o.command.writer, pending := |chunk|)
    && o.command.writer.Some? && Ready(o.command)
    && var v := o.command.writer.value;
    && v !in VersionsOf(d, true) && v != UNVERSIONED
    && (c.instructions.version != UNVERSIONED ==> v == c.instructions.version)
    && o.home == d.(partial := d.partial[v := File(chunk, StoredCopies(c.instructions.copies))])
  }

  ghost predicate HasItsFile(c: Command, d: Directory) {
    c.InFlight() && c.writer.value in d.partial
  }

  /** The chunk stays within the window. */
  ghost predicate Grows(c: Command, d: Directory, chunk: seq<Byte>, o: Outcome) {
    && HasItsFile(c, d) && o.home == Appended(d, c.writer.value, chunk) && o.notices == []
    && o.command == c.(pending := c.pending + |chunk|) && Ready(o.command)
  }

  /** What a flush makes of the instructions. */
  ghost predicate Renewed(c: Command, o: Outcome) {
    && o.command.started && o.command.writer == c.writer && Ready(o.command)
    && o.command.instructions.name == c.instructions.name
    && o.command.instructions.version == (if c.instructions.version == UNVERSIONED then c.writer.value else c.instructions.version)
    && |o.notices| == 1 && o.notices[0].offset == c.instructions.offset
  }

  /** The chunk fills the window and begins the next: what is flushed is less than what the file then holds. */
  ghost predicate FillsWindow(c: Command, d: Directory, chunk: seq<Byte>, o: Outcome) {
    && HasItsFile(c, d) && o.home == Appended(d, c.writer.value, chunk) && Renewed(c, o)
    && !o.command.finished && !o.notices[0].isComplete
    && var before := |d.partial[c.writer.value].data|;
    && before <= o.notices[0].size < before + |chunk|
    && o.command.instructions.offset == o.notices[0].size
  }

  /** The empty chunk commits the file. */
  ghost predicate Commits(c: Command, d: Directory, chunk: seq<Byte>, o: Outcome) {
    && HasItsFile(c, d) && o.home == Committed(d, c.writer.value) && Renewed(c, o)
    && chunk == [] && o.ok && o.command.finished && o.notices[0].isComplete
    && o.notices[0].size == |d.partial[c.writer.value].data|
  }

  /** These are all the things a call can do. */
  lemma CallDoesOneThing(hash: Hasher, c: Command, d: Directory, chunk: seq<Byte>, env: Surroundings)
    requires Ready(c) && Consistent(d) && |chunk| <= WINDOW
    ensures var o := Ran(hash, c, d, chunk, env);
      Idles(c, d, o) || Creates(c, d, chunk, o) || Grows(c, d, chunk, o) || FillsWindow(c, d, chunk, o) || Commits(c, d, chunk, o)
  {
    if c.finished {
    } else if !c.started {
      FirstChunk(hash, c, d, chunk, env);
    } else if c.writer.value !in d.partial {
    } else if chunk == [] {
    } else {
      LaterChunk(hash, c, d, chunk, env);
    }
  }

  lemma FirstChunk(hash: Hasher, c: Command, d: Directory, chunk: seq<Byte>, env: Surroundings)
    requires Ready(c) && Consistent(d) && |chunk| <= WINDOW && !c.started && !c.finished
    ensures var o := Ran(hash, c, d, chunk, env);
      if Opened(d, c.instructions.version, c.instructions.copies, env.expired, env.me, env.now).Some?
      then Creates(c, d, chunk, o) else Idles(c, d, o)
  {
    OpenedConsistent(d, c.instructions.version, c.instructions.copies, env.expired, env.me, env.now);
    assert [] + chunk == chunk;
  }

  lemma LaterChunk(hash: Hasher, c: Command, d: Directory, chunk: seq<Byte>, env: Surroundings)
    requires Ready(c) && HasItsFile(c, d) && 0 < |chunk| <= WINDOW
    ensures var o := Ran(hash, c, d, chunk, env);
      if c.pending + |chunk| <= WINDOW then Grows(c, d, chunk, o) else FillsWindow(c, d, chunk, o)
  {
    if c.pending + |chunk| > WINDOW {
      var topoff := WINDOW - c.pending;
      AppendedTwice(d, c.writer.value, chunk[..topoff], chunk[topoff..]);
      assert chunk[..topoff] + chunk[topoff..] == chunk;
    }
  }

  /** A command whose file is gone does nothing any more: no callback, nothing in the directory; and it ends
      failed. A command that has its file commits it when the stream ends. */
  lemma CommitsIffItsFileIsThere(hash: Hasher, c: Command, d: Directory, chunk: seq<Byte>, env: Surroundings)
    requires Ready(c) && Consistent(d) && |chunk| <= WINDOW && c.InFlight()
    ensures var o := Ran(hash, c, d, chunk, env);
      && (c.writer.value !in d.partial ==> o.home == d && o.notices == [])
      && (chunk == [] ==> o.command.finished && (o.ok <==> c.writer.value in d.partial))
      && (chunk == [] && c.writer.value in d.partial ==> Commits(c, d, chunk, o))
  {
  }
}
