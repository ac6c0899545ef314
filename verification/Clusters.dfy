/** One key on all nodes of a cluster: chained writes, offers, demands and acknowledgements, and the drop that
    an acknowledgement may lead to. The ring and the members stay as they are, nothing expires, and no user
    drops the key. The network may lose, repeat and reorder messages, a stream may stop anywhere, and a connection
    may break. */
module Clusters {
  import opened Bytes
  import opened VectorClocks
  import opened XorFold
  import opened FileStores
  import opened WriteCommands
  import opened MirrorChains
  import SkewCorrectors

  /** The key, the nodes in the order in which a walk around the ring meets them from the key's position, and the
      members everybody knows. */
  datatype Setting = Setting(name: string, hash: Hasher, ring: seq<string>, peers: map<string, Peer>)

  ghost predicate Sane(g: Setting) {
    g.name != "" && |g.ring| < 0x8000 && forall uid <- g.peers :: g.peers[uid] == Peer(uid)
  }

  /** How many copies a client asks for; it fits the byte that the store keeps it in. */
  type Copies = c: int | 0 <= c < 256

  /** `locations`, for a write that asks for so many copies. */
  function Locations(g: Setting, copies: nat): seq<string> {
    if copies <= |g.ring| then g.ring[..copies] else g.ring
  }

  /** `keyIsMine`. */
  predicate IsMine(g: Setting, node: string, copies: nat) {
    Locations(g, copies) == [] || node in Locations(g, copies)
  }

  /** The bytes of one write on their way to a node: a client's, all there, or another node's, which grow window
      by window until the sender closes the stream. `offset` is what the header says. For specification, `skip`
      is where in the version's contents the stream begins. */
  datatype Stream = Stream(
    dst: string, version: Clock, route: Route, offset: nat, local: bool, sent: seq<Byte>, closed: bool, skip: nat)

  /** A write command at the end of a stream: how much of the stream it has read, and the stream it passes the
      write on with, once a hop is open. Its file begins with the stream's byte at `start`, and it writes at
      `position` next. For specification, `base` is where in the version's contents its file begins. */
  datatype Job = Job(
    inlet: nat, read: nat, command: Command, route: Route, outlet: Option<nat>, base: nat, start: nat, position: nat)

  datatype Message =
    | OfferWrite(src: string, dst: string, version: Clock, source: string)
    | DemandWrite(src: string, dst: string, version: Clock, source: string)
    | AckWrite(src: string, dst: string, version: Clock, size: nat)

  /** What a client was told is committed: a version, and the bytes it sent for it. */
  datatype Write = Write(version: Clock, contents: seq<Byte>)

  /** `makers` has the command that created the file that a node has, or had last, under a version. `messages` is
      everything ever sent. For specification, `written` and `asked` have the contents and the number of copies that
      the first client to write a version gave it, and `committed` the clients' writes that were committed. */
  datatype Cluster = Cluster(
    homes: map<string, Directory>,
    streams: map<nat, Stream>,
    jobs: map<nat, Job>,
    makers: map<(string, Clock), nat>,
    messages: set<Message>,
    written: map<Clock, seq<Byte>>,
    asked: map<Clock, nat>,
    committed: set<Write>)

  const NOTHING_YET := Cluster(map[], map[], map[], map[], {}, map[], map[], {})

  function Home(s: Cluster, node: string): Directory {
    if node in s.homes then s.homes[node] else EMPTY
  }

  /** New streams and jobs get numbers not in use. `link` says whether a connection to the next hop can be opened
      when one is wanted; `me` and `now` are the node's id and clock. A node offloads what is in a tree for some
      number of mirrors. */
  datatype Step =
    | Upload(stream: nat, node: string, given: Clock, copies: Copies, data: seq<Byte>)
    | Begin(job: nat, stream: nat)
    | Feed(job: nat, size: nat, link: bool, out: nat, me: string, now: nat)
    | Dismiss(job: nat)
    | SendOffer(src: string, dst: string, version: Clock, offload: Option<nat>)
    | TakeMessage(message: Message, out: nat)

  /** A client sends a whole write. */
  function Uploaded(s: Cluster, stream: nat, node: string, given: Clock, copies: Copies, data: seq<Byte>): Cluster {
    if stream in s.streams then s
    else s.(streams := s.streams[stream := Stream(node, given, Route(0, copies, ""), 0, true, data, true, 0)])
  }

  /** The header of a stream makes a command. */
  function Begun(g: Setting, s: Cluster, job: nat, stream: nat): Cluster {
    if job in s.jobs || stream !in s.streams then s
    else
      var st := s.streams[stream];
      var plain := Fresh(g.name, st.version, Unsigned(st.route.copies));
      var c := plain.(instructions := plain.instructions.(offset := st.offset));
      s.(jobs := s.jobs[job := Job(stream, 0, c, st.route, None, 0, 0, 0)])
  }

  /** The connection breaks, and the command is gone; its file stays as it is, and the stream it passed the write on
      with is not closed. */
  function Dismissed(s: Cluster, job: nat): Cluster {
    if job !in s.jobs then s
    else s.(jobs := s.jobs[job := s.jobs[job].(command := s.jobs[job].command.(finished := true))])
  }

  // ---- one call of a command ----

  /** The command of this job can be run on the next `size` bytes: they have come, or none are needed, since the
      header's own frame ends or the stream does. */
  predicate CanFeed(s: Cluster, job: nat, size: nat) {
    && job in s.jobs && s.jobs[job].inlet in s.streams
    && var (j, st) := (s.jobs[job], s.streams[s.jobs[job].inlet]);
    && size <= WINDOW && j.read + size <= |st.sent|
    && (size == 0 ==> !j.command.started || (st.closed && j.read == |st.sent|))
  }

  function Chunk(s: Cluster, job: nat, size: nat): seq<Byte>
    requires CanFeed(s, job, size)
  {
    s.streams[s.jobs[job].inlet].sent[s.jobs[job].read..s.jobs[job].read + size]
  }

  /** The file at the command's node under its version, if there is one, is the one that the command created. */
  predicate MadeFile(s: Cluster, job: nat)
    requires job in s.jobs && s.jobs[job].inlet in s.streams && s.jobs[job].command.writer.Some?
  {
    var place := (s.streams[s.jobs[job].inlet].dst, s.jobs[job].command.writer.value);
    place in s.makers && s.makers[place] == job
  }

  /** A running command whose file is not the one it finds by name: another command has created that one since, or
      has committed this one's. */
  predicate Astray(s: Cluster, job: nat)
    requires job in s.jobs && s.jobs[job].inlet in s.streams
  {
    var (c, d) := (s.jobs[job].command, Home(s, s.streams[s.jobs[job].inlet].dst));
    && c.InFlight()
    && if MadeFile(s, job) then c.writer.value in d.done else c.writer.value in d.partial
  }

  /** Bytes go to the file that the command holds open: the committed one, or one that has no name any more. */
  function Strewn(d: Directory, v: Clock, published: bool, bytes: seq<Byte>): Directory {
    if published && v in d.done then d.(done := d.done[v := d.done[v].(data := d.done[v].data + bytes)]) else d
  }

  /** A flush opens the file by name all the same, but the next window begins where the command's own file ends. */
  ghost function StrayFlushed(hash: Hasher, c: Command, d: Directory, position: nat): Outcome {
    var o := Flushed(hash, c, d);
    if !o.ok || c.instructions.isComplete then o
    else o.(command := o.command.(instructions := o.command.instructions.(offset := position)))
  }

  /** One call of `run` by a command that is astray. */
  ghost function StrayRan(
    hash: Hasher, c: Command, d: Directory, buff: seq<Byte>, published: bool, position: nat): Outcome
    requires c.InFlight()
  {
    var v, next := c.writer.value, Sum(c.pending, |buff|);
    if buff == [] then Finished(hash, c, d)
    else if next <= WINDOW then Outcome(c.(pending := next), Strewn(d, v, published, buff), [], true)
    else
      var topoff := |buff| - (next - WINDOW);
      if topoff < 0 then Outcome(c, d, [], false)
      else
        var o := StrayFlushed(hash, c, Strewn(d, v, published, buff[..topoff]), position + topoff);
        if !o.ok then o
        else
          Outcome(o.command.(pending := |buff| - topoff), Strewn(o.home, v, published, buff[topoff..]), o.notices, true)
  }

  ghost function Called(g: Setting, s: Cluster, job: nat, size: nat, me: string, now: nat): Outcome
    requires CanFeed(s, job, size)
  {
    var j := s.jobs[job];
    var (d, chunk) := (Home(s, s.streams[j.inlet].dst), Chunk(s, job, size));
    if Astray(s, job) then StrayRan(g.hash, j.command, d, chunk, MadeFile(s, job), j.position)
    else Ran(g.hash, j.command, d, chunk, Surroundings(false, me, now))
  }

  predicate OpensNow(j: Job, o: Outcome) {
    !j.command.started && o.command.started && o.command.writer.Some?
  }

  /** How many bytes of the chunk the command has written, to whatever file: of one that a flush refused, those that
      were to fill the window. */
  function Wrote(c: Command, size: nat, o: Outcome): nat {
    if !o.command.started || o.command.writer.None? || c.finished then 0
    else if o.ok || Sum(c.pending, size) <= WINDOW || size < Sum(c.pending, size) - WINDOW then size
    else size - (Sum(c.pending, size) - WINDOW)
  }

  /** What the call makes of the node and the job, before any callback. A chunk that is refused is gone. */
  ghost function Worked(s: Cluster, job: nat, size: nat, o: Outcome): Cluster
    requires CanFeed(s, job, size)
  {
    var (j, st) := (s.jobs[job], s.streams[s.jobs[job].inlet]);
    var opens := OpensNow(j, o);
    var base := if !opens then j.base else if st.local then 0 else st.skip + j.read;
    var start := if opens then j.read else j.start;
    var t := s.(
      homes := s.homes[st.dst := o.home],
      jobs := s.jobs[job := j.(
        read := j.read + size, command := o.command, base := base, start := start,
        position := j.position + Wrote(j.command, size, o))]);
    if opens then Noted(t, job, st, o.command.writer.value, st.sent[j.read..]) else t
  }

  /** What is noted when a file is created. The first contents of a version stay on record. */
  function Noted(s: Cluster, job: nat, st: Stream, v: Clock, contents: seq<Byte>): Cluster {
    var first := st.local && v !in s.written;
    s.(
      makers := s.makers[(st.dst, v) := job],
      written := if first then s.written[v := contents] else s.written,
      asked := if first then s.asked[v := Unsigned(st.route.copies)] else s.asked)
  }

  /** One call of `WriteCommand::run`, and the callback it may lead to. */
  ghost function Fed(g: Setting, s: Cluster, job: nat, size: nat, link: bool, out: nat, me: string, now: nat): Cluster {
    if !CanFeed(s, job, size) || out in s.streams then s
    else
      var o := Called(g, s, job, size, me, now);
      if o.notices == [] || o.command.writer.None? then Worked(s, job, size, o)
      else CalledBack(g, Worked(s, job, size, o), job, o.notices[0], Contents(s, job, size, o.notices[0].size), link, out)
  }

  /** What the callback reads: the file under the version's name as flushed, up to the size it is told. */
  function Contents(s: Cluster, job: nat, size: nat, flushed: nat): seq<Byte>
    requires CanFeed(s, job, size)
  {
    var j := s.jobs[job];
    var d := Home(s, s.streams[j.inlet].dst);
    var data := if j.command.writer.Some? && j.command.writer.value in d.partial
                then d.partial[j.command.writer.value].data + (if Astray(s, job) then [] else Chunk(s, job, size))
                else [];
    if flushed <= |data| then data[..flushed] else data
  }

  /** Where the callback starts reading: where the write's instructions say, or at the end if that is sooner. */
  function From(offset: nat, contents: seq<Byte>): nat {
    if offset <= |contents| then offset else |contents|
  }

  /** `ChainWrite`, once it has a hop or has chosen a peer: passes the window on. A hop opened late passes on what
      the write's offset says, and no more. */
  function PassedOn(
    streams: map<nat, Stream>, j: Job, v: Clock, notice: Notice, contents: seq<Byte>,
    route: Route, peer: Option<Peer>, out: nat): (map<nat, Stream>, Option<nat>)
  {
    var rest := contents[From(notice.offset, contents)..];
    if j.outlet.Some? then
      if j.outlet.value !in streams then (streams, j.outlet)
      else
        var hop := streams[j.outlet.value];
        (streams[j.outlet.value := hop.(sent := hop.sent + rest, closed := notice.isComplete)], j.outlet)
    else if peer.Some? then
      var skip := j.base + From(notice.offset, contents);
      (streams[out := Stream(peer.value.uid, v, route, notice.offset, false, rest, notice.isComplete, skip)], Some(out))
    else (streams, None)
  }

  /** `ChainWrite`, which chooses a hop if none is open, again if it could not be opened before, and
      `NotifyWriteComplete`, for writes that come from other nodes. A client is told when its write is committed. */
  ghost function CalledBack(
    g: Setting, s: Cluster, job: nat, notice: Notice, contents: seq<Byte>, link: bool, out: nat): Cluster
    requires job in s.jobs && s.jobs[job].inlet in s.streams && s.jobs[job].command.writer.Some?
  {
    var j := s.jobs[job];
    var (st, v) := (s.streams[j.inlet], j.command.writer.value);
    var (route, peer) := if j.outlet.Some? then (j.route, None) else Hop(g, st.dst, j.route);
    var (streams, outlet) := PassedOn(s.streams, j, v, notice, contents, route, if link then peer else None, out);
    s.(
      streams := streams,
      jobs := s.jobs[job := j.(route := route, outlet := outlet)],
      messages := s.messages + if st.local then {} else Acks(g, st.dst, route, v, notice.size),
      committed := s.committed + if st.local && notice.isComplete then {Write(v, Given(j, st))} else {})
  }

  /** The bytes a client sent for the file that the command created. */
  function Given(j: Job, st: Stream): seq<Byte> {
    if j.start <= |st.sent| then st.sent[j.start..] else []
  }

  function Hop(g: Setting, node: string, route: Route): (Route, Option<Peer>) {
    Choice(Membership(Some(Peer(node)), g.peers), Locations(g, Unsigned(route.copies)), route)
  }

  function Acks(g: Setting, node: string, route: Route, v: Clock, size: nat): set<Message> {
    if Acknowledged(route) && route.source in g.peers
    then {AckWrite(node, g.peers[route.source].uid, v, size)}
    else {}
  }

  // ---- messages ----

  /** A node offers any version it has, committed or not, to anybody; it names itself as the source when it offloads
      a tree that is not its own, and then only to one of the locations of the tree's keys. */
  ghost function Offered(g: Setting, s: Cluster, src: string, dst: string, version: Clock, offload: Option<nat>): Cluster {
    if version !in VersionsOf(Home(s, src), true) then s
    else if offload.Some? && (IsMine(g, src, offload.value) || dst !in Locations(g, offload.value)) then s
    else s.(messages := s.messages + {OfferWrite(src, dst, version, if offload.Some? then src else "")})
  }

  ghost function OfferTaken(s: Cluster, m: Message): Cluster
    requires m.OfferWrite?
  {
    if m.version in VersionsOf(Home(s, m.dst), true) then s
    else s.(messages := s.messages + {DemandWrite(m.dst, m.src, m.version, m.source)})
  }

  function Mirrors(f: File): Short {
    f.copies % 256
  }

  /** `sendKey`: all of the node's own file. */
  ghost function DemandTaken(s: Cluster, m: Message, out: nat): Cluster
    requires m.DemandWrite?
  {
    var found := Found(Home(s, m.dst), m.version, false);
    if found.None? || out in s.streams then s
    else
      var f := found.value.1;
      var skip := if m.version in s.written && |f.data| <= |s.written[m.version]|
                  then |s.written[m.version]| - |f.data| else 0;
      s.(streams := s.streams[out :=
        Stream(m.src, m.version, Route(Mirrors(f), Mirrors(f), m.source), 0, false, f.data, true, skip)])
  }

  /** The acknowledged version is there, in the acknowledged size, and the node is none of its locations. */
  ghost predicate Drops(g: Setting, s: Cluster, m: Message)
    requires m.AckWrite?
  {
    var (d, found) := (Home(s, m.dst), Found(Home(s, m.dst), m.version, false));
    found.Some? && SkewCorrectors.DropsOn(d, m.version, m.size, IsMine(g, m.dst, found.value.1.copies))
  }

  /** Dropping removes the key's directory, with whatever unfinished files are in it. */
  ghost function AckTaken(g: Setting, s: Cluster, m: Message): Cluster
    requires m.AckWrite?
  {
    if Drops(g, s, m) then s.(homes := s.homes - {m.dst}) else s
  }

  ghost function Taken(g: Setting, s: Cluster, m: Message, out: nat): Cluster {
    match m
    case OfferWrite(_, _, _, _) => OfferTaken(s, m)
    case DemandWrite(_, _, _, _) => DemandTaken(s, m, out)
    case AckWrite(_, _, _, _) => AckTaken(g, s, m)
  }

  ghost function Next(g: Setting, s: Cluster, step: Step): Cluster
    requires Sane(g)
  {
    match step
    case Upload(stream, node, given, copies, data) => Uploaded(s, stream, node, given, copies, data)
    case Begin(job, stream) => Begun(g, s, job, stream)
    case Feed(job, size, link, out, me, now) => Fed(g, s, job, size, link, out, me, now)
    case Dismiss(job) => Dismissed(s, job)
    case SendOffer(src, dst, version, offload) => Offered(g, s, src, dst, version, offload)
    case TakeMessage(m, out) => if m in s.messages then Taken(g, s, m, out) else s
  }

  ghost function After(g: Setting, steps: seq<Step>): Cluster
    requires Sane(g)
  {
    if steps == [] then NOTHING_YET
    else Next(g, After(g, steps[..|steps| - 1]), steps[|steps| - 1])
  }

  // ---- when the names of versions can be relied upon ----

  predicate WritesAt(s: Cluster, job: nat, node: string, v: Clock) {
    && job in s.jobs && s.jobs[job].inlet in s.streams && s.streams[s.jobs[job].inlet].dst == node
    && s.jobs[job].command.InFlight() && s.jobs[job].command.writer == Some(v)
  }

  /** Another command at this node is still at work on a file of this version, although it has lost it. */
  ghost predicate Busy(s: Cluster, job: nat, node: string, v: Clock) {
    exists i <- s.jobs :: i != job && WritesAt(s, i, node, v)
  }

  /** The file that the job creates under this version has the version's contents and number of copies, if a client
      has written that version before; and no command at the node still writes to a file of that version. */
  ghost predicate Agrees(s: Cluster, job: nat, v: Clock)
    requires job in s.jobs && s.jobs[job].inlet in s.streams && s.jobs[job].read <= |s.streams[s.jobs[job].inlet].sent|
  {
    var (j, st) := (s.jobs[job], s.streams[s.jobs[job].inlet]);
    && !Busy(s, job, st.dst, v)
    && (st.local && v in s.written ==> s.written[v] == st.sent[j.read..] && Asked(s, v) == Unsigned(st.route.copies))
  }

  function Asked(s: Cluster, v: Clock): nat {
    if v in s.asked then s.asked[v] else 0
  }

  /** If the step creates a file, then under a version that agrees with it. */
  ghost predicate Agreed(g: Setting, s: Cluster, step: Step) {
    step.Feed? && CanFeed(s, step.job, step.size) && step.out !in s.streams ==>
      var o := Called(g, s, step.job, step.size, step.me, step.now);
      OpensNow(s.jobs[step.job], o) ==> Agrees(s, step.job, o.command.writer.value)
  }

  /** Versions are relied upon rightly in all of the run. */
  ghost predicate AlwaysAgreed(g: Setting, steps: seq<Step>)
    requires Sane(g)
  {
    var n := |steps| - 1;
    steps != [] ==> AlwaysAgreed(g, steps[..n]) && Agreed(g, After(g, steps[..n]), steps[n])
  }
}
