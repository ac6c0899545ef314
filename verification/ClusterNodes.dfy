/** The steps of a cluster are what its nodes do: each is carried out by the classes that the nodes are made of, on a
    node whose directory of the key is the one in the cluster. */
module ClusterNodes {
  import opened Bytes
  import opened VectorClocks
  import opened FileStores
  import opened HashRings
  import opened WriteCommands
  import opened MirrorChains
  import opened SkewCorrectors
  import Clusters

  type Cluster = Clusters.Cluster
  type Setting = Clusters.Setting
  type Message = Clusters.Message

  // ---- locations ----

  lemma {:induction false} PeersBegin(ring: map<Pos, string>, p: Pos, few: nat, many: nat)
    requires few <= many
    ensures Peers(ring, p, few) <= Peers(ring, p, many)
    decreases few
  {
    if few != 0 && ring != map[] {
      OwnerIn(ring.Keys, p);
      PeersBegin(ring - {Owner(ring.Keys, p)}, p, few - 1, many - 1);
    }
  }

  lemma PeersCount(ring: map<Pos, string>, p: Pos, limit: nat)
    ensures |Peers(ring, p, limit)| == if limit <= |ring| then limit else |ring|
  {
    PeersFollowWalk(ring, p, limit);
    WalkVisitsNearest(ring.Keys, p, limit);
    assert |ring.Keys| == |ring|;
  }

  /** The nodes are listed as a walk around this ring meets them. */
  ghost predicate Around(g: Setting, ring: map<Pos, string>, p: Pos) {
    g.ring == Peers(ring, p, |ring|)
  }

  /** Then a write's locations are the ones that the ring gives. */
  lemma LocationsOfRing(g: Setting, ring: map<Pos, string>, p: Pos, copies: nat)
    requires Around(g, ring, p)
    ensures Clusters.Locations(g, copies) == Peers(ring, p, copies)
  {
    PeersCount(ring, p, copies);
    PeersCount(ring, p, |ring|);
    if copies <= |ring| {
      PeersBegin(ring, p, copies, |ring|);
    } else {
      PeersBegin(ring, p, |ring|, copies);
    }
  }

  /** And a key is a node's own as distances on the ring have it. */
  lemma MineOnRing(g: Setting, ring: map<Pos, string>, p: Pos, node: string, copies: nat)
    requires Around(g, ring, p)
    ensures Clusters.IsMine(g, node, copies) <==> KeepsAt(ring, p, copies, Some(node))
  {
    LocationsOfRing(g, ring, p, copies);
    PeersAreNear(ring, p, copies, node);
    hide Nearer, Peers, Clusters.Locations;
  }

  // ---- messages ----

  /** The messages that a node has sent. */
  ghost function Posted(node: string, sent: seq<Sent>): set<Message> {
    set m | m in sent && !m.Sent? ::
      if m.Offer? then Clusters.OfferWrite(node, m.peer, m.version, m.source)
      else Clusters.DemandWrite(node, m.peer, m.version, m.source)
  }

  /** `OfferWriteCommand` at a node takes the offer. */
  method TakesOffer(g: Setting, s: Cluster, m: Message, corrector: SkewCorrector) returns (ghost sent: seq<Sent>)
    requires m.OfferWrite? && corrector.store.Home(g.name) == Clusters.Home(s, m.dst)
    modifies corrector`outbox
    ensures corrector.outbox == old(corrector.outbox) + sent
    ensures Clusters.OfferTaken(s, m) == s.(messages := s.messages + Posted(m.dst, sent))
  {
    var wanted := corrector.TakeOffer(m.src, g.name, m.version, m.source);
    sent := if wanted then [Demand(m.src, g.name, m.version, m.source)] else [];
    assert Posted(m.dst, sent) == if wanted then {Clusters.DemandWrite(m.dst, m.src, m.version, m.source)} else {};
    if !wanted {
      assert s.messages + {} == s.messages;
    }
  }

  /** `DemandWriteCommand` at a node sends what a new stream then carries. */
  method TakesDemand(g: Setting, s: Cluster, m: Message, out: nat, corrector: SkewCorrector) returns (found: bool)
    requires m.DemandWrite? && m.version != UNVERSIONED && corrector.store.Home(g.name) == Clusters.Home(s, m.dst)
    requires out !in s.streams && forall v <- corrector.store.Home(g.name).done :: corrector.store.Home(g.name).done[v].copies < 256
    modifies corrector`outbox
    ensures found <==> m.version in Clusters.Home(s, m.dst).done
    ensures var t := Clusters.DemandTaken(s, m, out);
      if !found then t == s && corrector.outbox == old(corrector.outbox)
      else
        && t == s.(streams := t.streams) && out in t.streams && t.streams == s.streams[out := t.streams[out]]
        && var st := t.streams[out];
        && corrector.outbox == old(corrector.outbox)
             + [Sent(st.dst, g.name, st.version, Unsigned(st.route.copies), Unsigned(st.route.mirror), st.route.source, st.sent)]
        && st.closed && st.offset == 0 && !st.local
  {
    found := corrector.SendKey(m.src, g.name, m.version, m.source);
  }

  /** `AckWriteCommand` at a node takes the acknowledgement. */
  method TakesAck(g: Setting, s: Cluster, m: Message, corrector: SkewCorrector, locator: LocateKeys)
    requires m.AckWrite? && m.version != UNVERSIONED && corrector.store.Valid()
    requires corrector.store.Home(g.name) == Clusters.Home(s, m.dst) && locator.self == Some(m.dst)
    requires Around(g, locator.ring.ring, locator.ring.position(g.name))
    modifies corrector`drops, corrector.store
    ensures corrector.store.Home(g.name) == Clusters.Home(Clusters.AckTaken(g, s, m), m.dst)
    ensures Clusters.AckTaken(g, s, m) == s.(homes := Clusters.AckTaken(g, s, m).homes)
    ensures forall n | n != m.dst :: Clusters.Home(Clusters.AckTaken(g, s, m), n) == Clusters.Home(s, n)
  {
    hide Consistent, KeepsAt, Around, Clusters.IsMine, Clusters.Drops, DropsOn, Found;
    corrector.HomeConsistent(g.name);
    AckIs(g, s, m, locator.ring.ring, locator.ring.position(g.name));
    var matched := corrector.TakeAck(locator, g.name, m.version, m.size);
  }

  /** What an acknowledgement does in the cluster, by distance on the ring. */
  lemma AckIs(g: Setting, s: Cluster, m: Message, ring: map<Pos, string>, p: Pos)
    requires m.AckWrite? && m.version != UNVERSIONED && Around(g, ring, p) && Consistent(Clusters.Home(s, m.dst))
    ensures var d := Clusters.Home(s, m.dst);
      var due := d.done.Keys == {m.version} && |d.done[m.version].data| == m.size
        && !KeepsAt(ring, p, d.done[m.version].copies, Some(m.dst));
      Clusters.AckTaken(g, s, m) == if due then s.(homes := s.homes - {m.dst}) else s
  {
    hide Consistent, KeepsAt, Around, Clusters.IsMine, DropsOn;
    var d := Clusters.Home(s, m.dst);
    if m.version in d.done {
      MineOnRing(g, ring, p, m.dst, d.done[m.version].copies);
      OnlyTheAcknowledgedIsDropped(d, m.version, m.size, Clusters.IsMine(g, m.dst, d.done[m.version].copies));
    }
  }

  /** Pushing the key, which has not expired, offers exactly the versions that the node can offer in the cluster. It is
      offloaded from a tree that is not the node's own, to a location of the tree's keys. */
  method Offers(g: Setting, s: Cluster, node: string, peer: string, offload: Option<nat>, corrector: SkewCorrector)
    returns (ghost sent: seq<Sent>)
    requires corrector.store.Valid() && corrector.store.Home(g.name) == Clusters.Home(s, node)
    requires offload.Some? ==> !Clusters.IsMine(g, node, offload.value) && peer in Clusters.Locations(g, offload.value)
    modifies corrector, corrector.store
    ensures corrector.outbox == old(corrector.outbox) + sent && corrector.store.Home(g.name) == Clusters.Home(s, node)
    ensures var source := if offload.Some? then node else "";
      forall v :: Clusters.Offered(g, s, node, peer, v, offload) ==
        if Offer(peer, g.name, v, source) in sent
        then s.(messages := s.messages + {Clusters.OfferWrite(node, peer, v, source)}) else s
  {
    ghost var told;
    sent, told := corrector.PushKeyRange(peer, [g.name], if offload.Some? then node else "", _ => false);
  }

  // ---- hops and acknowledgements ----

  /** `ChainWrite` at a node chooses the hop that the write takes in the cluster. */
  method Hops(g: Setting, node: string, params: WriteInstructions, chain: ChainWrite) returns (to: Option<string>)
    requires params.name == g.name && params.outstream == None
    requires chain.strategy.membership == Membership(Some(Peer(node)), g.peers)
    requires var locator := chain.strategy.locator; Around(g, locator.ring.ring, locator.ring.position(g.name))
    modifies params
    ensures var (route, peer) := Clusters.Hop(g, node, old(params.route));
      && params.route == route && params.outstream == to
      && to == if peer.Some? && peer.value.uid in chain.links then Some(peer.value.uid) else None
  {
    var locator := chain.strategy.locator;
    LocationsOfRing(g, locator.ring.ring, locator.ring.position(g.name), Unsigned(params.route.copies));
    to := chain.Run(params);
  }

  /** `NotifyWriteComplete` at a node acknowledges what is acknowledged in the cluster. */
  method Acknowledges(g: Setting, node: string, version: Clock, params: WriteInstructions, size: nat, notify: NotifyWriteComplete)
    returns (ack: Option<Ack>)
    requires notify.membership.peers == g.peers
    ensures Clusters.Acks(g, node, params.route, version, size)
         == if ack.Some? then {Clusters.AckWrite(node, ack.value.to, version, ack.value.size)} else {}
  {
    ack := notify.Run(params, size);
  }

  /** The commit callback of a command at a node, which passes the window on and then, if the write came from another
      node, acknowledges it: what a connection can be opened to is what `link` says. */
  method CallsBack(
    g: Setting, s: Cluster, job: nat, notice: Notice, contents: seq<Byte>, link: bool, out: nat,
    params: WriteInstructions, chain: ChainWrite, notify: NotifyWriteComplete) returns (to: Option<string>, ack: Option<Ack>)
    requires job in s.jobs && s.jobs[job].inlet in s.streams && s.jobs[job].command.writer.Some? && out !in s.streams
    requires s.jobs[job].outlet.Some? ==> s.jobs[job].outlet.value in s.streams
    requires params.name == g.name && params.route == s.jobs[job].route
    requires params.outstream ==
      if s.jobs[job].outlet.Some? then Some(s.streams[s.jobs[job].outlet.value].dst) else None
    requires var node := s.streams[s.jobs[job].inlet].dst;
      && chain.strategy.membership == Membership(Some(Peer(node)), g.peers) && notify.membership.peers == g.peers
      && var peer := Clusters.Hop(g, node, s.jobs[job].route).1;
         peer.Some? ==> (peer.value.uid in chain.links <==> link)
    requires var locator := chain.strategy.locator; Around(g, locator.ring.ring, locator.ring.position(g.name))
    modifies params
    ensures var (t, st, v) := (Clusters.CalledBack(g, s, job, notice, contents, link, out),
                               s.streams[s.jobs[job].inlet], s.jobs[job].command.writer.value);
      && t.jobs[job].route == params.route
      && t.messages == s.messages
           + (if ack.Some? then {Clusters.AckWrite(st.dst, ack.value.to, v, ack.value.size)} else {})
      && (st.local ==> ack == None)
      && (to.Some? <==> t.jobs[job].outlet.Some?)
      && (to.Some? ==>
            var k := t.jobs[job].outlet.value;
            && k in t.streams && t.streams[k].dst == to.value && t.streams[k].closed == notice.isComplete
            && t.streams[k].sent == (if k in s.streams then s.streams[k].sent else [])
                 + contents[Clusters.From(notice.offset, contents)..]
            && (k == out || s.jobs[job].outlet == Some(k)))
      && (forall k <- s.streams :: k in t.streams && (to == None || t.jobs[job].outlet != Some(k) ==> t.streams[k] == s.streams[k]))
  {
    hide Clusters.Hop, Clusters.Acks, Clusters.From, Clusters.Given, Around;
    var st := s.streams[s.jobs[job].inlet];
    if params.outstream == None {
      to := Hops(g, st.dst, params, chain);
    } else {
      to := chain.Run(params);
    }
    ack := None;
    if !st.local {
      ack := Acknowledges(g, st.dst, s.jobs[job].command.writer.value, params, notice.size, notify);
    }
  }

  // ---- calls of a command ----

  /** `WriteCommand` at a node runs as in the cluster, before any callback, unless it is astray or a chunk is longer
      than a window. */
  method Runs(
    g: Setting, s: Cluster, job: nat, size: nat, me: string, now: nat, command: WriteCommand)
    returns (ok: bool, ghost o: Outcome)
    requires Clusters.CanFeed(s, job, size) && !Clusters.Astray(s, job)
    requires command.Valid() && command.store.hash == g.hash && command.State() == s.jobs[job].command
    requires command.instructions.name == g.name && command.bytesSinceLastFlush <= WINDOW
    requires command.Home() == Clusters.Home(s, s.streams[s.jobs[job].inlet].dst)
    modifies command, command.store
    ensures o == Clusters.Called(g, s, job, size, me, now) && ok == o.ok
    ensures command.State() == o.command && command.Home() == o.home
    ensures command.notices == old(command.notices) + o.notices
  {
    o := Clusters.Called(g, s, job, size, me, now);
    var overrun;
    ok, overrun := command.Run(Clusters.Chunk(s, job, size), Surroundings(false, me, now));
  }
}
