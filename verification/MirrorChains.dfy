/** The replication chain: each node that gets a write passes it on to the next of the key's locations. */
module MirrorChains {
  import opened Bytes
  import opened HashRings

  /** `mirror` and `copies` are of type `short`. */
  type Short = s: int | -0x8000 <= s < 0x8000

  /** A `short` compared with an `unsigned`. */
  function Unsigned(s: Short): nat {
    if s < 0 then s + 0x1_0000_0000 else s
  }

  /** What is left of a number stored in a `short`. */
  function ToShort(n: int): Short {
    (n + 0x8000) % 0x1_0000 - 0x8000
  }

  datatype Peer = Peer(uid: string)

  datatype Membership = Membership(self: Option<Peer>, peers: map<string, Peer>) {
    function Lookup(uid: string): Option<Peer> {
      if uid in peers then Some(peers[uid]) else None
    }
  }

  /** What travels with a write. */
  datatype Route = Route(mirror: Short, copies: Short, source: string)

  /** The first location from `next` on that is neither of these. */
  function NextOther(locs: seq<string>, next: nat, source: string, self: string): (k: nat)
    requires next <= |locs|
    ensures next <= k <= |locs|
    ensures forall i | next <= i < k :: locs[i] == source || locs[i] == self
    ensures k < |locs| ==> locs[k] != source && locs[k] != self
    decreases |locs| - next
  {
    if next == |locs| || (locs[next] != source && locs[next] != self) then next
    else NextOther(locs, next + 1, source, self)
  }

  /** The hop rule. The first node names itself as the source, even when it finds nobody to send to. */
  function Choice(m: Membership, locs: seq<string>, route: Route): (Route, Option<Peer>) {
    if Unsigned(route.mirror) >= Unsigned(route.copies) || m.self.None? then (route, None)
    else
      var named := if route.mirror == 0 then route.(source := m.self.value.uid) else route;
      var next := Unsigned(route.mirror);
      if next >= |locs| then (named, None)
      else
        var k := NextOther(locs, next, named.source, m.self.value.uid);
        if k == |locs| then (named, None)
        else
          match m.Lookup(locs[k])
          case None => (named, None)
          case Some(peer) =>
            if peer == m.self.value || peer.uid == named.source then (named, None)
            else (named.(mirror := ToShort(k + 1)), Some(peer))
  }

  class WriteInstructions {
    const name: string
    var route: Route
    /** The peer that the open stream leads to. */
    var outstream: Option<string>

    constructor (name: string, route: Route)
      ensures this.name == name && this.route == route && outstream == None
    {
      this.name, this.route, outstream := name, route, None;
    }
  }

  class MirrorToPeer {
    const locator: LocateKeys
    const membership: Membership

    constructor (locator: LocateKeys, membership: Membership)
      ensures this.locator == locator && this.membership == membership
    {
      this.locator, this.membership := locator, membership;
    }

    method ChooseMirror(params: WriteInstructions) returns (chosen: bool, peer: Option<Peer>)
      modifies params`route
      ensures var locs := locator.Locations(params.name, Unsigned(old(params.route.copies)));
        (params.route, if chosen then peer else None) == Choice(membership, locs, old(params.route))
      ensures chosen ==> peer.Some?
      // the first location that is neither the source nor this node, if it is a member that is neither
      ensures var (route, locs) := (old(params.route), locator.Locations(params.name, Unsigned(old(params.route.copies))));
        var asks := Unsigned(route.mirror) < Unsigned(route.copies) && membership.self.Some?;
        var source := if asks && route.mirror == 0 then membership.self.value.uid else route.source;
        && params.route.copies == route.copies && params.route.source == source
        && (chosen <==> asks && exists k | Unsigned(route.mirror) <= k < |locs| ::
              && locs[k] != source && locs[k] != membership.self.value.uid
              && (forall i | Unsigned(route.mirror) <= i < k :: locs[i] == source || locs[i] == membership.self.value.uid)
              && locs[k] in membership.peers && membership.peers[locs[k]] != membership.self.value
              && membership.peers[locs[k]].uid != source
              && peer == Some(membership.peers[locs[k]]) && params.route.mirror == ToShort(k + 1))
        && (!chosen ==> params.route.mirror == route.mirror)
    {
      peer := None;
      var next := Unsigned(params.route.mirror);
      if next >= Unsigned(params.route.copies) {
        return false, peer;
      }
      var locations := locator.Locations(params.name, Unsigned(params.route.copies));
      if membership.self.None? {
        return false, peer;
      }
      var self := membership.self.value;
      if params.route.mirror == 0 {
        params.route := params.route.(source := self.uid);
      }
      ghost var start := next;
      while next < |locations|
        invariant start <= next && (start <= |locations| ==> next <= |locations|)
        invariant next <= |locations| ==>
            NextOther(locations, start, params.route.source, self.uid) == NextOther(locations, next, params.route.source, self.uid)
      {
        var loc := locations[next];
        if loc == params.route.source || loc == self.uid {
          next := next + 1;
          continue;
        }
        peer := membership.Lookup(loc);
        break;
      }
      if peer.None? || peer.value == self || peer.value.uid == params.route.source {
        return false, peer;
      }
      params.route := params.route.(mirror := ToShort(next + 1));
      return true, peer;
    }
  }

  /** `ChainWrite::run`: a hop is opened once per write, and every window of the file is stored to it.
      `links` are the peers that a connection can be opened to. */
  class ChainWrite {
    const strategy: MirrorToPeer
    const links: set<string>

    constructor (strategy: MirrorToPeer, links: set<string>)
      ensures this.strategy == strategy && this.links == links
    {
      this.strategy, this.links := strategy, links;
    }

    /** Returns where the window goes, if anywhere. */
    method Run(params: WriteInstructions) returns (to: Option<string>)
      modifies params
      ensures to == params.outstream
      ensures old(params.outstream).Some? ==> params.outstream == old(params.outstream) && params.route == old(params.route)
      ensures old(params.outstream).None? ==>
          var locs := strategy.locator.Locations(params.name, Unsigned(old(params.route.copies)));
          var (route, peer) := Choice(strategy.membership, locs, old(params.route));
          && params.route == route
          && params.outstream == if peer.Some? && peer.value.uid in links then Some(peer.value.uid) else None
    {
      if params.outstream.None? {
        var chosen, peer := strategy.ChooseMirror(params);
        if !chosen {
          return None;
        }
        params.outstream := if peer.value.uid in links then Some(peer.value.uid) else None;
        if params.outstream.None? {
          return None;
        }
      }
      return params.outstream;
    }
  }

  /** Every choice moves strictly on and stays within the locations, so a chain ends. */
  lemma ChoiceAdvances(m: Membership, locs: seq<string>, route: Route)
    requires |locs| < 0x8000 && Choice(m, locs, route).1.Some?
    ensures var next := Choice(m, locs, route).0;
      0 <= Unsigned(route.mirror) < next.mirror as int <= |locs| && next.copies == route.copies
  {
  }

  /** A node on the way: what it received, and what its instructions say when it is done. */
  datatype Visit = Visit(peer: string, received: Route, left: Route)

  /** The visits of a write that `self` has, when all nodes agree on the members and the locations. */
  function Chain(peers: map<string, Peer>, locs: seq<string>, self: string, route: Route): seq<Visit>
    requires |locs| < 0x8000
    decreases |locs| - Unsigned(route.mirror)
  {
    var (next, peer) := Choice(Membership(Some(Peer(self)), peers), locs, route);
    if peer.None? then []
    else
      ChoiceAdvances(Membership(Some(Peer(self)), peers), locs, route);
      var left := Choice(Membership(Some(peer.value), peers), locs, next).0;
      [Visit(peer.value.uid, next, left)] + Chain(peers, locs, peer.value.uid, next)
  }

  function PeersOf(visits: seq<Visit>): (names: seq<string>)
    ensures |names| == |visits| && forall i | 0 <= i < |visits| :: names[i] == visits[i].peer
  {
    if visits == [] then [] else [visits[0].peer] + PeersOf(visits[1..])
  }

  function Without(locs: seq<string>, source: string): seq<string> {
    if locs == [] then []
    else (if locs[0] == source then [] else [locs[0]]) + Without(locs[1..], source)
  }

  predicate Distinct(locs: seq<string>) {
    forall i, j | 0 <= i < j < |locs| :: locs[i] != locs[j]
  }

  predicate Known(peers: map<string, Peer>, locs: seq<string>) {
    forall l <- locs :: l in peers && peers[l] == Peer(l)
  }

  lemma {:induction false} WithoutSkips(locs: seq<string>, source: string, lo: nat, hi: nat)
    requires lo <= hi <= |locs| && forall i | lo <= i < hi :: locs[i] == source
    ensures Without(locs[lo..], source) == Without(locs[hi..], source)
    decreases hi
  {
    if lo < hi {
      WithoutSkips(locs, source, lo, hi - 1);
      assert locs[hi - 1..][1..] == locs[hi..];
    }
  }

  /** A write on its way: the nodes it has been at are behind it. */
  ghost predicate OnItsWay(peers: map<string, Peer>, locs: seq<string>, self: string, route: Route) {
    && |locs| < 0x8000 && |locs| <= Unsigned(route.copies) && Distinct(locs) && Known(peers, locs)
    && 0 <= route.mirror <= |locs|
    && (route.mirror == 0 ==> route.source == self)
    && (self == route.source || self !in locs[route.mirror..])
  }

  /** One hop: to the next location that is not the source, or nowhere. */
  lemma NextHop(peers: map<string, Peer>, locs: seq<string>, self: string, route: Route) returns (k: nat)
    requires OnItsWay(peers, locs, self, route)
    ensures route.mirror <= k <= |locs|
    ensures k == |locs| ==>
        && Choice(Membership(Some(Peer(self)), peers), locs, route) == (route, None)
        && Without(locs[route.mirror..], route.source) == []
    ensures k < |locs| ==> var next := route.(mirror := k + 1);
        && Choice(Membership(Some(Peer(self)), peers), locs, route) == (next, Some(Peer(locs[k])))
        && OnItsWay(peers, locs, locs[k], next) && locs[k] != route.source
        && Without(locs[route.mirror..], route.source) == [locs[k]] + Without(locs[k + 1..], route.source)
  {
    hide Without;
    k := NextOther(locs, route.mirror, route.source, self);
    forall i | route.mirror <= i < k ensures locs[i] == route.source {
      assert locs[i] == locs[route.mirror..][i - route.mirror];
    }
    WithoutSkips(locs, route.source, route.mirror, k);
    WithoutKeeps(locs, route.source, k);
  }

  lemma WithoutKeeps(locs: seq<string>, source: string, k: nat)
    requires k <= |locs| && (k < |locs| ==> locs[k] != source)
    ensures Without(locs[k..], source) == if k == |locs| then [] else [locs[k]] + Without(locs[k + 1..], source)
  {
    if k < |locs| {
      assert locs[k..][1..] == locs[k + 1..];
    }
  }

  /** From a hop onwards: the rest of the locations, in order, without the source. */
  lemma {:induction false} ChainFrom(peers: map<string, Peer>, locs: seq<string>, self: string, route: Route)
    requires OnItsWay(peers, locs, self, route)
    ensures PeersOf(Chain(peers, locs, self, route)) == Without(locs[route.mirror..], route.source)
    decreases |locs| - route.mirror
  {
    hide Choice, NextOther, Without;
    var k := NextHop(peers, locs, self, route);
    if k < |locs| {
      ChainFrom(peers, locs, locs[k], route.(mirror := k + 1));
    }
  }

  lemma {:induction false} WithoutExactly(locs: seq<string>, source: string)
    requires Distinct(locs)
    ensures Distinct(Without(locs, source))
    ensures forall l :: l in Without(locs, source) <==> l in locs && l != source
  {
    if locs != [] {
      assert Distinct(locs[1..]);
      WithoutExactly(locs[1..], source);
      var rest := Without(locs[1..], source);
      assert Without(locs, source) == (if locs[0] == source then [] else [locs[0]]) + rest;
      assert locs == [locs[0]] + locs[1..] && locs[0] !in rest;
    }
  }

  lemma {:induction false} WithoutNothing(locs: seq<string>, source: string)
    requires Without(locs, source) == []
    ensures forall l <- locs :: l == source
  {
    if locs != [] {
      WithoutNothing(locs[1..], source);
      assert locs == [locs[0]] + locs[1..];
    }
  }

  /** A ring of distinct peers gives distinct locations. */
  lemma LocationsAreDistinct(ring: map<Pos, string>, p: Pos, limit: nat)
    requires forall a, b | a in ring && b in ring && a != b :: ring[a] != ring[b]
    ensures var locs := Peers(ring, p, limit);
      && Distinct(locs) && |locs| == (if limit <= |ring| then limit else |ring|)
      && forall l <- locs :: l in ring.Values
  {
    WalkVisitsNearest(ring.Keys, p, limit);
    PeersFollowWalk(ring, p, limit);
    var w, locs := Walk(ring.Keys, p, limit), Peers(ring, p, limit);
    forall i, j | 0 <= i < j < |locs| ensures locs[i] != locs[j] {
      assert w[i] != w[j];
    }
    assert |ring.Keys| == |ring|;
    forall l | l in locs ensures l in ring.Values {
      var i :| 0 <= i < |locs| && locs[i] == l;
      assert w[i] in ring.Keys;
    }
  }

  lemma SourceNamesItself(peers: map<string, Peer>, locs: seq<string>, source: string, copies: Short, given: string)
    requires |locs| < 0x8000
    ensures Chain(peers, locs, source, Route(0, copies, given)) == Chain(peers, locs, source, Route(0, copies, source))
  {
    hide NextOther;
  }

  /** A local write goes to its key's locations in ring order: to each except the source exactly once, and
      never back to the source, wherever the source is on the ring. */
  lemma ChainVisitsLocations(
    ring: map<Pos, string>, peers: map<string, Peer>, p: Pos, copies: Short, source: string, given: string)
    requires |ring| < 0x8000 && forall a, b | a in ring && b in ring && a != b :: ring[a] != ring[b]
    requires forall l <- ring.Values :: l in peers && peers[l] == Peer(l)
    ensures var locs := Peers(ring, p, Unsigned(copies));
      && |locs| < 0x8000
      && var visited := PeersOf(Chain(peers, locs, source, Route(0, copies, given)));
      && visited == Without(locs, source)
      && Distinct(visited)
      && forall l :: l in visited <==> l in locs && l != source
  {
    var locs := Peers(ring, p, Unsigned(copies));
    LocationsAreDistinct(ring, p, Unsigned(copies));
    WithoutExactly(locs, source);
    assert locs[0..] == locs;
    SourceNamesItself(peers, locs, source, copies, given);
    ChainFrom(peers, locs, source, Route(0, copies, source));
  }

  datatype Ack = Ack(to: string, size: nat)

  /** `NotifyWriteComplete`, which runs after the write has been passed on. */
  class NotifyWriteComplete {
    const membership: Membership

    constructor (membership: Membership)
      ensures this.membership == membership
    {
      this.membership := membership;
    }

    method Run(params: WriteInstructions, size: nat) returns (ack: Option<Ack>)
      ensures ack.Some? <==>
        && params.route.mirror >= params.route.copies && params.route.source != "" && params.route.source in membership.peers
      ensures ack.Some? ==> ack.value == Ack(membership.peers[params.route.source].uid, size)
    {
      ack := None;
      if params.route.mirror >= params.route.copies && params.route.source != "" {
        var source := membership.Lookup(params.route.source);
        if source.Some? {
          ack := Some(Ack(source.value.uid, size));
        }
      }
    }
  }

  predicate Acknowledged(route: Route) {
    route.mirror >= route.copies && route.source != ""
  }

  /** How far the write has come at each visit. */
  lemma {:induction false} HopsCount(peers: map<string, Peer>, locs: seq<string>, self: string, route: Route)
    requires OnItsWay(peers, locs, self, route)
    ensures var v := Chain(peers, locs, self, route);
      && (forall i | 0 <= i < |v| :: v[i].left.source == route.source && v[i].left.copies == route.copies)
      && (forall i | 0 <= i < |v| - 1 :: v[i].left.mirror == v[i + 1].received.mirror)
      && (forall i | 0 <= i < |v| :: v[i].received.mirror as int <= if i < |v| - 1 then |locs| - 1 else |locs|)
      && (v != [] ==>
            && v[|v| - 1].left.mirror == v[|v| - 1].received.mirror
            && (v[|v| - 1].received.mirror as int == |locs| <==> locs[|locs| - 1] != route.source))
    decreases |locs| - route.mirror
  {
    hide Choice, NextOther, Without;
    var k := NextHop(peers, locs, self, route);
    if k < |locs| {
      var next := route.(mirror := k + 1);
      var tail := Chain(peers, locs, locs[k], next);
      var v := Chain(peers, locs, self, route);
      assert v[1..] == tail && v[0].received == next;
      HopsCount(peers, locs, locs[k], next);
      var l := NextHop(peers, locs, locs[k], next);
      if l < |locs| {
        assert tail != [] && v[|v| - 1] == tail[|tail| - 1];
      } else if k + 1 < |locs| {
        assert tail == [];
        WithoutNothing(locs[k + 1..], route.source);
        assert locs[|locs| - 1] == locs[k + 1..][|locs| - k - 2];
        assert locs[|locs| - 1] in locs[k + 1..];
      }
    }
  }

  /** Who acknowledges a local write: if the key has as many locations as copies and the source is not the last
      of them, the last node the write comes to, and the one before it, which has passed it on by the time it
      looks; in all other cases nobody. */
  lemma LastTwoAcknowledge(
    ring: map<Pos, string>, peers: map<string, Peer>, p: Pos, copies: Short, source: string, given: string, i: nat)
    requires |ring| < 0x8000 && forall a, b | a in ring && b in ring && a != b :: ring[a] != ring[b]
    requires forall l <- ring.Values :: l in peers && peers[l] == Peer(l)
    requires copies >= 1 && source != ""
    requires |Peers(ring, p, copies)| < 0x8000
    requires i < |Chain(peers, Peers(ring, p, copies), source, Route(0, copies, given))|
    ensures var locs := Peers(ring, p, copies);
      var visits := Chain(peers, locs, source, Route(0, copies, given));
      Acknowledged(visits[i].left) <==> |locs| == copies as int && locs[copies - 1] != source && i + 2 >= |visits|
  {
    hide Without, Chain, Peers, Choice;
    var locs := Peers(ring, p, copies);
    LocationsAreDistinct(ring, p, copies);
    SourceNamesItself(peers, locs, source, copies, given);
    HopsCount(peers, locs, source, Route(0, copies, source));
    var v := Chain(peers, locs, source, Route(0, copies, given));
    assert v[i].left.copies == copies && v[i].left.source == source;
    if i + 1 < |v| {
      assert v[i].left.mirror == v[i + 1].received.mirror;
    }
  }

  const THREE_PEERS := map["a" := Peer("a"), "b" := Peer("b"), "x" := Peer("x")]

  /** A node that is not among the two locations starts a write: both of them acknowledge it. */
  lemma TwoAcknowledge()
    ensures Chain(THREE_PEERS, ["a", "b"], "x", Route(0, 2, "")) ==
      [Visit("a", Route(1, 2, "x"), Route(2, 2, "x")), Visit("b", Route(2, 2, "x"), Route(2, 2, "x"))]
    ensures Acknowledged(Route(2, 2, "x"))
  {
    var locs := ["a", "b"];
    assert "a"[0] != "x"[0] && "b"[0] != "x"[0] && "a"[0] != "b"[0];
    assert NextOther(locs, 0, "x", "x") == 0 && NextOther(locs, 1, "x", "a") == 1 && NextOther(locs, 1, "x", "x") == 1;
    hide NextOther;
    assert Choice(Membership(Some(Peer("x")), THREE_PEERS), locs, Route(0, 2, "")) == (Route(1, 2, "x"), Some(Peer("a")));
    assert Choice(Membership(Some(Peer("a")), THREE_PEERS), locs, Route(1, 2, "x")) == (Route(2, 2, "x"), Some(Peer("b")));
    assert Choice(Membership(Some(Peer("b")), THREE_PEERS), locs, Route(2, 2, "x")) == (Route(2, 2, "x"), None);
    hide Choice;
    assert Chain(THREE_PEERS, locs, "b", Route(2, 2, "x")) == [];
    assert Chain(THREE_PEERS, locs, "a", Route(1, 2, "x")) == [Visit("b", Route(2, 2, "x"), Route(2, 2, "x"))];
  }

  /** A node that is the second of the two locations starts a write: the first one gets it and acknowledges nothing,
      and there is nobody else. */
  lemma NobodyAcknowledges()
    ensures Chain(THREE_PEERS, ["a", "x"], "x", Route(0, 2, "")) == [Visit("a", Route(1, 2, "x"), Route(1, 2, "x"))]
    ensures !Acknowledged(Route(1, 2, "x"))
  {
    var locs := ["a", "x"];
    assert "a"[0] != "x"[0];
    assert NextOther(locs, 0, "x", "x") == 0 && NextOther(locs, 2, "x", "a") == 2 && NextOther(locs, 1, "x", "a") == 2;
    hide NextOther;
    assert Choice(Membership(Some(Peer("x")), THREE_PEERS), locs, Route(0, 2, "")) == (Route(1, 2, "x"), Some(Peer("a")));
    assert Choice(Membership(Some(Peer("a")), THREE_PEERS), locs, Route(1, 2, "x")) == (Route(1, 2, "x"), None);
    hide Choice;
    assert Chain(THREE_PEERS, locs, "a", Route(1, 2, "x")) == [];
  }
}
