/** The consistent hash ring: nodes sit at the positions their names hash to, and a key belongs to the first
    node at or after its own position, wrapping around. */
module HashRings {
  import opened Bytes

  const POSITIONS := 0x1_0000_0000_0000_0000

  /** A place on the ring: the first eight bytes of a hash, read in big-endian order, which is the order
      hashes compare in as strings.  Names in use are taken to hash to different places. */
  type Pos = p: int | 0 <= p < POSITIONS

  /** A section of the ring is named by the node that ends it; "" names the one section of an empty ring
      and sorts before every hash. */
  type Section = s: int | -1 <= s < POSITIONS

  const NO_SECTION: Section := -1

  /** `circular_map::lower_bound`: the first node at or after `p`, or the first of all. */
  predicate LowerBound(nodes: set<Pos>, p: Pos, n: Pos) {
    && n in nodes
    && if p <= n then forall m <- nodes :: p <= m ==> n <= m
       else forall m <- nodes :: m < p && n <= m
  }

  lemma {:induction false} Least(places: set<Section>) returns (least: Section)
    requires places != {}
    ensures least in places && forall m <- places :: least <= m
    decreases |places|
  {
    var n :| n in places;
    var rest := places - {n};
    assert places == rest + {n};
    if rest == {} {
      least := n;
    } else {
      var k := Least(rest);
      least := if k < n then k else n;
    }
  }

  lemma LowerBoundExists(nodes: set<Pos>, p: Pos)
    requires nodes != {}
    ensures exists n :: n in nodes && LowerBound(nodes, p, n)
  {
    var above := set m | m in nodes && p <= m;
    if above != {} {
      var n := Least(above);
      assert forall m <- nodes :: p <= m ==> m in above;
      assert LowerBound(nodes, p, n);
    } else {
      var n := Least(nodes);
      assert forall m <- nodes :: m !in above;
      assert LowerBound(nodes, p, n);
    }
  }

  /** `nodeId`: the section a position belongs to. */
  function Owner(nodes: set<Pos>, p: Pos): Section {
    if nodes == {} then NO_SECTION
    else
      LowerBoundExists(nodes, p);
      var n :| n in nodes && LowerBound(nodes, p, n);
      n
  }

  lemma OwnerIs(nodes: set<Pos>, p: Pos, n: Pos)
    requires LowerBound(nodes, p, n)
    ensures Owner(nodes, p) == n
  {
  }

  lemma OwnerBound(nodes: set<Pos>, p: Pos) returns (n: Pos)
    requires nodes != {}
    ensures n == Owner(nodes, p) && LowerBound(nodes, p, n)
  {
    LowerBoundExists(nodes, p);
    n := Owner(nodes, p);
  }

  /** The first `limit` nodes clockwise from `p`. */
  function Walk(nodes: set<Pos>, p: Pos, limit: nat): seq<Pos>
    decreases limit
  {
    if limit == 0 || nodes == {} then []
    else [Owner(nodes, p)] + Walk(nodes - {Owner(nodes, p)}, p, limit - 1)
  }

  /** How far a node lies ahead of a position, going clockwise. */
  function Ahead(p: Pos, n: Pos): nat {
    if p <= n then n - p else n - p + POSITIONS
  }

  /** Wrapping lower bound means nearest clockwise. */
  lemma OwnerIsNearest(nodes: set<Pos>, p: Pos, n: Pos)
    requires n in nodes
    ensures Owner(nodes, p) == n <==> forall m <- nodes :: Ahead(p, n) <= Ahead(p, m)
  {
    var o := OwnerBound(nodes, p);
    assert Ahead(p, o) <= Ahead(p, n);
  }

  lemma OwnerIsNearestOf(nodes: set<Pos>, p: Pos) returns (o: Pos)
    requires nodes != {}
    ensures o == Owner(nodes, p) && o in nodes && forall m <- nodes :: Ahead(p, o) <= Ahead(p, m)
  {
    o := OwnerBound(nodes, p);
    OwnerIsNearest(nodes, p, o);
  }

  /** The walk visits distinct nodes, nearest first, and stops only at its limit or when it has been round:
      every node it leaves out is farther than every node it visits. */
  lemma {:induction false} WalkVisitsNearest(nodes: set<Pos>, p: Pos, limit: nat)
    ensures var w := Walk(nodes, p, limit);
      && |w| == (if limit <= |nodes| then limit else |nodes|)
      && (forall i | 0 <= i < |w| :: w[i] in nodes)
      && (forall i, j | 0 <= i < j < |w| :: Ahead(p, w[i]) < Ahead(p, w[j]))
      && (forall i, m | 0 <= i < |w| && m in nodes && m !in w :: Ahead(p, w[i]) < Ahead(p, m))
    decreases limit
  {
    if limit != 0 && nodes != {} {
      var o := OwnerIsNearestOf(nodes, p);
      var rest := nodes - {o};
      WalkVisitsNearest(rest, p, limit - 1);
      var w := Walk(nodes, p, limit);
      assert w == [o] + Walk(rest, p, limit - 1);
      assert |rest| == |nodes| - 1;
      forall m | m in rest ensures Ahead(p, o) < Ahead(p, m) {
        assert Ahead(p, o) <= Ahead(p, m);
      }
      forall i, m | 0 <= i < |w| && m in nodes && m !in w ensures Ahead(p, w[i]) < Ahead(p, m) {
        assert m in rest && m !in Walk(rest, p, limit - 1);
      }
    }
  }

  /** The nodes that lie less far ahead of a position than this one. */
  ghost function Nearer(nodes: set<Pos>, p: Pos, n: Pos): set<Pos> {
    set m | m in nodes && Ahead(p, m) < Ahead(p, n)
  }

  /** A node is visited exactly if fewer than `limit` others are nearer. */
  lemma {:induction false} VisitedIffNear(nodes: set<Pos>, p: Pos, limit: nat, n: Pos)
    ensures n in Walk(nodes, p, limit) <==> n in nodes && |Nearer(nodes, p, n)| < limit
    decreases limit
  {
    if limit != 0 && nodes != {} {
      var o := OwnerIsNearestOf(nodes, p);
      var rest := nodes - {o};
      assert Walk(nodes, p, limit) == [o] + Walk(rest, p, limit - 1);
      if n == o {
        assert Nearer(nodes, p, n) == {};
      } else if n in nodes {
        VisitedIffNear(rest, p, limit - 1, n);
        assert Ahead(p, o) < Ahead(p, n);
        assert Nearer(nodes, p, n) == Nearer(rest, p, n) + {o};
      } else {
        VisitedIffNear(rest, p, limit - 1, n);
      }
    }
  }

  /** Looking a section up by its own id gives the locations of every key in it. */
  lemma {:induction false} SectionLocations(nodes: set<Pos>, part: set<Pos>, p: Pos, o: Pos, limit: nat)
    requires o in nodes && Owner(nodes, p) == o && part <= nodes
    ensures Walk(part, o, limit) == Walk(part, p, limit)
    decreases limit
  {
    if limit != 0 && part != {} {
      var near := OwnerIsNearestOf(part, o);
      OwnerIsNearest(nodes, p, o);
      forall m | m in part ensures Ahead(p, near) <= Ahead(p, m) {
        assert Ahead(p, o) <= Ahead(p, near) && Ahead(p, o) <= Ahead(p, m);
        assert Ahead(o, near) <= Ahead(o, m);
      }
      OwnerIsNearest(part, p, near);
      SectionLocations(nodes, part - {near}, p, o, limit - 1);
    }
  }

  lemma OwnerIn(nodes: set<Pos>, p: Pos)
    requires nodes != {}
    ensures Owner(nodes, p) in nodes
  {
    var n := OwnerBound(nodes, p);
  }

  /** The peers of the first `limit` nodes clockwise from `p`. */
  function Peers(ring: map<Pos, string>, p: Pos, limit: nat): seq<string>
    decreases limit
  {
    if limit == 0 || ring == map[] then []
    else
      OwnerIn(ring.Keys, p);
      [ring[Owner(ring.Keys, p)]] + Peers(ring - {Owner(ring.Keys, p)}, p, limit - 1)
  }

  lemma {:induction false} PeersFollowWalk(ring: map<Pos, string>, p: Pos, limit: nat)
    ensures var (w, peers) := (Walk(ring.Keys, p, limit), Peers(ring, p, limit));
      |w| == |peers| && forall i | 0 <= i < |w| :: w[i] in ring && peers[i] == ring[w[i]]
    decreases limit
  {
    if limit != 0 && ring != map[] {
      OwnerIn(ring.Keys, p);
      var o := Owner(ring.Keys, p);
      assert (ring - {o}).Keys == ring.Keys - {o};
      PeersFollowWalk(ring - {o}, p, limit - 1);
    }
  }

  /** A peer keeps what lies at a position if one of its nodes is among the `limit` nearest ahead; and whoever asks
      keeps it if there are none. */
  ghost predicate KeepsAt(ring: map<Pos, string>, p: Pos, limit: nat, self: Option<string>) {
    || ring == map[] || limit == 0
    || (self.Some? && exists n <- ring :: ring[n] == self.value && |Nearer(ring.Keys, p, n)| < limit)
  }

  /** The peers of the walk are those of the nodes among the nearest. */
  lemma PeersAreNear(ring: map<Pos, string>, p: Pos, limit: nat, peer: string)
    ensures peer in Peers(ring, p, limit) <==> exists n <- ring :: ring[n] == peer && |Nearer(ring.Keys, p, n)| < limit
    ensures Peers(ring, p, limit) == [] <==> ring == map[] || limit == 0
  {
    var w, peers := Walk(ring.Keys, p, limit), Peers(ring, p, limit);
    PeersFollowWalk(ring, p, limit);
    hide Walk, Nearer;
    if peer in peers {
      var i :| 0 <= i < |peers| && peers[i] == peer;
      VisitedIffNear(ring.Keys, p, limit, w[i]);
    }
    if n :| n in ring && ring[n] == peer && |Nearer(ring.Keys, p, n)| < limit {
      VisitedIffNear(ring.Keys, p, limit, n);
      var i :| 0 <= i < |w| && w[i] == n;
      assert peers[i] == peer;
    }
  }

  class ConsistentHashRing {
    /** `Hash(name).str()`. */
    const position: string -> Pos
    var ring: map<Pos, string>

    constructor (position: string -> Pos)
      ensures this.position == position && ring == map[]
    {
      this.position, ring := position, map[];
    }

    method Insert(node: string, peer: string) returns (done: bool)
      modifies this
      ensures done && ring == old(ring)[position(node) := peer]
    {
      ring := ring[position(node) := peer];
      done := true;
    }

    method Erase(node: string) returns (erased: bool)
      modifies this
      ensures erased == (position(node) in old(ring)) && ring == old(ring) - {position(node)}
    {
      erased := position(node) in ring;
      ring := ring - {position(node)};
    }

    function NodeId(key: Pos): Section
      reads this
    {
      Owner(ring.Keys, key)
    }

    method Locations(key: Pos, limit: nat) returns (locs: seq<string>)
      ensures locs == Peers(ring, key, limit)
    {
      locs := [];
      var left := ring;
      while |locs| < limit && left != map[]
        invariant |locs| <= limit
        invariant locs + Peers(left, key, limit - |locs|) == Peers(ring, key, limit)
        decreases |left|
      {
        OwnerIn(left.Keys, key);
        var node := Owner(left.Keys, key);
        locs := locs + [left[node]];
        left := left - {node};
      }
    }
  }

  /** `LocateKeys`: the ring as one node sees it. */
  class LocateKeys {
    const ring: ConsistentHashRing
    /** This node's id, once it knows it. */
    var self: Option<string>

    constructor (ring: ConsistentHashRing, self: Option<string>)
      ensures this.ring == ring && this.self == self
    {
      this.ring, this.self := ring, self;
    }

    function SectionOf(name: string): Section
      reads this, ring
    {
      ring.NodeId(ring.position(name))
    }

    function Locations(name: string, limit: nat): seq<string>
      reads this, ring
    {
      Peers(ring.ring, ring.position(name), limit)
    }

    /** A node keeps what it is a location of, and everything while the ring is empty. */
    predicate ContainsSelf(locations: seq<string>)
      reads this
    {
      self.Some? && self.value in locations
    }

    predicate KeyIsMine(name: string, limit: nat)
      reads this, ring
    {
      var locations := Locations(name, limit);
      locations == [] || ContainsSelf(locations)
    }

    predicate SectionIsMine(section: Section, limit: nat)
      reads this, ring
    {
      var locations := Peers(ring.ring, if section == NO_SECTION then 0 else section, limit);
      locations == [] || ContainsSelf(locations)
    }

    /** A key is the node's own exactly if the node is among the nearest ahead of it, or there is nobody. */
    lemma KeyIsMineIffNear(name: string, limit: nat)
      ensures KeyIsMine(name, limit) <==> KeepsAt(ring.ring, ring.position(name), limit, self)
    {
      PeersAreNear(ring.ring, ring.position(name), limit, if self.Some? then self.value else "");
      hide Nearer;
    }

    /** So it is with a section, which lies where the node does that ends it. */
    lemma SectionIsMineIffNear(section: Section, limit: nat)
      ensures SectionIsMine(section, limit) <==>
        KeepsAt(ring.ring, if section == NO_SECTION then 0 else section, limit, self)
    {
      PeersAreNear(ring.ring, if section == NO_SECTION then 0 else section, limit, if self.Some? then self.value else "");
      hide Nearer;
    }

    /** A section's tree is wanted exactly when each of its keys is this node's to keep. */
    lemma SectionIsMineIffItsKeysAre(name: string, limit: nat)
      ensures SectionIsMine(SectionOf(name), limit) <==> KeyIsMine(name, limit)
    {
      var p := ring.position(name);
      if ring.ring != map[] {
        OwnerIn(ring.ring.Keys, p);
        var o := SectionOf(name);
        SectionLocations(ring.ring.Keys, ring.ring.Keys, p, o, limit);
        PeersFollowWalk(ring.ring, p, limit);
        PeersFollowWalk(ring.ring, o, limit);
        assert Peers(ring.ring, p, limit) == Peers(ring.ring, o, limit);
      }
    }
  }
}
