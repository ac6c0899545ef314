/** `ModifyPeer`: a membership change reaches the ring and the digest index. */
module ModifyPeers {
  import opened Bytes
  import opened HashRings
  import opened DigestIndexers
  import opened Placement

  class ModifyPeer {
    const ring: ConsistentHashRing
    const index: DigestIndexer
    /** The peers this node knows, itself included. */
    var members: set<string>

    constructor (ring: ConsistentHashRing, index: DigestIndexer, members: set<string>)
      requires index.Valid() && index.locator.ring == ring
      requires ring.ring.Keys == set m | m in members :: ring.position(m)
      ensures Valid() && this.ring == ring && this.index == index && this.members == members
    {
      this.ring, this.index, this.members := ring, index, members;
    }

    ghost predicate Valid()
      reads this, ring, index
    {
      index.Valid() && index.locator.ring == ring && ring.ring.Keys == set m | m in members :: ring.position(m)
    }

    function Nodes(): set<Pos>
      reads ring
    {
      ring.ring.Keys
    }

    /** A peer joins: the ring first, then the index.  Every key stays in its owner's tree exactly if the
        join strands none. */
    method Update(uid: string, stray: Pos, ghost flat: Leaves) returns (done: bool)
      requires Valid()
      modifies this, ring, index
      ensures Valid() && done && members == old(members) + {uid}
      ensures Nodes() == old(Nodes()) + {ring.position(uid)}
      ensures ring.ring == if uid in old(members) then old(ring.ring) else old(ring.ring)[ring.position(uid) := uid]
      ensures uid in old(members) ==> index.State() == old(index.State())
      ensures uid !in old(members) ==> exists mine ::
        index.State() == Split(old(index.State()), ring.position(uid), mine, ring.position(uid), stray)
      ensures uid !in old(members) ==> forall s <- index.forest :: s !in old(index.forest) ==> index.Classified(s)
      ensures var (x, n) := (ring.position(uid), Node(old(Nodes()), old(index.State())));
        uid !in old(members) && x !in n.nodes && old(Indexes(Nodes(), index.forest, flat)) ==>
          (Indexes(Nodes(), index.forest, flat) <==> JoinsWell(n, flat, x, stray))
    {
      done := true;
      var isNew := uid !in members;
      members := members + {uid};
      if !isNew {
        return;
      }
      ghost var x, nodes, before := ring.position(uid), Nodes(), index.State();
      var inserted := ring.Insert(uid, uid);
      OwnerIs(nodes + {x}, x, x);
      ghost var mine := index.Mine(x);
      index.SplitSection(uid, stray);
      if x !in nodes && Indexes(nodes, before.forest, flat) {
        JoinGoesWell(Node(nodes, before), flat, x, mine, stray);
      }
    }

    /** A peer leaves: off the ring first, so the index merges the successor's section.  Every key stays in
        its owner's tree exactly if the peer had no tree, and its successor none or the only one; or if the peer was
        the last one and there are no keys. */
    method Remove(uid: string, ghost flat: Leaves) returns (done: bool)
      requires Valid()
      requires forall m <- members :: ring.position(m) == ring.position(uid) ==> m == uid
      modifies this, ring, index
      ensures Valid() && done == (uid in old(members)) && members == old(members) - {uid}
      ensures !done ==> Nodes() == old(Nodes()) && index.State() == old(index.State())
      ensures ring.ring == if done then old(ring.ring) - {ring.position(uid)} else old(ring.ring)
      ensures var x := ring.position(uid); done ==>
        && Nodes() == old(Nodes()) - {x}
        && index.State() == Cannibalized(old(index.State()), Owner(Nodes(), x))
      ensures var (x, n) := (ring.position(uid), Node(old(Nodes()), old(index.State())));
        done && old(Indexes(Nodes(), index.forest, flat)) ==>
          (Indexes(Nodes(), index.forest, flat) <==> LeavesWell(n, flat, x, false))
    {
      done := uid in members;
      if !done {
        return;
      }
      ghost var x, nodes, before := ring.position(uid), Nodes(), index.State();
      assert x in nodes;
      members := members - {uid};
      var erased := ring.Erase(uid);
      assert Nodes() == nodes - {x};
      index.CannibalizeSection(uid);
      if Indexes(nodes, before.forest, flat) {
        LeaveGoesWell(Node(nodes, before), flat, x, false);
      }
    }
  }
}
