/** Nodes join and leave while keys come and go: does the forest keep every key in the tree of the section
    the ring assigns it to?  The reference is one flat map from key positions to leaves; the forest agrees
    with it when it is that map, cut up by section. */
module Placement {
  import opened Bytes
  import opened XorFold
  import opened HashRings
  import opened DigestIndexers

  type Leaves = map<Pos, Entry>

  ghost predicate Tidy(forest: Forest) {
    forall s <- forest :: forest[s].id == s && forest[s].entries != map[]
  }

  /** What the tree of section `s` holds for position `p`. */
  ghost function LeafAt(forest: Forest, s: Section, p: Pos): Option<Entry> {
    if s in forest && p in forest[s].entries then Some(forest[s].entries[p]) else None
  }

  ghost function FlatLeaf(flat: Leaves, p: Pos): Option<Entry> {
    if p in flat then Some(flat[p]) else None
  }

  /** Every key of the flat index sits, with its leaf, in exactly the tree named by its owner; the trees hold
      no other keys, and none is empty. */
  ghost predicate Indexes(nodes: set<Pos>, forest: Forest, flat: Leaves) {
    && Tidy(forest)
    && forall s: Section, p: Pos :: LeafAt(forest, s, p) == if Owner(nodes, p) == s then FlatLeaf(flat, p) else None
  }

  /** The ring and the flat index determine the forest. */
  lemma IndexesDetermine(nodes: set<Pos>, f: Forest, g: Forest, flat: Leaves)
    requires Indexes(nodes, f, flat) && Indexes(nodes, g, flat)
    ensures f == g
  {
    SameLeavesSameForest(f, g);
  }

  lemma SameLeavesSameForest(f: Forest, g: Forest)
    requires Tidy(f) && Tidy(g) && forall s: Section, p: Pos :: LeafAt(f, s, p) == LeafAt(g, s, p)
    ensures f == g
  {
    forall s | s in f ensures s in g && f[s] == g[s] {
      SameTree(f, g, s);
    }
    forall s | s in g ensures s in f {
      SameTree(g, f, s);
    }
  }

  lemma SameTree(f: Forest, g: Forest, s: Section)
    requires Tidy(f) && Tidy(g) && forall s: Section, p: Pos :: LeafAt(f, s, p) == LeafAt(g, s, p)
    requires s in f
    ensures s in g && f[s] == g[s]
  {
    var p :| p in f[s].entries;
    assert LeafAt(f, s, p) == LeafAt(g, s, p);
    forall q: Pos
      ensures q in f[s].entries <==> q in g[s].entries
      ensures q in f[s].entries ==> f[s].entries[q] == g[s].entries[q]
    {
      assert LeafAt(f, s, q) == LeafAt(g, s, q);
    }
    assert f[s].entries == g[s].entries;
  }

  lemma TreesAreNodes(nodes: set<Pos>, forest: Forest, flat: Leaves, s: Section)
    requires nodes != {} && Indexes(nodes, forest, flat) && s in forest
    ensures s in nodes
  {
    var p :| p in forest[s].entries;
    assert LeafAt(forest, s, p).Some?;
    OwnerIn(nodes, p);
  }

  // ---------- updates and removals ----------

  /** What an update does to the flat index. */
  function Put(flat: Leaves, at: Pos, name: string, nameHash: Digest, value: Digest): Leaves {
    flat[at := Entry(Xor(value, if at in flat then flat[at].hash else nameHash), name)]
  }

  /** An update changes one leaf of one tree. */
  lemma UpdatedLeaves(
    ix: Index, s: Section, mine: bool, at: Pos, name: string, nameHash: Digest, value: Digest, t: Section, p: Pos)
    requires Tidy(ix.forest)
    ensures var f := Updated(ix, s, mine, at, name, nameHash, value).forest;
      && Tidy(f)
      && LeafAt(f, t, p) ==
        if t != s || p != at then LeafAt(ix.forest, t, p)
        else
          var was := LeafAt(ix.forest, s, at);
          Some(Entry(Xor(value, if was.Some? then was.value.hash else nameHash), name))
  {
    var f := Updated(ix, s, mine, at, name, nameHash, value).forest;
    assert at in f[s].entries;
  }

  lemma UpdateIndexes(
    nodes: set<Pos>, ix: Index, flat: Leaves, mine: bool, at: Pos, name: string, nameHash: Digest, value: Digest)
    requires Indexes(nodes, ix.forest, flat)
    ensures var f := Updated(ix, Owner(nodes, at), mine, at, name, nameHash, value).forest;
      Indexes(nodes, f, Put(flat, at, name, nameHash, value))
  {
    hide Owner, Updated, LeafAt, Tidy;
    var s := Owner(nodes, at);
    var f := Updated(ix, s, mine, at, name, nameHash, value).forest;
    UpdatedLeaves(ix, s, mine, at, name, nameHash, value, s, at);
    assert LeafAt(ix.forest, s, at) == FlatLeaf(flat, at);
    forall t: Section, p: Pos
      ensures LeafAt(f, t, p) == if Owner(nodes, p) == t then FlatLeaf(Put(flat, at, name, nameHash, value), p) else None
    {
      UpdatedLeaves(ix, s, mine, at, name, nameHash, value, t, p);
    }
  }

  lemma RemoveIndexes(nodes: set<Pos>, ix: Index, flat: Leaves, at: Pos)
    requires Indexes(nodes, ix.forest, flat)
    ensures Indexes(nodes, Removed(ix, Owner(nodes, at), at).forest, flat - {at})
  {
    var s := Owner(nodes, at);
    var f := Removed(ix, s, at).forest;
    forall t: Section, p: Pos
      ensures LeafAt(f, t, p) == if Owner(nodes, p) == t then FlatLeaf(flat - {at}, p) else None
    {
      assert LeafAt(f, t, p) == if t == s && p == at then None else LeafAt(ix.forest, t, p);
    }
  }

  // ---------- splitting and merging move leaves and lose none ----------

  /** After a split the leaves in the moved range are in the new tree, and everything else is where it was. */
  lemma SplitLeaves(ix: Index, s: Section, mine: bool, at: Pos, stray: Pos, t: Section, p: Pos)
    requires ix.forest != map[] && s !in ix.forest && Tidy(ix.forest)
    ensures Tidy(Split(ix, s, mine, at, stray).forest)
    ensures var (n, first) := (Next(ix.forest.Keys, s), SplitFrom(ix.forest.Keys, s, stray));
      LeafAt(Split(ix, s, mine, at, stray).forest, t, p) ==
        if t == s then (if first <= p <= at then LeafAt(ix.forest, n, p) else None)
        else if t == n && first <= p <= at then None
        else LeafAt(ix.forest, t, p)
  {
    var n := Next(ix.forest.Keys, s);
    var divided := Divided(ix, s, mine, at, stray);
    var once := Pruned(divided, n);
    assert LeafAt(once.forest, t, p) == LeafAt(divided.forest, t, p);
    assert LeafAt(Pruned(once, s).forest, t, p) == LeafAt(once.forest, t, p);
  }

  lemma CannibalizedLeaves(ix: Index, s: Section, t: Section, p: Pos)
    requires s in ix.forest && Next(ix.forest.Keys, s) != s && Tidy(ix.forest)
    ensures Tidy(Cannibalized(ix, s).forest)
    ensures var n := Next(ix.forest.Keys, s);
      LeafAt(Cannibalized(ix, s).forest, t, p) ==
        if t == s then None
        else if t == n && LeafAt(ix.forest, n, p) == None then LeafAt(ix.forest, s, p)
        else LeafAt(ix.forest, t, p)
  {
    var n := Next(ix.forest.Keys, s);
    var q :| q in ix.forest[n].entries;
    assert q in ix.forest[s].entries + ix.forest[n].entries;
  }

  /** No key in two trees. */
  ghost predicate Apart(forest: Forest) {
    forall s: Section, t: Section, p: Pos | LeafAt(forest, s, p).Some? && LeafAt(forest, t, p).Some? :: s == t
  }

  /** Some tree holds this leaf for this position. */
  ghost predicate Holds(forest: Forest, p: Pos, e: Entry) {
    exists s: Section :: LeafAt(forest, s, p) == Some(e)
  }

  /** Splitting a section keeps the trees apart and every leaf, whatever the ring looks like. */
  lemma SplitConserves(ix: Index, s: Section, mine: bool, at: Pos, stray: Pos)
    requires Tidy(ix.forest) && Apart(ix.forest)
    ensures var f := Split(ix, s, mine, at, stray).forest;
      Tidy(f) && Apart(f) && forall p: Pos, e :: Holds(f, p, e) <==> Holds(ix.forest, p, e)
  {
    if ix.forest != map[] && s !in ix.forest {
      var n, f := Next(ix.forest.Keys, s), Split(ix, s, mine, at, stray).forest;
      SplitLeaves(ix, s, mine, at, stray, s, 0);
      forall p: Pos, e ensures Holds(f, p, e) <==> Holds(ix.forest, p, e) {
        forall t: Section { SplitLeaves(ix, s, mine, at, stray, t, p); }
        if t: Section :| LeafAt(ix.forest, t, p) == Some(e) {
          assert LeafAt(f, t, p) == Some(e) || LeafAt(f, s, p) == Some(e);
        }
      }
      forall t: Section, u: Section, p: Pos | LeafAt(f, t, p).Some? && LeafAt(f, u, p).Some? ensures t == u {
        SplitLeaves(ix, s, mine, at, stray, t, p);
        SplitLeaves(ix, s, mine, at, stray, u, p);
      }
    }
  }

  /** So does merging a section into the next tree. */
  lemma CannibalizeConserves(ix: Index, s: Section)
    requires Tidy(ix.forest) && Apart(ix.forest)
    ensures var f := Cannibalized(ix, s).forest;
      Tidy(f) && Apart(f) && forall p: Pos, e :: Holds(f, p, e) <==> Holds(ix.forest, p, e)
  {
    if s in ix.forest && Next(ix.forest.Keys, s) != s {
      var n, f := Next(ix.forest.Keys, s), Cannibalized(ix, s).forest;
      CannibalizedLeaves(ix, s, s, 0);
      forall p: Pos, e ensures Holds(f, p, e) <==> Holds(ix.forest, p, e) {
        forall t: Section { CannibalizedLeaves(ix, s, t, p); }
        if t: Section :| LeafAt(ix.forest, t, p) == Some(e) {
          assert LeafAt(f, t, p) == Some(e) || LeafAt(f, n, p) == Some(e);
        }
      }
      forall t: Section, u: Section, p: Pos | LeafAt(f, t, p).Some? && LeafAt(f, u, p).Some? ensures t == u {
        CannibalizedLeaves(ix, s, t, p);
        CannibalizedLeaves(ix, s, u, p);
      }
    }
  }

  /** An update keeps the trees apart exactly if no other tree holds the key. */
  lemma UpdateApart(ix: Index, s: Section, mine: bool, at: Pos, name: string, nameHash: Digest, value: Digest)
    requires Tidy(ix.forest) && Apart(ix.forest)
    ensures Apart(Updated(ix, s, mine, at, name, nameHash, value).forest)
       <==> forall t: Section | t != s :: LeafAt(ix.forest, t, at) == None
  {
    var f := Updated(ix, s, mine, at, name, nameHash, value).forest;
    forall t: Section, p: Pos
      ensures LeafAt(f, t, p) == if t == s && p == at then Some(f[s].entries[at]) else LeafAt(ix.forest, t, p)
    {
    }
    assert LeafAt(f, s, at).Some?;
  }

  // ---------- a node joins ----------

  /** The new node comes before all others while some key lies beyond the last of them: that key belongs to
      the new node, but a split never moves it. */
  ghost predicate Stranding(nodes: set<Pos>, flat: Leaves, x: Pos) {
    (forall n <- nodes :: x < n) && exists p <- flat :: Beyond(nodes, p)
  }

  ghost predicate Beyond(nodes: set<Pos>, p: Pos) {
    forall n <- nodes :: n < p
  }

  /** A key changes hands exactly if the new node comes before its old owner. */
  lemma OwnerAfterJoin(nodes: set<Pos>, x: Pos, p: Pos)
    requires nodes != {} && x !in nodes
    ensures var o := Owner(nodes, p);
      Owner(nodes + {x}, p) ==
        if p <= o then (if p <= x < o then x else o)
        else (if p <= x || x < o then x else o)
  {
    var o := OwnerBound(nodes, p);
    OwnerIs(nodes + {x}, p, if p <= o then (if p <= x < o then x else o) else (if p <= x || x < o then x else o));
  }

  /** For a key that is not stranded, the split moves it exactly if the new node owns it now. */
  lemma SplitMovesOwned(nodes: set<Pos>, ix: Index, flat: Leaves, x: Pos, stray: Pos, p: Pos)
    requires nodes != {} && x !in nodes && Indexes(nodes, ix.forest, flat) && p in flat && ix.forest != map[]
    ensures var (o, n) := (Owner(nodes, p), Next(ix.forest.Keys, x));
      var moves := o == n && SplitFrom(ix.forest.Keys, x, stray) <= p <= x;
      if (forall n <- nodes :: x < n) && Beyond(nodes, p) then !moves && Owner(nodes + {x}, p) == x
      else Owner(nodes + {x}, p) == if moves then x else o
  {
    var o := OwnerBound(nodes, p);
    OwnerAfterJoin(nodes, x, p);
    assert LeafAt(ix.forest, o, p) == Some(flat[p]);
    forall m | m in ix.forest ensures m in nodes {
      TreesAreNodes(nodes, ix.forest, flat, m);
    }
  }

  /** Joining the ring and then splitting keeps every key in its owner's tree, unless keys are stranded. */
  lemma JoinIndexes(nodes: set<Pos>, ix: Index, flat: Leaves, mine: bool, x: Pos, stray: Pos)
    requires nodes != {} && x !in nodes && Indexes(nodes, ix.forest, flat)
    ensures Indexes(nodes + {x}, Split(ix, x, mine, x, stray).forest, flat) <==> !Stranding(nodes, flat, x)
  {
    var f := Split(ix, x, mine, x, stray).forest;
    if x in ix.forest {
      TreesAreNodes(nodes, ix.forest, flat, x);
    } else if ix.forest == map[] {
      forall p: Pos ensures p !in flat {
        assert LeafAt(ix.forest, Owner(nodes, p), p) == None;
      }
    } else {
      SplitLeaves(ix, x, mine, x, stray, x, x);
      if Stranding(nodes, flat, x) {
        var p :| p in flat && Beyond(nodes, p);
        SplitMovesOwned(nodes, ix, flat, x, stray, p);
        SplitLeaves(ix, x, mine, x, stray, x, p);
      } else {
        forall t: Section, p: Pos
          ensures LeafAt(f, t, p) == if Owner(nodes + {x}, p) == t then FlatLeaf(flat, p) else None
        {
          SplitLeaves(ix, x, mine, x, stray, t, p);
          if p in flat {
            SplitMovesOwned(nodes, ix, flat, x, stray, p);
          }
        }
      }
    }
  }

  // ---------- a node leaves ----------

  /** Exactly the keys of the leaving node change hands, all to its successor. */
  lemma OwnerAfterLeave(nodes: set<Pos>, x: Pos, p: Pos)
    requires x in nodes && nodes != {x}
    ensures var rest := nodes - {x};
      Owner(rest, p) == if Owner(nodes, p) == x then Owner(rest, x) else Owner(nodes, p)
  {
    var rest := nodes - {x};
    assert rest + {x} == nodes && rest != {};
    OwnerAfterJoin(rest, x, p);
    var o := OwnerBound(rest, p);
    var succ := OwnerBound(rest, x);
    if Owner(nodes, p) == x {
      OwnerIs(rest, p, succ);
    }
  }

  lemma NextIsSuccessor(nodes: set<Pos>, ix: Index, flat: Leaves, x: Pos)
    requires x in nodes && nodes != {x} && Indexes(nodes, ix.forest, flat)
    requires Owner(nodes - {x}, x) in ix.forest
    ensures Next(ix.forest.Keys, x) == Owner(nodes - {x}, x)
  {
    var succ := OwnerBound(nodes - {x}, x);
    var n := Next(ix.forest.Keys, x);
    forall m | m in ix.forest && m != x ensures m in nodes - {x} {
      TreesAreNodes(nodes, ix.forest, flat, m);
    }
    assert succ in ix.forest && n in ix.forest;
  }

  lemma SomeKey(nodes: set<Pos>, forest: Forest, flat: Leaves, s: Section) returns (p: Pos)
    requires Indexes(nodes, forest, flat) && s in forest
    ensures p in flat && Owner(nodes, p) == s && LeafAt(forest, s, p) == Some(flat[p])
  {
    p :| p in forest[s].entries;
    assert LeafAt(forest, s, p).Some?;
  }

  /** Merging a node's section and then taking the node off the ring keeps every key in its owner's tree
      exactly if the node has no tree or its successor on the ring has one. */
  lemma LeaveIndexes(nodes: set<Pos>, ix: Index, flat: Leaves, x: Pos)
    requires x in nodes && nodes != {x} && Indexes(nodes, ix.forest, flat)
    ensures Indexes(nodes - {x}, Cannibalized(ix, x).forest, flat)
       <==> (x in ix.forest ==> Owner(nodes - {x}, x) in ix.forest)
  {
    var rest, f := nodes - {x}, Cannibalized(ix, x).forest;
    var succ := OwnerBound(rest, x);
    if x in ix.forest && succ !in ix.forest {
      var p := SomeKey(nodes, ix.forest, flat, x);
      OwnerAfterLeave(nodes, x, p);
      if Next(ix.forest.Keys, x) != x {
        CannibalizedLeaves(ix, x, succ, p);
      }
      assert LeafAt(f, succ, p) == None;
    } else {
      if x in ix.forest {
        NextIsSuccessor(nodes, ix, flat, x);
        CannibalizedLeaves(ix, x, x, x);
      }
      forall t: Section, p: Pos
        ensures LeafAt(f, t, p) == if Owner(rest, p) == t then FlatLeaf(flat, p) else None
      {
        OwnerAfterLeave(nodes, x, p);
        assert LeafAt(ix.forest, x, p) == if Owner(nodes, p) == x then FlatLeaf(flat, p) else None;
        if x in ix.forest {
          CannibalizedLeaves(ix, x, t, p);
        }
      }
    }
  }

  /** `ModifyPeer::remove` takes the node off the ring first, so that the section it merges is the
      successor's.  Every key stays in its owner's tree exactly if the node had no tree, and the successor
      had none either or the only one. */
  lemma LeaveAsWrittenIndexes(nodes: set<Pos>, ix: Index, flat: Leaves, x: Pos)
    requires x in nodes && nodes != {x} && Indexes(nodes, ix.forest, flat)
    ensures var succ := Owner(nodes - {x}, x);
      Indexes(nodes - {x}, Cannibalized(ix, succ).forest, flat)
      <==> x !in ix.forest && (succ in ix.forest ==> ix.forest.Keys == {succ})
  {
    var rest := nodes - {x};
    var succ := OwnerBound(rest, x);
    var f := Cannibalized(ix, succ).forest;
    var merges := succ in ix.forest && Next(ix.forest.Keys, succ) != succ;
    if x in ix.forest {
      var p := SomeKey(nodes, ix.forest, flat, x);
      OwnerAfterLeave(nodes, x, p);
      if merges {
        CannibalizedLeaves(ix, succ, succ, p);
      }
      assert LeafAt(ix.forest, succ, p) == None;
      assert LeafAt(f, succ, p) == None;
    } else if merges {
      var p := SomeKey(nodes, ix.forest, flat, succ);
      OwnerAfterLeave(nodes, x, p);
      CannibalizedLeaves(ix, succ, succ, p);
      assert Next(ix.forest.Keys, succ) in ix.forest;
    } else {
      forall t: Section, p: Pos
        ensures LeafAt(f, t, p) == if Owner(rest, p) == t then FlatLeaf(flat, p) else None
      {
        OwnerAfterLeave(nodes, x, p);
        assert LeafAt(ix.forest, x, p) == None;
      }
      if succ in ix.forest {
        assert forall m | m in ix.forest :: m == succ;
      }
    }
  }

  /** Leaving in the right order and joining again restores the forest. */
  lemma LeaveAndRejoin(nodes: set<Pos>, ix: Index, flat: Leaves, mine: bool, x: Pos, stray: Pos)
    requires x in nodes && nodes != {x} && Indexes(nodes, ix.forest, flat)
    requires x in ix.forest ==> Owner(nodes - {x}, x) in ix.forest
    requires exists n <- nodes :: n < x
    ensures Split(Cannibalized(ix, x), x, mine, x, stray).forest == ix.forest
  {
    var left := Cannibalized(ix, x);
    LeaveIndexes(nodes, ix, flat, x);
    JoinIndexes(nodes - {x}, left, flat, mine, x, stray);
    assert nodes - {x} + {x} == nodes;
    IndexesDetermine(nodes, Split(left, x, mine, x, stray).forest, ix.forest, flat);
  }

  // ---------- the conditions are not idle ----------

  /** A node at 3 joins a node at 5 that holds a key at 7: the key is the new node's, but stays where it is. */
  lemma AJoinThatStrands(e: Entry, mine: bool, stray: Pos)
    ensures var (ix, flat) := (Index(map[5 := DigestTree(5, map[7 := e])], {5}, {}), map[7 := e]);
      && Indexes({5}, ix.forest, flat)
      && !Indexes({5, 3}, Split(ix, 3, mine, 3, stray).forest, flat)
  {
    var ix, flat: Leaves := Index(map[5 := DigestTree(5, map[7 := e])], {5}, {}), map[7 := e];
    assert 7 in flat;
    OwnedByTheOnly(5, ix.forest, flat);
    JoinIndexes({5}, ix, flat, mine, 3, stray);
    assert Beyond({5}, 7);
    assert {5} + {3} == {5, 3};
  }

  /** A node at 3, with a key at 2, leaves a node at 5: its tree stays behind, under the name of a node that is
      gone. */
  lemma ALeaveThatMisplaces(e: Entry)
    ensures var (ix, flat) := (Index(map[3 := DigestTree(3, map[2 := e])], {3}, {}), map[2 := e]);
      && Indexes({3, 5}, ix.forest, flat)
      && !Indexes({5}, Cannibalized(ix, Owner({5}, 3)).forest, flat)
  {
    var ix, flat: Leaves := Index(map[3 := DigestTree(3, map[2 := e])], {3}, {}), map[2 := e];
    assert 2 in flat;
    OwnerIs({3, 5}, 2, 3);
    assert {3, 5} - {3} == {5};
    LeaveAsWrittenIndexes({3, 5}, ix, flat, 3);
  }

  lemma OwnedByTheOnly(n: Pos, forest: Forest, flat: Leaves)
    requires flat != map[] && forest == map[n as Section := DigestTree(n, flat)]
    ensures Indexes({n}, forest, flat)
  {
    forall s: Section, p: Pos
      ensures LeafAt(forest, s, p) == if Owner({n}, p) == s then FlatLeaf(flat, p) else None
    {
      OwnerIs({n}, p, n);
    }
  }

  /** Three nodes at 3, 5 and 8; the one at 3 holds a key at 2, the one at 8 one at 7, the one at 5 none. When the
      first one leaves, its key belongs to the node at 5, and is merged into the tree of the one at 8. */
  lemma AMergeThatSkipsTheSuccessor(e: Entry)
    ensures var (ix, flat) := (
        Index(map[3 := DigestTree(3, map[2 := e]), 8 := DigestTree(8, map[7 := e])], {3}, {8}), map[2 := e, 7 := e]);
      && Indexes({3, 5, 8}, ix.forest, flat)
      && !Indexes({5, 8}, Cannibalized(ix, 3).forest, flat)
  {
    var ix, flat: Leaves :=
      Index(map[3 := DigestTree(3, map[2 := e]), 8 := DigestTree(8, map[7 := e])], {3}, {8}), map[2 := e, 7 := e];
    assert 2 in ix.forest[3].entries && 7 in ix.forest[8].entries;
    OwnerIs({3, 5, 8}, 2, 3);
    OwnerIs({3, 5, 8}, 7, 8);
    OwnerIs({5, 8}, 3, 5);
    assert {3, 5, 8} - {3} == {5, 8};
    LeaveIndexes({3, 5, 8}, ix, flat, 3);
  }

  // ---------- whole runs ----------

  /** Keys change, and nodes join and leave; `mine` is how the locator classifies the section at that moment. A node
      leaves with its section merged first, or as `ModifyPeer::remove` has it, off the ring first. */
  datatype Event =
    | Update(at: Pos, name: string, nameHash: Digest, value: Digest, mine: bool)
    | Remove(at: Pos)
    | Join(node: Pos, mine: bool, stray: Pos)
    | Leave(node: Pos, mergesFirst: bool)

  datatype Node = Node(nodes: set<Pos>, index: Index)

  ghost function Happened(n: Node, e: Event): Node {
    match e
    case Update(at, name, nameHash, value, mine) =>
      n.(index := Updated(n.index, Owner(n.nodes, at), mine, at, name, nameHash, value))
    case Remove(at) => n.(index := Removed(n.index, Owner(n.nodes, at), at))
    case Join(x, mine, stray) =>
      if x in n.nodes then n else Node(n.nodes + {x}, Split(n.index, Owner(n.nodes + {x}, x), mine, x, stray))
    case Leave(x, mergesFirst) =>
      if x !in n.nodes then n
      else Node(n.nodes - {x}, Cannibalized(n.index, if mergesFirst then Owner(n.nodes, x) else Owner(n.nodes - {x}, x)))
  }

  /** The same event on the flat index: joining and leaving change nothing. */
  function FlatHappened(flat: Leaves, e: Event): Leaves {
    match e
    case Update(at, name, nameHash, value, _) => Put(flat, at, name, nameHash, value)
    case Remove(at) => flat - {at}
    case _ => flat
  }

  ghost function Run(n: Node, events: seq<Event>): Node {
    if events == [] then n else Happened(Run(n, events[..|events| - 1]), events[|events| - 1])
  }

  function FlatRun(flat: Leaves, events: seq<Event>): Leaves {
    if events == [] then flat else FlatHappened(FlatRun(flat, events[..|events| - 1]), events[|events| - 1])
  }

  /** A node joins without stranding a key. The first one of all takes over what was indexed under no node, but no
      more than the range that a split moves. */
  ghost predicate JoinsWell(n: Node, flat: Leaves, x: Pos, stray: Pos) {
    x !in n.nodes ==>
      if n.nodes == {} then forall p <- flat :: Increment(stray) <= p <= x
      else !Stranding(n.nodes, flat, x)
  }

  /** A node leaves without misplacing a key. */
  ghost predicate LeavesWell(n: Node, flat: Leaves, x: Pos, mergesFirst: bool) {
    x in n.nodes ==>
      var (rest, forest) := (n.nodes - {x}, n.index.forest);
      if rest == {} then flat == map[]
      else if mergesFirst then x in forest ==> Owner(rest, x) in forest
      else x !in forest && (Owner(rest, x) in forest ==> forest.Keys == {Owner(rest, x)})
  }

  ghost predicate GoesWell(n: Node, flat: Leaves, e: Event) {
    && (e.Join? ==> JoinsWell(n, flat, e.node, e.stray))
    && (e.Leave? ==> LeavesWell(n, flat, e.node, e.mergesFirst))
  }

  /** The first node of a ring: the keys indexed so far are all in the tree of no section. */
  lemma FirstJoinIndexes(ix: Index, flat: Leaves, mine: bool, x: Pos, stray: Pos)
    requires Indexes({}, ix.forest, flat)
    ensures Indexes({x}, Split(ix, x, mine, x, stray).forest, flat)
       <==> forall p <- flat :: Increment(stray) <= p <= x
  {
    var f := Split(ix, x, mine, x, stray).forest;
    assert forall p: Pos :: LeafAt(ix.forest, NO_SECTION, p) == FlatLeaf(flat, p);
    forall s | s in ix.forest ensures s == NO_SECTION {
      var p :| p in ix.forest[s].entries;
      assert LeafAt(ix.forest, s, p).Some?;
    }
    if ix.forest == map[] {
      forall p: Pos ensures p !in flat {
        assert LeafAt(ix.forest, NO_SECTION, p) == None;
      }
    } else {
      assert ix.forest.Keys == {NO_SECTION} && Next(ix.forest.Keys, x) == NO_SECTION;
      forall t: Section, p: Pos
        ensures Tidy(f) && LeafAt(f, t, p) ==
          if t == (if Increment(stray) <= p <= x then x else NO_SECTION) then FlatLeaf(flat, p) else None
      {
        SplitLeaves(ix, x, mine, x, stray, t, p);
      }
      forall p: Pos ensures Owner({x}, p) == x {
        OwnerIs({x}, p, x);
      }
      if p: Pos :| p in flat && !(Increment(stray) <= p <= x) {
        assert LeafAt(f, x, p) == None;
      }
    }
  }

  /** When the last node leaves, its tree stays. */
  lemma LastLeaveIndexes(ix: Index, flat: Leaves, x: Pos, mergesFirst: bool)
    requires Indexes({x}, ix.forest, flat)
    ensures var f := Cannibalized(ix, if mergesFirst then Owner({x}, x) else NO_SECTION).forest;
      Indexes({}, f, flat) <==> flat == map[]
  {
    forall p: Pos ensures Owner({x}, p) == x {
      OwnerIs({x}, p, x);
    }
    forall s | s in ix.forest ensures s == x {
      var p :| p in ix.forest[s].entries;
      assert LeafAt(ix.forest, s, p).Some?;
    }
    assert x in ix.forest ==> Next(ix.forest.Keys, x) == x;
    if p: Pos :| p in flat {
      assert LeafAt(ix.forest, x, p) == Some(flat[p]);
    }
  }

  lemma JoinGoesWell(n: Node, flat: Leaves, x: Pos, mine: bool, stray: Pos)
    requires Indexes(n.nodes, n.index.forest, flat)
    ensures var m := Happened(n, Join(x, mine, stray));
      Indexes(m.nodes, m.index.forest, flat) <==> JoinsWell(n, flat, x, stray)
  {
    if x !in n.nodes {
      OwnerIs(n.nodes + {x}, x, x);
      if n.nodes == {} {
        assert n.nodes + {x} == {x};
        FirstJoinIndexes(n.index, flat, mine, x, stray);
      } else {
        JoinIndexes(n.nodes, n.index, flat, mine, x, stray);
      }
    }
  }

  lemma LeaveGoesWell(n: Node, flat: Leaves, x: Pos, mergesFirst: bool)
    requires Indexes(n.nodes, n.index.forest, flat)
    ensures var m := Happened(n, Leave(x, mergesFirst));
      Indexes(m.nodes, m.index.forest, flat) <==> LeavesWell(n, flat, x, mergesFirst)
  {
    if x in n.nodes {
      OwnerIs(n.nodes, x, x);
      if n.nodes - {x} == {} {
        assert n.nodes == {x};
        LastLeaveIndexes(n.index, flat, x, mergesFirst);
      } else if mergesFirst {
        LeaveIndexes(n.nodes, n.index, flat, x);
      } else {
        LeaveAsWrittenIndexes(n.nodes, n.index, flat, x);
      }
    }
  }

  lemma HappenedIndexes(n: Node, flat: Leaves, e: Event)
    requires Indexes(n.nodes, n.index.forest, flat)
    ensures var m := Happened(n, e); Indexes(m.nodes, m.index.forest, FlatHappened(flat, e)) <==> GoesWell(n, flat, e)
  {
    hide Indexes, JoinsWell, LeavesWell;
    match e {
      case Update(at, name, nameHash, value, mine) =>
        UpdateIndexes(n.nodes, n.index, flat, mine, at, name, nameHash, value);
      case Remove(at) => RemoveIndexes(n.nodes, n.index, flat, at);
      case Join(x, mine, stray) => JoinGoesWell(n, flat, x, mine, stray);
      case Leave(x, mergesFirst) => LeaveGoesWell(n, flat, x, mergesFirst);
    }
  }

  /** In every state of the run, the forest is the flat index cut up by the ring as it stands. */
  ghost predicate AlwaysPlaced(n: Node, flat: Leaves, events: seq<Event>) {
    var m := Run(n, events);
    Indexes(m.nodes, m.index.forest, FlatRun(flat, events))
    && (events != [] ==> AlwaysPlaced(n, flat, events[..|events| - 1]))
  }

  /** No join of the run strands a key, and no leave misplaces one. */
  ghost predicate AllGoesWell(n: Node, flat: Leaves, events: seq<Event>) {
    var k := |events| - 1;
    events != [] ==>
      AllGoesWell(n, flat, events[..k]) && GoesWell(Run(n, events[..k]), FlatRun(flat, events[..k]), events[k])
  }

  /** Over any run of updates, removals, joins and leaves, each indexed key is always in exactly the tree its owner
      names if and only if no join strands a key and no leave misplaces one. */
  lemma {:induction false} RunIndexes(n: Node, flat: Leaves, events: seq<Event>)
    requires Indexes(n.nodes, n.index.forest, flat)
    ensures AlwaysPlaced(n, flat, events) <==> AllGoesWell(n, flat, events)
  {
    hide Indexes, Happened, GoesWell;
    if events != [] {
      var k := |events| - 1;
      RunIndexes(n, flat, events[..k]);
      if AlwaysPlaced(n, flat, events[..k]) {
        HappenedIndexes(Run(n, events[..k]), FlatRun(flat, events[..k]), events[k]);
      }
    }
  }

  lemma PlacedIsApart(nodes: set<Pos>, forest: Forest, flat: Leaves)
    requires Indexes(nodes, forest, flat)
    ensures Apart(forest)
  {
    forall s: Section, t: Section, p: Pos | LeafAt(forest, s, p).Some? && LeafAt(forest, t, p).Some? ensures s == t {
      assert s == Owner(nodes, p) == t;
    }
  }

  /** So no key is ever in two trees, in any run in which joins and leaves go well. */
  lemma RingRunStaysApart(n: Node, flat: Leaves, events: seq<Event>)
    requires Indexes(n.nodes, n.index.forest, flat) && AllGoesWell(n, flat, events)
    ensures Apart(Run(n, events).index.forest)
  {
    RunIndexes(n, flat, events);
    hide Run, Apart, Indexes;
    PlacedIsApart(Run(n, events).nodes, Run(n, events).index.forest, FlatRun(flat, events));
  }

  /** When joins do not go well, a key can come to be in two trees: after the join that strands a key at 7, the
      key's next change goes to the tree of the new node. */
  lemma AnUpdateAfterAStranding(e: Entry, name: string, nameHash: Digest, value: Digest, mine: bool, stray: Pos)
    ensures var n := Node({5}, Index(map[5 := DigestTree(5, map[7 := e])], {5}, {}));
      var m := Run(n, [Join(3, mine, stray), Update(7, name, nameHash, value, mine)]);
      && LeafAt(m.index.forest, 3, 7).Some? && LeafAt(m.index.forest, 5, 7).Some? && !Apart(m.index.forest)
  {
    var n, join := Node({5}, Index(map[5 := DigestTree(5, map[7 := e])], {5}, {})), Join(3, mine, stray);
    RunTwice(n, join, Update(7, name, nameHash, value, mine));
    assert {5} + {3} == {5, 3};
    OwnerIs({5, 3}, 3, 3);
    OwnerIs({5, 3}, 7, 3);
    hide Updated, Split, Owner, Run, Tidy, Apart;
    InTwoTrees(n.index, e, name, nameHash, value, mine, stray);
    assert LeafAt(Run(n, [join, Update(7, name, nameHash, value, mine)]).index.forest, 3, 7).Some?;
  }

  lemma InTwoTrees(ix: Index, e: Entry, name: string, nameHash: Digest, value: Digest, mine: bool, stray: Pos)
    requires ix.forest == map[5 := DigestTree(5, map[7 := e])]
    ensures var f := Updated(Split(ix, 3, mine, 3, stray), 3, mine, 7, name, nameHash, value).forest;
      LeafAt(f, 3, 7).Some? && LeafAt(f, 5, 7).Some? && !Apart(f)
  {
    assert 7 in ix.forest[5].entries;
    hide Updated, Split, Next, SplitFrom;
    var f := Split(ix, 3, mine, 3, stray);
    SplitLeaves(ix, 3, mine, 3, stray, 5, 7);
    UpdatedLeaves(f, 3, mine, 7, name, nameHash, value, 3, 7);
    UpdatedLeaves(f, 3, mine, 7, name, nameHash, value, 5, 7);
  }

  lemma RunTwice(n: Node, a: Event, b: Event)
    ensures Run(n, [a, b]) == Happened(Happened(n, a), b)
  {
    hide Happened;
    assert Run(n, []) == n;
    assert [a][..0] == [] && Run(n, [a]) == Happened(n, a);
    assert [a, b][..1] == [a];
  }
}
