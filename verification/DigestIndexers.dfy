/** The digest index of one mirror count: a forest of Merkle trees, one per section of the ring. */
module DigestIndexers {
  import opened Bytes
  import opened XorFold
  import opened HashRings

  /** A leaf of a Merkle tree: the digest kept for a key, and the key's name. */
  datatype Entry = Entry(hash: Digest, name: string)

  /** `DigestTree`.  The Merkle tree is the map from key positions to leaves that it stands for. */
  datatype DigestTree = DigestTree(id: Section, entries: map<Pos, Entry>) {
    /** A known key's digest changes by `value`; a new key starts from the hash of its name. */
    function Update(at: Pos, name: string, nameHash: Digest, value: Digest): DigestTree {
      this.(entries := entries[at := Entry(Xor(value, if at in entries then entries[at].hash else nameHash), name)])
    }

    /** Inserting leaves a leaf that is already there as it is. */
    function Add(at: Pos, entry: Entry): DigestTree {
      if at in entries then this else this.(entries := entries[at := entry])
    }

    function Remove(at: Pos): DigestTree {
      this.(entries := entries - {at})
    }
  }

  /** A tree nobody has set the id of. */
  const NEW_TREE := DigestTree(NO_SECTION, map[])

  type Forest = map<Section, DigestTree>

  /** `nextTree`: the next id in order, or the first one. */
  predicate IsNext(ids: set<Section>, s: Section, n: Section) {
    && n in ids
    && if s < n then forall m <- ids :: s < m ==> n <= m
       else forall m <- ids :: m <= s && n <= m
  }

  lemma NextExists(ids: set<Section>, s: Section)
    requires ids != {}
    ensures exists n :: n in ids && IsNext(ids, s, n)
  {
    var above := set m | m in ids && s < m;
    if above != {} {
      var n := Least(above);
      assert forall m <- ids :: s < m ==> m in above;
      assert IsNext(ids, s, n);
    } else {
      var n := Least(ids);
      assert forall m <- ids :: m !in above;
      assert IsNext(ids, s, n);
    }
  }

  function Next(ids: set<Section>, s: Section): (n: Section)
    requires ids != {}
    ensures IsNext(ids, s, n)
  {
    NextExists(ids, s);
    var n :| n in ids && IsNext(ids, s, n);
    n
  }

  /** The index: its trees, and which sections this node wants or would rather hand over. */
  datatype Index = Index(forest: Forest, wanted: set<Section>, unwanted: set<Section>)

  /** Every tree is non-empty and stored under its own id, its leaves lie where their names hash to, and
      the wanted and unwanted sets split the sections there are. */
  ghost predicate WellFormed(position: string -> Pos, ix: Index) {
    WellFormedBut(position, ix, {})
  }

  /** Well formed, except that some trees may still be empty. */
  ghost predicate WellFormedBut(position: string -> Pos, ix: Index, unsettled: set<Section>) {
    && (forall s <- ix.forest :: ix.forest[s].id == s && (ix.forest[s].entries != map[] || s in unsettled))
    && (forall s, p | s in ix.forest && p in ix.forest[s].entries :: position(ix.forest[s].entries[p].name) == p)
    && ix.wanted !! ix.unwanted && ix.wanted + ix.unwanted == ix.forest.Keys
  }

  /** `initTree`: an empty tree gets its id, and its section is classified. */
  function Inited(ix: Index, s: Section, mine: bool): Index
    requires s in ix.forest
  {
    if ix.forest[s].entries != map[] then ix
    else
      Index(
        ix.forest[s := ix.forest[s].(id := s)],
        if mine then ix.wanted + {s} else ix.wanted,
        if mine then ix.unwanted else ix.unwanted + {s})
  }

  /** `prune`: an empty tree leaves the forest, and its id the sets. */
  function Pruned(ix: Index, s: Section): Index
    requires s in ix.forest
  {
    if ix.forest[s].entries != map[] then ix
    else
      Index(ix.forest - {s}, ix.wanted - {ix.forest[s].id}, ix.unwanted - {ix.forest[s].id})
  }

  /** The tree of a section, made on the spot if there is none. */
  function Rooted(ix: Index, s: Section): Index {
    if s in ix.forest then ix else ix.(forest := ix.forest[s := NEW_TREE])
  }

  function Updated(ix: Index, s: Section, mine: bool, at: Pos, name: string, nameHash: Digest, value: Digest): Index {
    var inited := Inited(Rooted(ix, s), s, mine);
    inited.(forest := inited.forest[s := inited.forest[s].Update(at, name, nameHash, value)])
  }

  function Removed(ix: Index, s: Section, at: Pos): Index {
    if s !in ix.forest then ix
    else Pruned(ix.(forest := ix.forest[s := ix.forest[s].Remove(at)]), s)
  }

  /** `++` on an unsigned 64-bit position. */
  function Increment(n: int): int {
    if n + 1 == POSITIONS then 0 else n + 1
  }

  /** `Hash().fromHash(id).integer()`: the id itself, except that reading a number from the empty id gives whatever
      is there. */
  function NumberOf(id: Section, stray: Pos): Pos {
    if id == NO_SECTION then stray else id
  }

  /** The lowest position a split moves: nothing below it when the source is the first tree and the new one
      the last, and otherwise everything up to the new node. */
  function SplitFrom(ids: set<Section>, s: Section, stray: Pos): int
    requires ids != {}
  {
    var n := Next(ids, s);
    if (forall m <- ids :: n <= m) && n < s then Increment(NumberOf(n, stray)) else 0
  }

  function InRange(entries: map<Pos, Entry>, first: int, last: int): map<Pos, Entry> {
    map p | p in entries && first <= p <= last :: entries[p]
  }

  /** The new tree of section `s` takes the keys up to `at` from the next tree. */
  function Divided(ix: Index, s: Section, mine: bool, at: Pos, stray: Pos): Index
    requires ix.forest != map[] && s !in ix.forest
  {
    var n := Next(ix.forest.Keys, s);
    var source := ix.forest[n];
    var moved := InRange(source.entries, SplitFrom(ix.forest.Keys, s, stray), at);
    Index(
      ix.forest[s := DigestTree(s, moved)][n := DigestTree(source.id, source.entries - moved.Keys)],
      if mine then ix.wanted + {s} else ix.wanted,
      if mine then ix.unwanted else ix.unwanted + {s})
  }

  /** `splitSection` for a node at `at` that owns section `s`. */
  function Split(ix: Index, s: Section, mine: bool, at: Pos, stray: Pos): Index {
    if ix.forest == map[] || s in ix.forest then ix
    else Pruned(Pruned(Divided(ix, s, mine, at, stray), Next(ix.forest.Keys, s)), s)
  }

  /** `cannibalizeSection`: the next tree takes over the keys of section `s`. */
  function Cannibalized(ix: Index, s: Section): Index {
    if s !in ix.forest || Next(ix.forest.Keys, s) == s then ix
    else
      var n := Next(ix.forest.Keys, s);
      var (dying, refugee) := (ix.forest[s], ix.forest[n]);
      Index(
        ix.forest[n := DigestTree(refugee.id, dying.entries + refugee.entries)] - {s},
        ix.wanted - {dying.id}, ix.unwanted - {dying.id})
  }

  ghost predicate NamesMatch(position: string -> Pos, entries: map<Pos, Entry>) {
    forall p <- entries :: position(entries[p].name) == p
  }

  lemma UpdatedWellFormed(
    position: string -> Pos, ix: Index, s: Section, mine: bool, name: string, nameHash: Digest, value: Digest)
    requires WellFormed(position, ix)
    ensures WellFormed(position, Updated(ix, s, mine, position(name), name, nameHash, value))
  {
    var tree := if s in ix.forest then ix.forest[s] else NEW_TREE;
    var t := Updated(ix, s, mine, position(name), name, nameHash, value);
    assert position(name) in t.forest[s].entries;
    assert t.forest[s].id == s;
  }

  lemma RemovedWellFormed(position: string -> Pos, ix: Index, s: Section, at: Pos)
    requires WellFormed(position, ix)
    ensures WellFormed(position, Removed(ix, s, at))
  {
  }

  lemma PrunedWellFormed(position: string -> Pos, ix: Index, s: Section, unsettled: set<Section>)
    requires WellFormedBut(position, ix, unsettled + {s}) && s in ix.forest
    ensures WellFormedBut(position, Pruned(ix, s), unsettled)
  {
  }

  lemma SplitWellFormed(position: string -> Pos, ix: Index, s: Section, mine: bool, at: Pos, stray: Pos)
    requires WellFormed(position, ix)
    ensures WellFormed(position, Split(ix, s, mine, at, stray))
  {
    if ix.forest != map[] && s !in ix.forest {
      var n := Next(ix.forest.Keys, s);
      var divided := Divided(ix, s, mine, at, stray);
      assert WellFormedBut(position, divided, {s} + {n});
      PrunedWellFormed(position, divided, n, {s});
      PrunedWellFormed(position, Pruned(divided, n), s, {});
    }
  }

  /** The new section is on the side where it belongs, and the others stay where they were. */
  lemma SplitClassifies(position: string -> Pos, ix: Index, s: Section, mine: bool, at: Pos, stray: Pos)
    requires WellFormed(position, ix)
    ensures var t := Split(ix, s, mine, at, stray);
      forall x <- t.forest ::
        if x in ix.forest then (x in t.wanted <==> x in ix.wanted) && (x in t.unwanted <==> x in ix.unwanted)
        else x == s && if mine then s in t.wanted && s !in t.unwanted else s !in t.wanted && s in t.unwanted
  {
  }

  lemma CannibalizedWellFormed(position: string -> Pos, ix: Index, s: Section)
    requires WellFormed(position, ix)
    ensures WellFormed(position, Cannibalized(ix, s))
  {
    if s in ix.forest && Next(ix.forest.Keys, s) != s {
      var n := Next(ix.forest.Keys, s);
      var (dying, refugee) := (ix.forest[s], ix.forest[n]);
      var p :| p in refugee.entries;
      assert p in dying.entries + refugee.entries;
    }
  }

  lemma ReplacedAgain(forest: Forest, s: Section, t: DigestTree, u: DigestTree)
    ensures forest[s := t][s := u] == forest[s := u]
  {
  }

  class DigestIndexer {
    const locator: LocateKeys
    const mirrors: nat
    /** `Hash(name).integer()`, as a digest. */
    const nameHash: string -> Digest
    var forest: Forest
    var wanted: set<Section>
    var unwanted: set<Section>

    constructor (locator: LocateKeys, mirrors: nat, nameHash: string -> Digest)
      ensures Valid() && fresh(this) && forest == map[] && wanted == {} == unwanted
      ensures this.locator == locator && this.mirrors == mirrors && this.nameHash == nameHash
    {
      this.locator, this.mirrors, this.nameHash := locator, mirrors, nameHash;
      forest, wanted, unwanted := map[], {}, {};
    }

    function State(): Index
      reads this
    {
      Index(forest, wanted, unwanted)
    }

    ghost predicate Valid()
      reads this
    {
      WellFormed(locator.ring.position, State())
    }

    function At(name: string): Pos {
      locator.ring.position(name)
    }

    predicate Mine(s: Section)
      reads locator, locator.ring
    {
      locator.SectionIsMine(s, mirrors)
    }

    /** The section is wanted if its keys are this node's to keep, and unwanted if they are not. */
    ghost predicate Classified(s: Section)
      reads this, locator, locator.ring
    {
      forall name | locator.SectionOf(name) == s ::
        var mine := KeepsAt(locator.ring.ring, At(name), mirrors, locator.self);
        (s in wanted <==> mine) && (s in unwanted <==> !mine)
    }

    lemma MineIsClassified(s: Section)
      requires if Mine(s) then s in wanted && s !in unwanted else s !in wanted && s in unwanted
      ensures Classified(s)
    {
      forall name | locator.SectionOf(name) == s
        ensures Mine(s) <==> KeepsAt(locator.ring.ring, At(name), mirrors, locator.self)
      {
        locator.SectionIsMineIffItsKeysAre(name, mirrors);
        locator.KeyIsMineIffNear(name, mirrors);
      }
    }

    method Update(key: string, value: Digest)
      requires Valid()
      modifies this
      ensures Valid()
      ensures var s := old(locator.SectionOf(key));
        State() == Updated(old(State()), s, old(Mine(s)), At(key), key, nameHash(key), value)
      // the key's leaf changes by the value, or starts from the hash of its name
      ensures var (s, at) := (locator.SectionOf(key), At(key));
        var was := if s in old(forest) then old(forest)[s].entries else map[];
        forest == old(forest)[s := DigestTree(s, was[
          at := Entry(Xor(value, if at in was then was[at].hash else nameHash(key)), key)])]
      // a section that is new is classified, all others stay as they were
      ensures var s := locator.SectionOf(key);
        && (s !in old(forest) ==> Classified(s))
        && (s in old(forest) ==> wanted == old(wanted) && unwanted == old(unwanted))
        && wanted - {s} == old(wanted) - {s} && unwanted - {s} == old(unwanted) - {s}
    {
      var section := locator.SectionOf(key);
      UpdatedWellFormed(locator.ring.position, State(), section, Mine(section), key, nameHash(key), value);
      if section !in forest {
        forest := forest[section := NEW_TREE];
      }
      InitTree(section);
      forest := forest[section := forest[section].Update(At(key), key, nameHash(key), value)];
      if section !in old(forest) {
        MineIsClassified(section);
      }
    }

    method Remove(key: string)
      requires Valid()
      modifies this
      ensures Valid()
      ensures State() == Removed(old(State()), old(locator.SectionOf(key)), At(key))
      ensures var s := locator.SectionOf(key);
        && (s !in old(forest) ==> State() == old(State()))
        && (s in old(forest) ==>
              var left := old(forest)[s].entries - {At(key)};
              if left == map[] then forest == old(forest) - {s} && wanted == old(wanted) - {s} && unwanted == old(unwanted) - {s}
              else forest == old(forest)[s := DigestTree(s, left)] && wanted == old(wanted) && unwanted == old(unwanted))
    {
      var section := locator.SectionOf(key);
      if section !in forest {
        return;
      }
      RemovedWellFormed(locator.ring.position, State(), section, At(key));
      forest := forest[section := forest[section].Remove(At(key))];
      Prune(section);
    }

    method InitTree(section: Section)
      requires section in forest
      modifies this
      ensures State() == Inited(old(State()), section, old(Mine(section)))
    {
      if forest[section].entries == map[] {
        forest := forest[section := forest[section].(id := section)];
        if Mine(section) {
          wanted := wanted + {section};
        } else {
          unwanted := unwanted + {section};
        }
      }
    }

    method Prune(section: Section)
      requires section in forest
      modifies this
      ensures State() == Pruned(old(State()), section)
    {
      var tree := forest[section];
      if tree.entries == map[] {
        unwanted := unwanted - {tree.id};
        wanted := wanted - {tree.id};
        forest := forest - {section};
      }
    }

    /** `emplace` and `initTree` for a section that has no tree. */
    method PlantTree(section: Section)
      requires section !in forest
      modifies this
      ensures forest == old(forest)[section := DigestTree(section, map[])]
      ensures wanted == old(if Mine(section) then wanted + {section} else wanted)
      ensures unwanted == old(if Mine(section) then unwanted else unwanted + {section})
    {
      ReplacedAgain(forest, section, NEW_TREE, DigestTree(section, map[]));
      forest := forest[section := NEW_TREE];
      InitTree(section);
    }

    /** The closure that `forEachInRange` calls to add every leaf between `first` and `last`. */
    method AddRange(source: DigestTree, target: DigestTree, first: int, last: int) returns (result: DigestTree)
      requires NamesMatch(locator.ring.position, source.entries)
      ensures result == DigestTree(target.id, InRange(source.entries, first, last) + target.entries)
      ensures target.entries == map[] ==> result.entries == InRange(source.entries, first, last)
    {
      result := target;
      var todo := set p | p in source.entries && first <= p <= last;
      ghost var range := InRange(source.entries, first, last);
      assert todo == range.Keys;
      while todo != {}
        invariant todo <= range.Keys
        invariant result == DigestTree(target.id, (map p | p in range && p !in todo :: range[p]) + target.entries)
      {
        var p :| p in todo;
        var entry := source.entries[p];
        result := result.Add(At(entry.name), entry);
        todo := todo - {p};
      }
      assert (map p | p in range && p !in todo :: range[p]) == range;
    }

    method RemoveRange(source: DigestTree, moved: DigestTree) returns (result: DigestTree)
      requires NamesMatch(locator.ring.position, moved.entries)
      ensures result == DigestTree(source.id, source.entries - moved.entries.Keys)
    {
      result := source;
      var todo := moved.entries.Keys;
      while todo != {}
        invariant todo <= moved.entries.Keys
        invariant result == DigestTree(source.id, source.entries - (moved.entries.Keys - todo))
      {
        var p :| p in todo;
        result := result.Remove(At(moved.entries[p].name));
        todo := todo - {p};
      }
      assert moved.entries.Keys - todo == moved.entries.Keys;
    }

    /** `where` has joined the ring: its section takes the keys up to it from the next tree.  `stray` is the number
        read from the id of a tree filed under "". */
    method SplitSection(where: string, stray: Pos)
      requires Valid()
      modifies this
      ensures Valid()
      ensures var s := old(locator.SectionOf(where)); State() == Split(old(State()), s, old(Mine(s)), At(where), stray)
      ensures forall s <- forest ::
        if s in old(forest) then (s in wanted <==> s in old(wanted)) && (s in unwanted <==> s in old(unwanted)) else Classified(s)
    {
      if forest == map[] {
        return;
      }
      var section := locator.SectionOf(where);
      if section in forest {
        return;
      }
      SplitWellFormed(locator.ring.position, State(), section, Mine(section), At(where), stray);
      ghost var before, mine := State(), Mine(section);
      var next := Next(forest.Keys, section);
      PlantTree(section);
      var first, last := 0, At(where);
      if (forall m <- forest.Keys :: next <= m) && forest[next].id < section {
        first := Increment(NumberOf(forest[next].id, stray));
      }
      var newTree := AddRange(forest[next], forest[section], first, last);
      var sourceTree := RemoveRange(forest[next], newTree);
      ReplacedAgain(before.forest, section, forest[section], newTree);
      forest := forest[section := newTree][next := sourceTree];
      assert State() == Divided(before, section, mine, last, stray);
      Prune(next);
      Prune(section);
      SplitClassifies(locator.ring.position, before, section, mine, last, stray);
      hide Divided, Pruned, Mine, WellFormed, Classified;
      if section in forest {
        MineIsClassified(section);
      }
    }

    /** `where` is about to leave the ring: the next tree takes its keys. */
    method CannibalizeSection(where: string)
      requires Valid()
      modifies this
      ensures Valid()
      ensures State() == Cannibalized(old(State()), old(locator.SectionOf(where)))
      ensures forall s <- forest ::
        s in old(forest) && (s in wanted <==> s in old(wanted)) && (s in unwanted <==> s in old(unwanted))
    {
      var section := locator.SectionOf(where);
      if section !in forest {
        return;
      }
      CannibalizedWellFormed(locator.ring.position, State(), section);
      var next := Next(forest.Keys, section);
      if next == section {
        return;
      }
      var dyingTree := forest[section];
      var refugeeTree := AddRange(dyingTree, forest[next], 0, POSITIONS - 1);
      assert InRange(dyingTree.entries, 0, POSITIONS - 1) == dyingTree.entries;
      forest := forest[next := refugeeTree];
      unwanted := unwanted - {dyingTree.id};
      wanted := wanted - {dyingTree.id};
      forest := forest - {section};
    }
  }
}
