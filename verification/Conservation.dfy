/** Any run of updates, removals, splits and merges of one forest, whatever the ring does meanwhile. */
module Conservation {
  import opened Bytes
  import opened XorFold
  import opened HashRings
  import opened DigestIndexers
  import opened Placement

  /** The operations with what the locator answers at the moment: the section, and whether it is the node's own. */
  datatype Operation =
    | Change(name: string, value: Digest, section: Section, mine: bool)
    | Forget(name: string, section: Section)
    | SplitAt(at: Pos, section: Section, mine: bool, stray: Pos)
    | Merge(section: Section)

  datatype Hashing = Hashing(position: string -> Pos, digest: string -> Digest)

  ghost function Applied(h: Hashing, ix: Index, op: Operation): Index {
    match op
    case Change(name, value, s, mine) => Updated(ix, s, mine, h.position(name), name, h.digest(name), value)
    case Forget(name, s) => Removed(ix, s, h.position(name))
    case SplitAt(at, s, mine, stray) => Split(ix, s, mine, at, stray)
    case Merge(s) => Cannibalized(ix, s)
  }

  ghost function AppliedAll(h: Hashing, ix: Index, ops: seq<Operation>): Index {
    if ops == [] then ix else Applied(h, AppliedAll(h, ix, ops[..|ops| - 1]), ops[|ops| - 1])
  }

  /** Over any run, every tree is non-empty and under its own id, its leaves lie where their names hash to, and
      the wanted and unwanted sets split the sections there are. */
  lemma {:induction false} RunStaysWellFormed(h: Hashing, ix: Index, ops: seq<Operation>)
    requires WellFormed(h.position, ix)
    ensures WellFormed(h.position, AppliedAll(h, ix, ops))
  {
    if ops != [] {
      hide WellFormed;
      var n := |ops| - 1;
      RunStaysWellFormed(h, ix, ops[..n]);
      var before := AppliedAll(h, ix, ops[..n]);
      match ops[n]
      case Change(name, value, s, mine) =>
        UpdatedWellFormed(h.position, before, s, mine, name, h.digest(name), value);
      case Forget(name, s) => RemovedWellFormed(h.position, before, s, h.position(name));
      case SplitAt(at, s, mine, stray) => SplitWellFormed(h.position, before, s, mine, at, stray);
      case Merge(s) => CannibalizedWellFormed(h.position, before, s);
    }
  }

  /** An update finds its key in no other tree than the one the ring names. */
  ghost predicate Undisputed(h: Hashing, ix: Index, op: Operation) {
    op.Change? ==> forall t: Section | t != op.section :: LeafAt(ix.forest, t, h.position(op.name)) == None
  }

  lemma AppliedApart(h: Hashing, ix: Index, op: Operation)
    requires WellFormed(h.position, ix) && Apart(ix.forest)
    ensures Apart(Applied(h, ix, op).forest) <==> Undisputed(h, ix, op)
  {
    assert Tidy(ix.forest);
    match op
    case Change(name, value, s, mine) => UpdateApart(ix, s, mine, h.position(name), name, h.digest(name), value);
    case Forget(name, s) =>
      forall t: Section, p: Pos
        ensures LeafAt(Removed(ix, s, h.position(name)).forest, t, p).Some? ==> LeafAt(ix.forest, t, p).Some?
      {
      }
    case SplitAt(at, s, mine, stray) => SplitConserves(ix, s, mine, at, stray);
    case Merge(s) => CannibalizeConserves(ix, s);
  }

  /** In no state of the run is a key in two trees. */
  ghost predicate AlwaysApart(h: Hashing, ix: Index, ops: seq<Operation>) {
    Apart(AppliedAll(h, ix, ops).forest) && (ops != [] ==> AlwaysApart(h, ix, ops[..|ops| - 1]))
  }

  /** No update of the run finds its key in a tree other than its own. */
  ghost predicate NoneDisputed(h: Hashing, ix: Index, ops: seq<Operation>) {
    var n := |ops| - 1;
    ops != [] ==> NoneDisputed(h, ix, ops[..n]) && Undisputed(h, AppliedAll(h, ix, ops[..n]), ops[n])
  }

  /** Over any run, no key is ever in two trees exactly if each update finds its key in no tree but its own. */
  lemma {:induction false} RunStaysApart(h: Hashing, ix: Index, ops: seq<Operation>)
    requires WellFormed(h.position, ix) && Apart(ix.forest)
    ensures AlwaysApart(h, ix, ops) <==> NoneDisputed(h, ix, ops)
  {
    hide Applied, Apart, Undisputed, WellFormed;
    if ops != [] {
      var n := |ops| - 1;
      RunStaysApart(h, ix, ops[..n]);
      if AlwaysApart(h, ix, ops[..n]) {
        RunStaysWellFormed(h, ix, ops[..n]);
        AppliedApart(h, AppliedAll(h, ix, ops[..n]), ops[n]);
      }
    }
  }

  /** Splits and merges alone move leaves about and neither lose nor change any. */
  lemma {:induction false} MovesKeepEveryLeaf(h: Hashing, ix: Index, ops: seq<Operation>, p: Pos, e: Entry)
    requires WellFormed(h.position, ix) && Apart(ix.forest)
    requires forall op <- ops :: op.SplitAt? || op.Merge?
    ensures WellFormed(h.position, AppliedAll(h, ix, ops)) && Apart(AppliedAll(h, ix, ops).forest)
    ensures Holds(AppliedAll(h, ix, ops).forest, p, e) <==> Holds(ix.forest, p, e)
  {
    if ops != [] {
      var n := |ops| - 1;
      MovesKeepEveryLeaf(h, ix, ops[..n], p, e);
      RunStaysWellFormed(h, ix, ops);
      var before := AppliedAll(h, ix, ops[..n]);
      assert Tidy(before.forest);
      hide WellFormed, Apart, Holds, Split, Cannibalized, Tidy;
      assert ops[n] in ops;
      match ops[n]
      case SplitAt(at, s, mine, stray) => SplitConserves(before, s, mine, at, stray);
      case Merge(s) => CannibalizeConserves(before, s);
    }
  }
}
