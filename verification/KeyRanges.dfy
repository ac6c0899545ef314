/** Ranges of keys under a Merkle point, and how `Synchronizer::compare` narrows the range it asks for.

    Keys are 64-bit words that the Merkle tree compares byte by byte from the first byte in memory, that is,
    as big-endian numbers; the code compares them as the little-endian machine numbers they are. */
module KeyRanges {
  import opened Bytes

  const WIDTH := 64

  /** The bits of a machine word, most significant first. */
  type Word = w: seq<bool> | |w| == WIDTH witness seq(WIDTH, _ => false)

  function Zeros(n: nat): seq<bool> { seq(n, _ => false) }

  function Ones(n: nat): seq<bool> { seq(n, _ => true) }

  function ShiftRight(w: Word, n: nat): Word
    requires n <= WIDTH
  {
    Zeros(n) + w[..WIDTH - n]
  }

  function ShiftLeft(w: Word, n: nat): Word
    requires n <= WIDTH
  {
    w[n..] + Zeros(n)
  }

  function Xor(v: Word, w: Word): Word {
    seq(WIDTH, i requires 0 <= i < WIDTH => v[i] != w[i])
  }

  /** `htobe64` and `be64toh`: the bytes in the opposite order. */
  function SwapBytes(w: Word): Word {
    seq(WIDTH, i requires 0 <= i < WIDTH => w[(7 - i / 8) * 8 + i % 8])
  }

  /** Unsigned `<=`: the numbers agree down to a bit that only the larger one has. */
  predicate AtMost(v: seq<bool>, w: seq<bool>)
    requires |v| == |w|
  {
    v == [] || (!v[0] && w[0]) || (v[0] == w[0] && AtMost(v[1..], w[1..]))
  }

  function Value(w: seq<bool>): nat {
    if w == [] then 0 else 2 * Value(w[..|w| - 1]) + if w[|w| - 1] then 1 else 0
  }

  function Pow2(n: nat): nat {
    if n == 0 then 1 else 2 * Pow2(n - 1)
  }

  lemma {:induction false} ValueFromFront(b: bool, w: seq<bool>)
    ensures Value([b] + w) == (if b then Pow2(|w|) else 0) + Value(w)
    ensures Value(w) < Pow2(|w|)
  {
    if w != [] {
      var n := |w| - 1;
      ValueFromFront(b, w[..n]);
      assert ([b] + w)[..n + 1] == [b] + w[..n];
    } else {
      assert [b][..0] == [];
    }
  }

  /** Comparing bit by bit is comparing the numbers. */
  lemma {:induction false} AtMostIsUnsigned(v: seq<bool>, w: seq<bool>)
    requires |v| == |w|
    ensures AtMost(v, w) <==> Value(v) <= Value(w)
  {
    if v != [] {
      AtMostIsUnsigned(v[1..], w[1..]);
      ValueFromFront(v[0], v[1..]);
      ValueFromFront(w[0], w[1..]);
      assert v == [v[0]] + v[1..] && w == [w[0]] + w[1..];
    }
  }

  /** `turbo::merkle_tree::location`: all keys that share the first `keybits` bits with `key`. */
  datatype MerklePoint = MerklePoint(hash: nat, key: Word, keybits: nat)

  const NULL_POINT := MerklePoint(0, Zeros(WIDTH), 0)

  function Prefix(w: Word, bits: nat): seq<bool> {
    SwapBytes(w)[..if bits < WIDTH then bits else WIDTH]
  }

  /** The Merkle tree's order on keys. */
  predicate KeyAtMost(v: Word, w: Word) {
    AtMost(SwapBytes(v), SwapBytes(w))
  }

  predicate Under(point: MerklePoint, k: Word) {
    Prefix(k, point.keybits) == Prefix(point.key, point.keybits)
  }

  predicate Between(range: (Word, Word), k: Word) {
    KeyAtMost(range.0, k) && KeyAtMost(k, range.1)
  }

  /** What `fromLocation` leaves in its two fields: the prefix followed by zeros, and by ones. */
  ghost function RangeOf(point: MerklePoint): (Word, Word) {
    var prefix := Prefix(point.key, point.keybits);
    (SwapBytes(prefix + Zeros(WIDTH - |prefix|)), SwapBytes(prefix + Ones(WIDTH - |prefix|)))
  }

  lemma SwapTwice(w: Word)
    ensures SwapBytes(SwapBytes(w)) == w
  {
  }

  lemma {:induction false} AtMostReflexive(v: seq<bool>)
    ensures AtMost(v, v)
  {
    if v != [] {
      AtMostReflexive(v[1..]);
    }
  }

  lemma {:induction false} AtMostAntisymmetric(v: seq<bool>, w: seq<bool>)
    requires |v| == |w| && AtMost(v, w) && AtMost(w, v)
    ensures v == w
  {
    if v != [] {
      AtMostAntisymmetric(v[1..], w[1..]);
      assert v == [v[0]] + v[1..] && w == [w[0]] + w[1..];
    }
  }

  lemma {:induction false} AtMostTotal(v: seq<bool>, w: seq<bool>)
    requires |v| == |w|
    ensures AtMost(v, w) || AtMost(w, v)
  {
    if v != [] {
      AtMostTotal(v[1..], w[1..]);
    }
  }

  lemma {:induction false} AtMostTransitive(u: seq<bool>, v: seq<bool>, w: seq<bool>)
    requires |u| == |v| == |w| && AtMost(u, v) && AtMost(v, w)
    ensures AtMost(u, w)
  {
    if u != [] && u[0] == v[0] == w[0] {
      AtMostTransitive(u[1..], v[1..], w[1..]);
    }
  }

  /** Bits beyond a common prefix decide. */
  lemma {:induction false} AtMostAfterPrefix(p: seq<bool>, v: seq<bool>, w: seq<bool>)
    requires |v| == |w|
    ensures AtMost(p + v, p + w) <==> AtMost(v, w)
  {
    if p == [] {
      assert p + v == v && p + w == w;
    } else {
      assert (p + v)[1..] == p[1..] + v && (p + w)[1..] == p[1..] + w;
      AtMostAfterPrefix(p[1..], v, w);
    }
  }

  predicate BitsWithin(v: seq<bool>, w: seq<bool>)
    requires |v| == |w|
  {
    forall i | 0 <= i < |v| :: v[i] ==> w[i]
  }

  /** A word that has all the bits of another one is at least as large, in either byte order. */
  lemma {:induction false} MoreBitsIsLarger(v: seq<bool>, w: seq<bool>)
    requires |v| == |w| && BitsWithin(v, w)
    ensures AtMost(v, w)
  {
    if v != [] {
      assert forall i | 0 <= i < |v| - 1 :: v[1..][i] == v[i + 1] && w[1..][i] == w[i + 1];
      MoreBitsIsLarger(v[1..], w[1..]);
    }
  }

  /** Between a prefix followed by zeros and the same prefix followed by ones lie exactly the words with
      that prefix. */
  lemma {:induction false} PrefixRange(p: seq<bool>, n: nat, k: seq<bool>)
    requires |k| == |p| + n
    ensures AtMost(p + Zeros(n), k) && AtMost(k, p + Ones(n)) <==> k[..|p|] == p
  {
    if p == [] {
      assert p + Zeros(n) == Zeros(n) && p + Ones(n) == Ones(n);
      MoreBitsIsLarger(Zeros(n), k);
      MoreBitsIsLarger(k, Ones(n));
    } else {
      assert (p + Zeros(n))[1..] == p[1..] + Zeros(n) && (p + Ones(n))[1..] == p[1..] + Ones(n);
      PrefixRange(p[1..], n, k[1..]);
      assert k[..|p|] == [k[0]] + k[1..][..|p| - 1] && p == [p[0]] + p[1..];
    }
  }

  /** The range of a point holds exactly the keys under it. */
  lemma RangeHoldsKeysUnder(point: MerklePoint, k: Word)
    ensures Between(RangeOf(point), k) <==> Under(point, k)
  {
    var prefix := Prefix(point.key, point.keybits);
    var n := WIDTH - |prefix|;
    SwapTwice(prefix + Zeros(n));
    SwapTwice(prefix + Ones(n));
    PrefixRange(prefix, n, SwapBytes(k));
  }

  lemma ShiftedOutAndBack(w: Word, bits: nat)
    requires bits <= WIDTH
    ensures ShiftLeft(ShiftRight(w, WIDTH - bits), WIDTH - bits) == w[..bits] + Zeros(WIDTH - bits)
  {
  }

  lemma FilledWithOnes(p: seq<bool>)
    requires |p| <= WIDTH
    ensures Xor(p + Zeros(WIDTH - |p|), ShiftRight(Ones(WIDTH), |p|)) == p + Ones(WIDTH - |p|)
  {
  }

  class KeyRange {
    var first: Word
    var last: Word

    constructor (location: MerklePoint)
      ensures (first, last) == RangeOf(location)
    {
      first, last := Zeros(WIDTH), Zeros(WIDTH);
      new;
      FromLocation(location);
    }

    method FromLocation(location: MerklePoint)
      modifies this
      ensures (first, last) == RangeOf(location)
    {
      SwapTwice(location.key);
      if location.keybits >= WIDTH {
        first, last := location.key, location.key;
        var prefix := SwapBytes(location.key)[..WIDTH];
        assert prefix + Zeros(0) == SwapBytes(location.key) == prefix + Ones(0);
      } else if location.keybits == 0 {
        first, last := Zeros(WIDTH), Ones(WIDTH);
        assert first == SwapBytes([] + Zeros(WIDTH)) && last == SwapBytes([] + Ones(WIDTH));
      } else {
        var shift := WIDTH - location.keybits;
        first := SwapBytes(location.key);
        ShiftedOutAndBack(first, location.keybits);
        first := ShiftLeft(ShiftRight(first, shift), shift);
        FilledWithOnes(Prefix(location.key, location.keybits));
        last := Xor(first, ShiftRight(Ones(WIDTH), location.keybits));
        first := SwapBytes(first);
        last := SwapBytes(last);
      }
    }
  }

  // ---------- narrowing a request ----------

  /** The points are on one path down the tree, `inner` at or below `outer`. */
  predicate Below(outer: MerklePoint, inner: MerklePoint) {
    outer.keybits <= inner.keybits && Under(outer, inner.key)
  }

  ghost function Narrowed(outer: (Word, Word), inner: (Word, Word)): seq<(Word, Word)> {
    var low := if AtMost(inner.0, outer.0) then [] else [(outer.0, inner.0)];
    var high := if AtMost(outer.1, inner.1) then [] else [(inner.1, outer.1)];
    if !AtMost(outer.0, inner.0) || !AtMost(inner.0, outer.1) || outer == inner then [outer] else low + high
  }

  lemma SwapKeepsBits(v: Word, w: Word)
    requires BitsWithin(v, w)
    ensures AtMost(SwapBytes(v), SwapBytes(w)) && KeyAtMost(SwapBytes(v), SwapBytes(w))
  {
    MoreBitsIsLarger(v, w);
    MoreBitsIsLarger(SwapBytes(v), SwapBytes(w));
    SwapTwice(v);
    SwapTwice(w);
  }

  /** The ends of one range lie within another one's, in machine order and in key order alike. */
  ghost predicate EndsWithin(inner: (Word, Word), outer: (Word, Word)) {
    && AtMost(outer.0, inner.0) && AtMost(inner.0, outer.1) && AtMost(inner.1, outer.1)
    && KeyAtMost(outer.0, inner.0) && KeyAtMost(inner.0, outer.1) && KeyAtMost(inner.1, outer.1)
    && KeyAtMost(outer.0, inner.1)
  }

  lemma SwappedEndsWithin(inner: (Word, Word), outer: (Word, Word))
    requires BitsWithin(outer.0, inner.0) && BitsWithin(inner.0, outer.1)
    requires BitsWithin(inner.1, outer.1) && BitsWithin(outer.0, inner.1)
    ensures EndsWithin((SwapBytes(inner.0), SwapBytes(inner.1)), (SwapBytes(outer.0), SwapBytes(outer.1)))
  {
    SwapKeepsBits(outer.0, inner.0);
    SwapKeepsBits(inner.0, outer.1);
    SwapKeepsBits(inner.1, outer.1);
    SwapKeepsBits(outer.0, inner.1);
  }

  /** For a point below another one, machine order and key order agree on where the ends of their ranges
      lie. */
  lemma EndsNest(outer: MerklePoint, inner: MerklePoint)
    requires Below(outer, inner)
    ensures EndsWithin(RangeOf(inner), RangeOf(outer))
  {
    hide SwapBytes;
    var p, q := Prefix(outer.key, outer.keybits), Prefix(inner.key, inner.keybits);
    assert q[..|p|] == p;
    EndsNestBits(p, q);
    SwappedEndsWithin(
      (q + Zeros(WIDTH - |q|), q + Ones(WIDTH - |q|)),
      (p + Zeros(WIDTH - |p|), p + Ones(WIDTH - |p|)));
  }

  /** Filling a longer prefix keeps all the ones of the shorter one's lower end, and adds none its upper end
      does not have. */
  lemma EndsNestBits(p: seq<bool>, q: seq<bool>)
    requires |p| <= |q| <= WIDTH && q[..|p|] == p
    ensures BitsWithin(p + Zeros(WIDTH - |p|), q + Zeros(WIDTH - |q|))
    ensures BitsWithin(q + Zeros(WIDTH - |q|), p + Ones(WIDTH - |p|))
    ensures BitsWithin(q + Ones(WIDTH - |q|), p + Ones(WIDTH - |p|))
    ensures BitsWithin(p + Zeros(WIDTH - |p|), q + Ones(WIDTH - |q|))
  {
    assert forall k | 0 <= k < |p| :: q[k] == p[k];
  }

  predicate Asked(requests: seq<(Word, Word)>, k: Word) {
    exists r <- requests :: Between(r, k)
  }

  /** The outer range's keys that the inner range lacks. */
  predicate Missing(outer: MerklePoint, inner: MerklePoint, k: Word) {
    Under(outer, k) && !Under(inner, k)
  }

  /** For a point below the outer one, the narrowed requests stay inside the outer range, and ask for every key of
      it that the inner range does not have. */
  lemma NarrowedIsComplete(outer: MerklePoint, inner: MerklePoint, k: Word)
    requires Below(outer, inner)
    ensures var requests := Narrowed(RangeOf(outer), RangeOf(inner));
      && (Asked(requests, k) ==> Under(outer, k))
      && (Missing(outer, inner, k) ==> Asked(requests, k))
  {
    var o, i := RangeOf(outer), RangeOf(inner);
    var requests := Narrowed(o, i);
    EndsNest(outer, inner);
    RangeHoldsKeysUnder(outer, k);
    RangeHoldsKeysUnder(inner, k);
    AtMostReflexive(SwapBytes(o.0));
    AtMostReflexive(SwapBytes(o.1));
    forall r | r in requests && Between(r, k) ensures Under(outer, k) {
      AtMostTransitive(SwapBytes(o.0), SwapBytes(r.0), SwapBytes(k));
      AtMostTransitive(SwapBytes(k), SwapBytes(r.1), SwapBytes(o.1));
    }
    if Under(outer, k) && !Under(inner, k) && o != i {
      AtMostTotal(SwapBytes(i.0), SwapBytes(k));
      AtMostTotal(SwapBytes(k), SwapBytes(i.1));
      if !KeyAtMost(i.0, k) {
        if AtMost(i.0, o.0) {
          AtMostAntisymmetric(i.0, o.0);
        }
        assert (o.0, i.0) in requests && Between((o.0, i.0), k);
      } else {
        if AtMost(o.1, i.1) {
          AtMostAntisymmetric(o.1, i.1);
        }
        assert (i.1, o.1) in requests && Between((i.1, o.1), k);
      }
    }
  }

  /** And they ask for nothing else, but where the inner range begins and where it ends, unless they ask for all because
      both ranges are the same. */
  lemma NarrowedIsExact(outer: MerklePoint, inner: MerklePoint, k: Word)
    requires Below(outer, inner)
    ensures var (o, i) := (RangeOf(outer), RangeOf(inner));
      Asked(Narrowed(o, i), k) <==>
        if o == i then Under(outer, k) else Missing(outer, inner, k) || (k == i.0 != o.0) || (k == i.1 != o.1)
  {
    var o, i := RangeOf(outer), RangeOf(inner);
    var requests := Narrowed(o, i);
    EndsNest(outer, inner);
    NarrowedIsComplete(outer, inner, k);
    RangeHoldsKeysUnder(outer, k);
    RangeHoldsKeysUnder(inner, k);
    EndsInOrder(inner);
    hide RangeOf, Under;
    if o == i {
      assert o in [o];
    } else {
      if AtMost(i.0, o.0) {
        AtMostAntisymmetric(i.0, o.0);
      }
      if AtMost(o.1, i.1) {
        AtMostAntisymmetric(o.1, i.1);
      }
      AtMostReflexive(SwapBytes(k));
      assert i.0 != o.0 ==> (o.0, i.0) in requests;
      assert i.1 != o.1 ==> (i.1, o.1) in requests;
      assert forall r <- requests :: r == (o.0, i.0) || r == (i.1, o.1);
      if KeyAtMost(i.0, k) && KeyAtMost(k, i.0) {
        KeyEqual(k, i.0);
      }
      if KeyAtMost(i.1, k) && KeyAtMost(k, i.1) {
        KeyEqual(k, i.1);
      }
    }
  }

  lemma EndsInOrder(point: MerklePoint)
    ensures KeyAtMost(RangeOf(point).0, RangeOf(point).1)
  {
    EndsNest(point, point);
  }

  lemma KeyEqual(v: Word, w: Word)
    requires KeyAtMost(v, w) && KeyAtMost(w, v)
    ensures v == w
  {
    AtMostAntisymmetric(SwapBytes(v), SwapBytes(w));
    SwapTwice(v);
    SwapTwice(w);
  }

  // ---------- points on different paths ----------

  /** Neither point is below the other one: they have no keys in common. */
  predicate OffPath(outer: MerklePoint, inner: MerklePoint) {
    !Below(outer, inner) && !Below(inner, outer)
  }

  /** Where two prefixes part, the first one has the zero. */
  predicate PartsBefore(p: seq<bool>, q: seq<bool>) {
    p != [] && q != [] && if p[0] == q[0] then PartsBefore(p[1..], q[1..]) else q[0]
  }

  /** Where two prefixes part decides the order of all words that have them. */
  lemma {:induction false} PartingDecides(p: seq<bool>, q: seq<bool>, v: seq<bool>, w: seq<bool>)
    requires |v| == |w| && p <= v && q <= w && !(p <= q) && !(q <= p)
    ensures AtMost(v, w) <==> PartsBefore(p, q)
    ensures AtMost(w, v) <==> !PartsBefore(p, q)
  {
    if p[0] == q[0] {
      assert p == [p[0]] + p[1..] && q == [q[0]] + q[1..];
      PartingDecides(p[1..], q[1..], v[1..], w[1..]);
    }
  }

  lemma KeysApart(outer: MerklePoint, inner: MerklePoint, k: Word, l: Word)
    requires OffPath(outer, inner) && Under(outer, k) && Under(inner, l)
    ensures var before := PartsBefore(Prefix(outer.key, outer.keybits), Prefix(inner.key, inner.keybits));
      (KeyAtMost(k, l) <==> before) && (KeyAtMost(l, k) <==> !before) && k != l
  {
    var p, q := Prefix(outer.key, outer.keybits), Prefix(inner.key, inner.keybits);
    assert p <= SwapBytes(k) && q <= SwapBytes(l);
    assert p <= q ==> Prefix(inner.key, outer.keybits) == p;
    assert q <= p ==> Prefix(outer.key, inner.keybits) == q;
    PartingDecides(p, q, SwapBytes(k), SwapBytes(l));
  }

  lemma EndsAreUnder(point: MerklePoint)
    ensures Under(point, RangeOf(point).0) && Under(point, RangeOf(point).1)
  {
    var prefix := Prefix(point.key, point.keybits);
    SwapTwice(prefix + Zeros(WIDTH - |prefix|));
    SwapTwice(prefix + Ones(WIDTH - |prefix|));
  }

  /** The inner point's range begins within the outer one's in machine order, although it lies elsewhere: it is
      taken for a subset. */
  ghost predicate TakenForSubset(outer: MerklePoint, inner: MerklePoint) {
    var (o, i) := (RangeOf(outer), RangeOf(inner));
    OffPath(outer, inner) && AtMost(o.0, i.0) && AtMost(i.0, o.1)
  }

  /** And moreover it comes first in key order, and ends last in machine order. */
  ghost predicate AsksInVain(outer: MerklePoint, inner: MerklePoint) {
    var (o, i) := (RangeOf(outer), RangeOf(inner));
    TakenForSubset(outer, inner) && !KeyAtMost(o.0, i.0) && AtMost(o.1, i.1)
  }

  /** What is asked for on behalf of a range that is taken for a subset: from the outer range up to the inner one, or
      from the inner one up to the outer one, or nothing. */
  lemma OffPathRequests(outer: MerklePoint, inner: MerklePoint, k: Word)
    requires TakenForSubset(outer, inner)
    ensures var (o, i) := (RangeOf(outer), RangeOf(inner));
      Asked(Narrowed(o, i), k) <==>
        if KeyAtMost(o.0, i.0) then KeyAtMost(o.0, k) && KeyAtMost(k, i.0)
        else !AtMost(o.1, i.1) && KeyAtMost(i.1, k) && KeyAtMost(k, o.1)
  {
    var o, i := RangeOf(outer), RangeOf(inner);
    EndsAreUnder(outer);
    EndsAreUnder(inner);
    KeysApart(outer, inner, o.0, i.0);
    KeysApart(outer, inner, o.1, i.1);
    hide RangeOf, SwapBytes, Under, OffPath;
    if AtMost(i.0, o.0) {
      AtMostAntisymmetric(i.0, o.0);
    }
    var low, high := (o.0, i.0), (i.1, o.1);
    assert Narrowed(o, i) == [low] + if AtMost(o.1, i.1) then [] else [high];
    if Between(low, k) {
      AtMostTransitive(SwapBytes(o.0), SwapBytes(k), SwapBytes(i.0));
    }
    if Between(high, k) {
      AtMostTransitive(SwapBytes(i.1), SwapBytes(k), SwapBytes(o.1));
    }
    assert low in Narrowed(o, i) && (!AtMost(o.1, i.1) ==> high in Narrowed(o, i));
  }

  /** For any two points, on one path or not: the requests ask for every key of the outer range that the inner one
      does not have, except when the inner range is taken for a subset, comes first in key order, and ends last in
      machine order. Then they ask for no key at all. */
  lemma NarrowingCovers(outer: MerklePoint, inner: MerklePoint)
    ensures var requests := Narrowed(RangeOf(outer), RangeOf(inner));
      && ((forall k: Word :: Missing(outer, inner, k) ==> Asked(requests, k)) <==> !AsksInVain(outer, inner))
      && (AsksInVain(outer, inner) ==> forall k: Word :: !Asked(requests, k))
  {
    hide RangeOf, Under, Missing, TakenForSubset, OffPath;
    if AsksInVain(outer, inner) {
      forall k: Word ensures !Asked(Narrowed(RangeOf(outer), RangeOf(inner)), k) {
        OffPathRequests(outer, inner, k);
      }
      FirstIsMissing(outer, inner);
    } else {
      forall k: Word | Missing(outer, inner, k) ensures Asked(Narrowed(RangeOf(outer), RangeOf(inner)), k) {
        NarrowingCoversKey(outer, inner, k);
      }
    }
  }

  lemma FirstIsMissing(outer: MerklePoint, inner: MerklePoint)
    requires TakenForSubset(outer, inner)
    ensures Missing(outer, inner, RangeOf(outer).0)
  {
    var k := RangeOf(outer).0;
    EndsAreUnder(outer);
    hide RangeOf, SwapBytes;
    if Under(inner, k) {
      KeysApart(outer, inner, k, k);
    }
  }

  lemma UnderBoth(upper: MerklePoint, lower: MerklePoint, k: Word)
    requires Below(upper, lower) && Under(lower, k)
    ensures Under(upper, k)
  {
    assert Prefix(k, upper.keybits) == Prefix(k, lower.keybits)[..|Prefix(k, upper.keybits)|];
    assert Prefix(lower.key, upper.keybits) == Prefix(lower.key, lower.keybits)[..|Prefix(k, upper.keybits)|];
  }

  lemma NarrowingCoversKey(outer: MerklePoint, inner: MerklePoint, k: Word)
    requires Missing(outer, inner, k) && !AsksInVain(outer, inner)
    ensures Asked(Narrowed(RangeOf(outer), RangeOf(inner)), k)
  {
    var o, i := RangeOf(outer), RangeOf(inner);
    RangeHoldsKeysUnder(outer, k);
    if Below(outer, inner) {
      NarrowedIsComplete(outer, inner, k);
    } else if TakenForSubset(outer, inner) {
      EndsAreUnder(outer);
      EndsAreUnder(inner);
      KeysApart(outer, inner, o.0, i.0);
      KeysApart(outer, inner, k, i.0);
      KeysApart(outer, inner, k, i.1);
      hide RangeOf, SwapBytes, Under, OffPath;
      OffPathRequests(outer, inner, k);
    } else {
      if Below(inner, outer) {
        UnderBoth(inner, outer, k);
      }
      assert OffPath(outer, inner);
      hide RangeOf, SwapBytes, Under, OffPath;
      assert Narrowed(o, i) == [o];
      assert o in Narrowed(o, i);
    }
  }

  /** And they ask for keys outside the outer range exactly if the inner range is taken for a subset and they do not
      ask in vain. */
  lemma NarrowingStaysInside(outer: MerklePoint, inner: MerklePoint)
    ensures var requests := Narrowed(RangeOf(outer), RangeOf(inner));
      (forall k: Word :: Asked(requests, k) ==> Under(outer, k))
      <==> (TakenForSubset(outer, inner) ==> AsksInVain(outer, inner))
  {
    var o, i := RangeOf(outer), RangeOf(inner);
    hide RangeOf, SwapBytes, Under, OffPath, TakenForSubset;
    if TakenForSubset(outer, inner) {
      if AsksInVain(outer, inner) {
        NarrowingCovers(outer, inner);
      } else {
        AsksOutside(outer, inner);
      }
    } else {
      forall k: Word | Asked(Narrowed(o, i), k) ensures Under(outer, k) {
        OnPathStaysInside(outer, inner, k);
      }
    }
  }

  lemma AsksOutside(outer: MerklePoint, inner: MerklePoint)
    requires TakenForSubset(outer, inner) && !AsksInVain(outer, inner)
    ensures exists k: Word :: Asked(Narrowed(RangeOf(outer), RangeOf(inner)), k) && !Under(outer, k)
  {
    var o, i := RangeOf(outer), RangeOf(inner);
    var k := if KeyAtMost(o.0, i.0) then i.0 else i.1;
    EndsAreUnder(outer);
    EndsAreUnder(inner);
    KeysApart(outer, inner, o.0, i.0);
    KeysApart(outer, inner, o.1, i.1);
    if Under(outer, k) {
      KeysApart(outer, inner, k, k);
    }
    AtMostReflexive(SwapBytes(k));
    hide RangeOf, SwapBytes, Under, OffPath;
    OffPathRequests(outer, inner, k);
  }

  lemma OnPathStaysInside(outer: MerklePoint, inner: MerklePoint, k: Word)
    requires !TakenForSubset(outer, inner) && Asked(Narrowed(RangeOf(outer), RangeOf(inner)), k)
    ensures Under(outer, k)
  {
    var o, i := RangeOf(outer), RangeOf(inner);
    RangeHoldsKeysUnder(outer, k);
    if Below(outer, inner) {
      NarrowedIsComplete(outer, inner, k);
    } else if Below(inner, outer) {
      EndsNest(inner, outer);
      hide RangeOf, SwapBytes, Under;
      if AtMost(o.0, i.0) {
        AtMostAntisymmetric(o.0, i.0);
      }
    } else {
      hide RangeOf, SwapBytes, Under;
      assert Narrowed(o, i) == [o];
    }
  }

  /** `Synchronizer::compare`, when the other side's point covers more than ours: the ranges of keys to ask
      the other side for.  The comparisons are of machine words. */
  method NarrowRange(point: MerklePoint, diff: MerklePoint) returns (requests: seq<(Word, Word)>)
    ensures requests == Narrowed(RangeOf(point), RangeOf(diff))
    ensures Below(point, diff) ==> forall k: Word ::
      (Asked(requests, k) ==> Under(point, k)) && (Missing(point, diff, k) ==> Asked(requests, k))
    ensures (forall k: Word :: Missing(point, diff, k) ==> Asked(requests, k)) <==> !AsksInVain(point, diff)
  {
    var outer := new KeyRange(point);
    var inner := new KeyRange(diff);
    requests := [];
    if !AtMost(outer.first, inner.first) || !AtMost(inner.first, outer.last)
      || (outer.first == inner.first && outer.last == inner.last) {
      requests := requests + [(outer.first, outer.last)];
    } else {
      if !AtMost(inner.first, outer.first) {
        requests := requests + [(outer.first, inner.first)];
      }
      if !AtMost(outer.last, inner.last) {
        requests := requests + [(inner.last, outer.last)];
      }
    }
    NarrowedCovers(point, diff, requests);
  }

  lemma NarrowedCovers(outer: MerklePoint, inner: MerklePoint, requests: seq<(Word, Word)>)
    requires requests == Narrowed(RangeOf(outer), RangeOf(inner))
    ensures Below(outer, inner) ==> forall k: Word ::
      (Asked(requests, k) ==> Under(outer, k)) && (Missing(outer, inner, k) ==> Asked(requests, k))
    ensures (forall k: Word :: Missing(outer, inner, k) ==> Asked(requests, k)) <==> !AsksInVain(outer, inner)
  {
    hide RangeOf, Narrowed, Asked, Missing, AsksInVain, Below, Under;
    NarrowingCovers(outer, inner);
    if Below(outer, inner) {
      forall k: Word
        ensures (Asked(requests, k) ==> Under(outer, k)) && (Missing(outer, inner, k) ==> Asked(requests, k))
      {
        NarrowedIsComplete(outer, inner, k);
      }
    }
  }

  /** When this side has nothing, the point it compares with is the null point.  It should ask for the whole
      outer range, and does so exactly if that range does not start at key 0 or is the range of all keys;
      otherwise it asks for nothing. */
  lemma EmptySideRequests(outer: MerklePoint)
    ensures var (o, requests) := (RangeOf(outer), Narrowed(RangeOf(outer), RangeOf(NULL_POINT)));
      if o.0 != Zeros(WIDTH) || o.1 == Ones(WIDTH) then requests == [o] else requests == []
  {
    var o, i := RangeOf(outer), RangeOf(NULL_POINT);
    assert i.0 == Zeros(WIDTH) && i.1 == Ones(WIDTH);
    MoreBitsIsLarger(Zeros(WIDTH), o.0);
    MoreBitsIsLarger(Zeros(WIDTH), o.1);
    MoreBitsIsLarger(o.1, Ones(WIDTH));
    if AtMost(o.0, Zeros(WIDTH)) {
      AtMostAntisymmetric(o.0, Zeros(WIDTH));
    } else {
      AtMostReflexive(o.0);
    }
  }

  // ---------- the conditions are not idle ----------

  /** A key whose first bytes are given. */
  function Starting(bits: seq<bool>): Word
    requires |bits| == 16
  {
    SwapBytes(bits + Zeros(48))
  }

  const ONE_BYTE: seq<bool> := Zeros(7) + [true]
  const TWO_BYTE: seq<bool> := Zeros(6) + [true, false]

  lemma SwapTwoBytes(a: seq<bool>, b: seq<bool>, rest: seq<bool>, bit: bool)
    requires |a| == |b| == 8 && |rest| == 48 && forall i | 0 <= i < 48 :: rest[i] == bit
    ensures SwapBytes(a + b + rest) == rest + (b + a)
  {
    var w: Word, v: Word := a + b + rest, rest + (b + a);
    forall i | 0 <= i < WIDTH ensures SwapBytes(w)[i] == v[i] {
      var j := (7 - i / 8) * 8 + i % 8;
      if i < 48 {
        assert j >= 16 && w[j] == rest[j - 16];
      } else if i < 56 {
        assert j == i - 40 && w[j] == b[i - 48];
      } else {
        assert j == i - 56 && w[j] == a[i - 56];
      }
    }
  }

  lemma RangeOfTwoBytes(hash: nat, a: seq<bool>, b: seq<bool>)
    requires |a| == |b| == 8
    ensures RangeOf(MerklePoint(hash, Starting(a + b), 16)) == (Zeros(48) + (b + a), Ones(48) + (b + a))
  {
    SwapTwice(a + b + Zeros(48));
    SwapTwoBytes(a, b, Zeros(48), false);
    SwapTwoBytes(a, b, Ones(48), true);
    hide SwapBytes;
    assert Prefix(Starting(a + b), 16) == a + b;
  }

  /** The keys that start with the bytes 1, 1 come before those that start with 2, 0, but lie among them in machine
      order: the side that has the former asks for nothing of the latter. */
  lemma ANarrowingInVain(hash: nat)
    ensures var outer := MerklePoint(hash, Starting(TWO_BYTE + Zeros(8)), 16);
      var inner := MerklePoint(hash, Starting(ONE_BYTE + ONE_BYTE), 16);
      AsksInVain(outer, inner) && forall k: Word :: !Asked(Narrowed(RangeOf(outer), RangeOf(inner)), k)
  {
    var outer := MerklePoint(hash, Starting(TWO_BYTE + Zeros(8)), 16);
    var inner := MerklePoint(hash, Starting(ONE_BYTE + ONE_BYTE), 16);
    var o, i := RangeOf(outer), RangeOf(inner);
    RangeOfTwoBytes(hash, TWO_BYTE, Zeros(8));
    RangeOfTwoBytes(hash, ONE_BYTE, ONE_BYTE);
    assert AtMost(o.0, i.0) && AtMost(o.1, i.1) && AtMost(i.0, o.1) by {
      MachineOrder(Zeros(48));
      MachineOrder(Ones(48));
      assert !i.0[0] && o.1[0];
    }
    assert !KeyAtMost(o.0, i.0) by {
      KeyOrder();
    }
    EndsAreUnder(outer);
    EndsAreUnder(inner);
    SamePrefix(outer, inner);
    NarrowingCovers(outer, inner);
  }

  lemma MachineOrder(p: seq<bool>)
    ensures AtMost(p + (Zeros(8) + TWO_BYTE), p + (ONE_BYTE + ONE_BYTE))
  {
    var v, w := [false] + TWO_BYTE, [true] + ONE_BYTE;
    AtMostAfterPrefix(p + Zeros(7), v, w);
    assert p + Zeros(7) + v == p + (Zeros(8) + TWO_BYTE);
    assert p + Zeros(7) + w == p + (ONE_BYTE + ONE_BYTE);
  }

  lemma KeyOrder()
    ensures !KeyAtMost(Zeros(48) + (Zeros(8) + TWO_BYTE), Zeros(48) + (ONE_BYTE + ONE_BYTE))
  {
    var v, w := [true, false] + Zeros(56), [false, true] + ONE_BYTE + Zeros(48);
    AtMostAfterPrefix(Zeros(6), v, w);
    assert SwapBytes(Zeros(48) + (Zeros(8) + TWO_BYTE)) == Zeros(6) + v;
    assert SwapBytes(Zeros(48) + (ONE_BYTE + ONE_BYTE)) == Zeros(6) + w;
  }

  lemma SamePrefix(outer: MerklePoint, inner: MerklePoint)
    requires outer.keybits == inner.keybits && !KeyAtMost(RangeOf(outer).0, RangeOf(inner).0)
    ensures OffPath(outer, inner)
  {
    AtMostReflexive(SwapBytes(RangeOf(outer).0));
  }

  /** A side without keys asks for nothing of the lower half of all keys. */
  lemma AnEmptySideAsksForNothing(hash: nat)
    ensures var outer := MerklePoint(hash, Zeros(WIDTH), 1);
      Narrowed(RangeOf(outer), RangeOf(NULL_POINT)) == [] && Under(outer, Zeros(WIDTH))
  {
    var outer := MerklePoint(hash, Zeros(WIDTH), 1);
    EmptySideRequests(outer);
    assert Prefix(outer.key, 1) == Zeros(1);
    SwapTwice(Zeros(1) + Ones(63));
    assert !SwapBytes(RangeOf(outer).1)[0];
    assert SwapBytes(Ones(WIDTH))[0];
    assert RangeOf(outer).0 == Zeros(WIDTH);
  }
}
