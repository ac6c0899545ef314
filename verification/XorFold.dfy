/** 64-bit digests, and folding them together with xor in any order. */
module XorFold {

  /** A 64-bit digest.  (Wrapped, so that only the lemmas below reason about bits.) */
  datatype Digest = Digest(bits: bv64)

  const ZERO := Digest(0)

  function Xor(a: Digest, b: Digest): Digest {
    Digest(a.bits ^ b.bits)
  }

  lemma XorAssociative(a: Digest, b: Digest, c: Digest)
    ensures Xor(Xor(a, b), c) == Xor(a, Xor(b, c))
  {
  }

  lemma XorCommutative(a: Digest, b: Digest)
    ensures Xor(a, b) == Xor(b, a)
  {
  }

  lemma XorSwap(a: Digest, b: Digest, c: Digest)
    ensures Xor(a, Xor(b, c)) == Xor(b, Xor(a, c))
  {
    XorAssociative(a, b, c);
    XorCommutative(a, b);
    XorAssociative(b, a, c);
  }

  lemma XorUnit(a: Digest)
    ensures Xor(a, ZERO) == a == Xor(ZERO, a)
  {
  }

  /** Folding the same digest in twice cancels it. */
  lemma XorCancels(a: Digest, b: Digest)
    ensures Xor(a, Xor(a, b)) == b
  {
    assert a.bits ^ a.bits == 0;
    XorAssociative(a, a, b);
    XorUnit(b);
  }

  lemma XorMoveOver(a: Digest, b: Digest, c: Digest, d: Digest)
    requires Xor(a, b) == Xor(c, d)
    ensures d == Xor(Xor(a, c), b)
  {
    XorCancels(c, d);
    XorAssociative(c, a, b);
    XorCommutative(c, a);
  }

  /** The xor of all the digests in `m`. */
  ghost function XorAll<K>(m: map<K, Digest>): Digest
    decreases |m|
  {
    if m == map[] then ZERO
    else
      var k :| k in m;
      Xor(m[k], XorAll(m - {k}))
  }

  lemma {:induction false} XorAllTake<K>(m: map<K, Digest>, k: K)
    requires k in m
    ensures XorAll(m) == Xor(m[k], XorAll(m - {k}))
    decreases |m|
  {
    var j :| j in m && XorAll(m) == Xor(m[j], XorAll(m - {j}));
    if j != k {
      var rest := m - {j} - {k};
      XorAllTake(m - {j}, k);
      XorAllTake(m - {k}, j);
      assert rest == m - {k} - {j};
      XorSwap(m[j], m[k], XorAll(rest));
    }
  }

  lemma XorAllPut<K>(m: map<K, Digest>, k: K, d: Digest)
    requires k !in m
    ensures XorAll(m[k := d]) == Xor(d, XorAll(m))
  {
    XorAllTake(m[k := d], k);
    assert m[k := d] - {k} == m;
  }

  /** Changing one digest changes the fold by the xor of its old and its new value. */
  lemma XorAllReplace<K>(m: map<K, Digest>, k: K, d: Digest)
    requires k in m
    ensures XorAll(m[k := d]) == Xor(Xor(m[k], d), XorAll(m))
  {
    var rest := XorAll(m - {k});
    XorAllTake(m, k);
    XorAllTake(m[k := d], k);
    assert m[k := d] - {k} == m - {k};
    XorAssociative(m[k], d, Xor(m[k], rest));
    XorSwap(m[k], d, Xor(m[k], rest));
    XorCancels(m[k], rest);
  }

  /** The digests of some of the keys. */
  ghost function Only<K>(m: map<K, Digest>, keys: set<K>): map<K, Digest>
    requires keys <= m.Keys
  {
    map k | k in keys :: m[k]
  }

  /** Taking some of the keys away takes exactly their digests out of the fold. */
  lemma {:induction false} XorAllWithout<K>(m: map<K, Digest>, gone: set<K>)
    requires gone <= m.Keys
    ensures XorAll(m) == Xor(XorAll(Only(m, gone)), XorAll(m - gone))
    decreases |gone|
  {
    if gone == {} {
      assert m - gone == m && Only(m, gone) == map[];
      XorUnit(XorAll(m));
    } else {
      var k :| k in gone;
      var less := gone - {k};
      XorAllWithout(m, less);
      XorAllTake(m - less, k);
      XorAllTake(Only(m, gone), k);
      assert m - less - {k} == m - gone;
      assert Only(m, gone) - {k} == Only(m, less);
      XorSwap(XorAll(Only(m, less)), m[k], XorAll(m - gone));
      XorAssociative(m[k], XorAll(Only(m, less)), XorAll(m - gone));
    }
  }

  /** The fold over what is left, when the digest of `k` joined the fold and those of `gone` left it. */
  lemma XorAllPurged<K>(m: map<K, Digest>, k: K, gone: set<K>)
    requires k in m && gone <= m.Keys
    ensures XorAll(m - gone) == Xor(Xor(m[k], XorAll(Only(m, gone))), XorAll(m - {k}))
  {
    XorAllTake(m, k);
    XorAllWithout(m, gone);
    XorMoveOver(m[k], XorAll(m - {k}), XorAll(Only(m, gone)), XorAll(m - gone));
  }
}
