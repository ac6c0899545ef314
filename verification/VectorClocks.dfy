/** Vector clocks: which writers a version of a key has seen, and when.

    `turbo::vector_clock::bounded_time_vector` keeps a list of (key, time, count) entries.  Here a clock
    is the map those entries describe; the list order and the bound of six entries are not modelled. */
module VectorClocks {

  /** One writer's entry.  `count` breaks ties between increments made at the same time. */
  datatype Stamp = Stamp(time: nat, count: nat) {
    predicate AtMost(other: Stamp) {
      time < other.time || (time == other.time && count <= other.count)
    }
  }

  type Clock = map<string, Stamp>

  /** The clock of a request that names no version. */
  const UNVERSIONED: Clock := map[]

  datatype Order = Equal | LessThan | GreaterThan | Conflict

  /** `a` has seen nothing that `b` has not. */
  predicate AtMost(a: Clock, b: Clock) {
    forall k <- a :: k in b && a[k].AtMost(b[k])
  }

  function Compare(a: Clock, b: Clock): Order {
    if a == b then Equal
    else if AtMost(a, b) then LessThan
    else if AtMost(b, a) then GreaterThan
    else Conflict
  }

  function Merge(a: Clock, b: Clock): Clock {
    map k | k in a.Keys + b.Keys ::
      if k !in a then b[k]
      else if k !in b then a[k]
      else if a[k].AtMost(b[k]) then b[k] else a[k]
  }

  /** A writer's entry moves to `now`, or counts one up when its clock has not advanced. */
  function Increment(c: Clock, writer: string, now: nat): Clock {
    if writer !in c then c[writer := Stamp(now, 0)]
    else if c[writer].time < now then c[writer := Stamp(now, 0)]
    else c[writer := Stamp(c[writer].time, c[writer].count + 1)]
  }

  ghost predicate UpperBound(vs: set<Clock>, c: Clock) {
    forall v <- vs :: AtMost(v, c)
  }

  ghost predicate LeastUpperBound(vs: set<Clock>, c: Clock) {
    UpperBound(vs, c) && forall u | UpperBound(vs, u) :: AtMost(c, u)
  }

  /** No version is behind another one. */
  ghost predicate Antichain(vs: set<Clock>) {
    forall v, w | v in vs && w in vs && AtMost(v, w) :: v == w
  }

  /** The versions nobody has superseded. */
  ghost function Maximal(vs: set<Clock>): set<Clock> {
    set v | v in vs && forall w <- vs :: AtMost(v, w) ==> v == w
  }

  lemma AtMostTransitive(a: Clock, b: Clock, c: Clock)
    requires AtMost(a, b) && AtMost(b, c)
    ensures AtMost(a, c)
  {
  }

  lemma AtMostAntisymmetric(a: Clock, b: Clock)
    requires AtMost(a, b) && AtMost(b, a)
    ensures a == b
  {
    forall k | k in a ensures a[k] == b[k] {
      assert a[k].AtMost(b[k]) && b[k].AtMost(a[k]);
    }
  }

  /** Merging two clocks gives the least clock that has seen both. */
  lemma MergeIsLeastUpperBound(a: Clock, b: Clock)
    ensures LeastUpperBound({a, b}, Merge(a, b))
  {
    forall u | UpperBound({a, b}, u) ensures AtMost(Merge(a, b), u) {
      assert AtMost(a, u) && AtMost(b, u);
    }
  }

  /** One step of folding a list of versions into a merged clock. */
  lemma MergeExtendsLeastUpperBound(vs: set<Clock>, c: Clock, v: Clock)
    requires LeastUpperBound(vs, c)
    ensures LeastUpperBound(vs + {v}, Merge(c, v))
  {
    MergeIsLeastUpperBound(c, v);
    assert AtMost(c, Merge(c, v)) && AtMost(v, Merge(c, v));
    forall w | w in vs ensures AtMost(w, Merge(c, v)) {
      AtMostTransitive(w, c, Merge(c, v));
    }
    forall u | UpperBound(vs + {v}, u) ensures AtMost(Merge(c, v), u) {
      assert forall w <- vs :: w in vs + {v};
      assert UpperBound(vs, u) && v in vs + {v};
      assert UpperBound({c, v}, u);
    }
  }

  lemma {:induction false} LeastUpperBoundExists(vs: set<Clock>) returns (c: Clock)
    ensures LeastUpperBound(vs, c)
  {
    if vs == {} {
      c := UNVERSIONED;
    } else {
      var v :| v in vs;
      var d := LeastUpperBoundExists(vs - {v});
      MergeExtendsLeastUpperBound(vs - {v}, d, v);
      assert vs - {v} + {v} == vs;
      c := Merge(d, v);
    }
  }

  /** The least clock that has seen all of `vs`. */
  ghost function Merged(vs: set<Clock>): (c: Clock)
    ensures LeastUpperBound(vs, c)
  {
    assert exists c :: LeastUpperBound(vs, c) by {
      var c := LeastUpperBoundExists(vs);
    }
    var c :| LeastUpperBound(vs, c);
    c
  }

  lemma LeastUpperBoundUnique(vs: set<Clock>, c: Clock, d: Clock)
    requires LeastUpperBound(vs, c) && LeastUpperBound(vs, d)
    ensures c == d
  {
    AtMostAntisymmetric(c, d);
  }

  /** Only the writer's own stamp moves: to the first one that is not before `now` and later than the one it had. */
  lemma IncrementIsNext(c: Clock, writer: string, now: nat)
    ensures var v := Increment(c, writer, now);
      && v.Keys == c.Keys + {writer} && (forall k <- c :: k != writer ==> v[k] == c[k])
      && forall t: Stamp :: v[writer].AtMost(t) <==>
           t.time >= now && (writer in c ==> c[writer].AtMost(t) && c[writer] != t)
  {
  }

  /** An incremented clock is strictly ahead of everything the old one covered. */
  lemma IncrementIsAhead(vs: set<Clock>, c: Clock, writer: string, now: nat)
    requires UpperBound(vs, c)
    ensures UpperBound(vs, Increment(c, writer, now))
    ensures Increment(c, writer, now) !in vs && Increment(c, writer, now) != UNVERSIONED
    ensures forall v <- vs :: Compare(v, Increment(c, writer, now)) == LessThan
  {
    var next := Increment(c, writer, now);
    assert AtMost(c, next) && !AtMost(next, c);
    forall v | v in vs ensures AtMost(v, next) && !AtMost(next, v) {
      AtMostTransitive(v, c, next);
      if AtMost(next, v) {
        AtMostTransitive(next, v, c);
      }
    }
    assert writer in next;
  }

  /** Every version is behind some maximal one. */
  lemma {:induction false} SomeMaximalCovers(vs: set<Clock>, v: Clock) returns (m: Clock)
    requires v in vs
    ensures m in Maximal(vs) && AtMost(v, m)
    decreases |vs|
  {
    if v in Maximal(vs) {
      m := v;
    } else {
      var w :| w in vs && AtMost(v, w) && v != w;
      m := SomeMaximalCovers(vs - {v}, w);
      AtMostTransitive(v, w, m);
      forall u | u in vs && AtMost(m, u) ensures m == u {
        if u == v {
          AtMostAntisymmetric(v, m);
        }
      }
    }
  }

  lemma MaximalIsAntichain(vs: set<Clock>)
    ensures Antichain(Maximal(vs))
  {
  }

  /** Among versions none of which supersedes another, the merged clock is one of them only when it is
      the only one: this is why an unversioned read of a conflicted key finds nothing. */
  lemma MergedVersionPresent(vs: set<Clock>)
    requires Antichain(vs)
    ensures Merged(vs) in vs <==> |vs| == 1
    ensures Merged(vs) in vs ==> vs == {Merged(vs)}
  {
    var c := Merged(vs);
    if c in vs {
      forall v | v in vs ensures v == c {
        assert AtMost(v, c);
      }
      assert vs == {c};
    }
    if |vs| == 1 {
      var v :| v in vs;
      assert |vs - {v}| == 0;
      assert vs == {v};
      assert UpperBound(vs, v);
      AtMostAntisymmetric(c, v);
    }
  }
}
