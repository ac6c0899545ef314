/** Moving keys to where they belong: `SkewCorrector` and the commands that answer its messages. */
module SkewCorrectors {
  import opened Bytes
  import opened VectorClocks
  import opened FileStores
  import opened HashRings

  datatype Sent =
    | Offer(peer: string, name: string, version: Clock, source: string)
    | Demand(peer: string, name: string, version: Clock, source: string)
    | Sent(peer: string, name: string, version: Clock, copies: nat, mirror: nat, source: string, data: seq<Byte>)

  datatype Drop = Drop(name: string, copies: nat)

  /** When an acknowledgement makes a node drop a key: the acknowledged version is committed in the acknowledged
      size, the key is not the node's own, and no other version is committed. */
  ghost predicate DropsOn(d: Directory, version: Clock, size: nat, mine: bool) {
    var reader := Found(d, version, false);
    reader.Some? && |reader.value.1.data| == size && !mine && Found(d, UNVERSIONED, false).Some?
  }

  /** A dropped key had one committed version, the acknowledged one. */
  lemma OnlyTheAcknowledgedIsDropped(d: Directory, version: Clock, size: nat, mine: bool)
    requires Consistent(d) && version != UNVERSIONED
    ensures DropsOn(d, version, size, mine) <==>
      d.done.Keys == {version} && |d.done[version].data| == size && !mine
  {
    UnversionedRead(d);
    if Found(d, UNVERSIONED, false).Some? && version in d.done {
      assert d.done.Keys == {version};
    }
    if d.done.Keys == {version} {
      assert |d.done| == |d.done.Keys| == 1;
    }
  }

  /** The key's only version, finished or not, has expired. */
  ghost predicate Stale(d: Directory, expired: Clock -> bool) {
    exists v :: d.done.Keys + d.partial.Keys == {v} && expired(v)
  }

  ghost predicate Distinct<T>(xs: seq<T>) {
    forall i, j | 0 <= i < j < |xs| :: xs[i] != xs[j]
  }

  lemma {:induction false} AsManyAsInTheSet<T>(xs: seq<T>, all: set<T>)
    requires |xs| == |all| && forall x :: x in xs <==> x in all
    ensures Distinct(xs)
  {
    if xs != [] {
      var rest, last := xs[..|xs| - 1], xs[|xs| - 1];
      assert forall x :: x in rest || x == last <==> x in all;
      var others := set x | x in rest;
      NoMoreThan(rest, others);
      assert last in rest ==> others == all;
      assert last !in rest;
      assert others == all - {last};
      AsManyAsInTheSet(rest, others);
    }
  }

  lemma {:induction false} NoMoreThan<T>(xs: seq<T>, all: set<T>)
    requires forall x :: x in xs <==> x in all
    ensures |all| <= |xs|
  {
    if xs != [] {
      var rest, last := xs[..|xs| - 1], xs[|xs| - 1];
      var others := set x | x in rest;
      NoMoreThan(rest, others);
      assert all == others + {last};
    }
  }

  lemma OneElement<T>(xs: set<T>, ys: set<T>, all: seq<T>)
    requires xs !! ys && |all| == |xs| + |ys| && forall v :: v in all <==> v in xs + ys
    ensures (|all| == 1 ==> xs + ys == {all[0]}) && ((exists v :: xs + ys == {v}) ==> |all| == 1)
  {
    assert |xs + ys| == |xs| + |ys|;
    if v :| xs + ys == {v} {
      assert |{v}| == 1;
    }
    if |all| == 1 {
      forall v | v in xs + ys ensures v == all[0] {
        assert v in all;
      }
      assert all[0] in all;
    }
  }

  lemma StaleIsAlone(d: Directory, expired: Clock -> bool, vs: seq<Clock>)
    requires Consistent(d) && |vs| == |d.done| + |d.partial|
    requires forall v :: v in vs <==> v in d.done || v in d.partial
    ensures Stale(d, expired) <==> |vs| == 1 && expired(vs[0])
    ensures |vs| == 1 ==> (d.done != map[] <==> |d.done| == 1)
    ensures Distinct(vs)
  {
    OneElement(d.done.Keys, d.partial.Keys, vs);
    AsManyAsInTheSet(vs, d.done.Keys + d.partial.Keys);
  }

  function HomeIn(homes: map<string, Directory>, name: string): Directory {
    if name in homes then homes[name] else EMPTY
  }

  // ---- what pushing keys leaves, sends and reports ----

  ghost predicate HomesPushed(
    homes: map<string, Directory>, was: map<string, Directory>, files: seq<string>, expired: Clock -> bool)
  {
    && homes.Keys <= was.Keys && (forall n <- homes :: homes[n] == was[n])
    && forall n <- was :: n in homes <==> n !in files || !Stale(was[n], expired) || was[n].done == map[]
  }

  ghost predicate AllOffered(
    sent: seq<Sent>, peer: string, files: seq<string>, was: map<string, Directory>, source: string, expired: Clock -> bool)
  {
    && (forall m <- sent :: m == Offer(peer, m.name, m.version, source))
    && (forall n, v :: Offer(peer, n, v, source) in sent <==>
          n in files && !Stale(HomeIn(was, n), expired) && (v in HomeIn(was, n).done || v in HomeIn(was, n).partial))
    && (Distinct(files) ==> Distinct(sent))
  }

  ghost predicate DropDue(n: string, copies: nat, was: map<string, Directory>, expired: Clock -> bool) {
    n in was && Stale(was[n], expired) && exists v <- was[n].done :: was[n].done[v].copies == copies
  }

  ghost predicate AllTold(told: seq<Drop>, files: seq<string>, was: map<string, Directory>, expired: Clock -> bool) {
    && (forall n, c :: Drop(n, c) in told <==> n in files && DropDue(n, c, was, expired))
    && forall i, j | 0 <= i < j < |told| :: told[i].name != told[j].name
  }

  lemma ListOffersAll(
    offers: seq<Sent>, listed: seq<Clock>, peer: string, file: string, was: map<string, Directory>, source: string,
    expired: Clock -> bool)
    requires |offers| == |listed| && forall j | 0 <= j < |listed| :: offers[j] == Offer(peer, file, listed[j], source)
    requires Distinct(listed) && !Stale(HomeIn(was, file), expired)
    requires forall v :: v in listed <==> v in HomeIn(was, file).done || v in HomeIn(was, file).partial
    ensures AllOffered(offers, peer, [file], was, source, expired)
  {
    forall v | v in listed ensures Offer(peer, file, v, source) in offers {
      var j :| 0 <= j < |listed| && listed[j] == v;
      assert offers[j] == Offer(peer, file, v, source);
    }
  }

  lemma OneMoreHome(
    next: map<string, Directory>, homes: map<string, Directory>, was: map<string, Directory>,
    files: seq<string>, file: string, expired: Clock -> bool)
    requires HomesPushed(homes, was, files, expired) && HomesPushed(next, homes, [file], expired)
    ensures HomesPushed(next, was, files + [file], expired)
  {
    hide Stale;
  }

  lemma NothingIsStale(expired: Clock -> bool)
    ensures !Stale(EMPTY, expired)
  {
    assert EMPTY.done.Keys + EMPTY.partial.Keys == {};
    assert forall v: Clock :: v in {v};
  }

  lemma OneMoreOffered(
    sent: seq<Sent>, offers: seq<Sent>, homes: map<string, Directory>, peer: string,
    files: seq<string>, file: string, was: map<string, Directory>, source: string, expired: Clock -> bool)
    requires AllOffered(sent, peer, files, was, source, expired) && HomesPushed(homes, was, files, expired)
    requires AllOffered(offers, peer, [file], homes, source, expired)
    ensures AllOffered(sent + offers, peer, files + [file], was, source, expired)
  {
    hide Stale;
    NothingIsStale(expired);
    assert forall m :: m in sent + offers <==> m in sent || m in offers;
    assert forall n :: n in files + [file] <==> n in files || n == file;
    if Distinct(files + [file]) {
      DistinctParts(files, file);
      forall i, j | 0 <= i < j < |sent + offers| ensures (sent + offers)[i] != (sent + offers)[j] {
        if i < |sent| <= j {
          assert sent[i] in sent && offers[j - |sent|] in offers;
        }
      }
    }
  }

  lemma DistinctParts(files: seq<string>, file: string)
    requires Distinct(files + [file])
    ensures Distinct(files) && Distinct([file]) && file !in files
  {
    var all := files + [file];
    forall i | 0 <= i < |files| ensures files[i] != file {
      assert all[i] == files[i] && all[|files|] == file;
    }
    forall i, j | 0 <= i < j < |files| ensures files[i] != files[j] {
      assert all[i] == files[i] && all[j] == files[j];
    }
  }

  lemma OneMoreTold(
    told: seq<Drop>, more: seq<Drop>, homes: map<string, Directory>,
    files: seq<string>, file: string, was: map<string, Directory>, expired: Clock -> bool)
    requires AllTold(told, files, was, expired) && HomesPushed(homes, was, files, expired)
    requires AllTold(more, [file], homes, expired)
    ensures AllTold(told + more, files + [file], was, expired)
  {
    hide Stale;
    assert forall m :: m in told + more <==> m in told || m in more;
    forall i, j | 0 <= i < j < |told + more| ensures (told + more)[i].name != (told + more)[j].name {
      if i < |told| <= j {
        var (x, y) := (told[i], more[j - |told|]);
        assert Drop(x.name, x.copies) in told && Drop(y.name, y.copies) in more;
      }
    }
  }

  class SkewCorrector {
    const store: FileStore
    /** What was sent, and what the drop callback was told. */
    var outbox: seq<Sent>
    var drops: seq<Drop>

    constructor (store: FileStore)
      ensures this.store == store && outbox == [] && drops == []
    {
      this.store, outbox, drops := store, [], [];
    }

    /** A key is dropped, with all that is in its directory, exactly if it has one committed version: a conflict
        is never dropped. */
    method DropKey(name: string) returns (dropped: bool)
      requires store.Valid()
      modifies this`drops, store
      ensures store.Valid()
      ensures dropped <==> |old(store.Home(name)).done| == 1
      ensures dropped ==> store.homes == old(store.homes) - {name}
      ensures dropped ==> exists f :: f in old(store.Home(name)).done.Values && drops == old(drops) + [Drop(name, f.copies)]
      ensures !dropped ==> store.homes == old(store.homes) && drops == old(drops)
    {
      UnversionedRead(store.Home(name));
      var reader := store.Read(name, UNVERSIONED, false);
      if reader.None? {
        return false;
      }
      var gone := store.Remove(name);
      if !gone {
        return false;
      }
      drops := drops + [Drop(name, reader.value.1.copies)];
      return true;
    }

    /** Sends one committed version as a finished write: the receiver passes it on to nobody. */
    method SendKey(peer: string, name: string, version: Clock, source: string) returns (found: bool)
      modifies this`outbox
      ensures found == Found(store.Home(name), version, false).Some?
      ensures outbox == old(outbox) +
        match Found(store.Home(name), version, false)
        case None => []
        case Some((v, f)) => [Sent(peer, name, version, f.copies, f.copies, source, f.data)]
      // whether or not there are others
      ensures version != UNVERSIONED ==>
        && (found <==> version in store.Home(name).done)
        && outbox == old(outbox) + if !found then [] else
             var f := store.Home(name).done[version]; [Sent(peer, name, version, f.copies, f.copies, source, f.data)]
    {
      var reader := store.Read(name, version, false);
      if reader.None? {
        return false;
      }
      var totalCopies := reader.value.1.copies;
      outbox := outbox + [Sent(peer, name, version, totalCopies, totalCopies, source, reader.value.1.data)];
      return true;
    }

    /** Every version of these keys, finished or not, is offered, except that a key of which all has expired is
        dropped instead, if it is committed. */
    method PushKeyRange(peer: string, files: seq<string>, offloadFrom: string, expired: Clock -> bool)
      returns (ghost sent: seq<Sent>, ghost told: seq<Drop>)
      requires store.Valid()
      modifies this, store
      ensures store.Valid() && outbox == old(outbox) + sent && drops == old(drops) + told
      // what is sent
      ensures forall m <- sent :: m == Offer(peer, m.name, m.version, offloadFrom) && m.name in files
      ensures forall file, v :: Offer(peer, file, v, offloadFrom) in sent <==>
        && file in files && (v in old(store.Home(file)).done || v in old(store.Home(file)).partial)
        && !exists w :: old(store.Home(file)).done.Keys + old(store.Home(file)).partial.Keys == {w} && expired(w)
      ensures Distinct(files) ==> Distinct(sent)
      // what is dropped
      ensures forall file <- old(store.homes) :: file !in store.homes <==>
        && file in files && old(store.homes)[file].partial == map[]
        && exists w :: old(store.homes)[file].done.Keys == {w} && expired(w)
      ensures store.homes.Keys <= old(store.homes).Keys
      ensures forall file <- store.homes :: store.homes[file] == old(store.homes)[file]
      ensures forall file, c :: Drop(file, c) in told <==>
        && file in old(store.homes) && file !in store.homes
        && exists f <- old(store.homes)[file].done.Values :: f.copies == c
      ensures forall i, j | 0 <= i < j < |told| :: told[i].name != told[j].name
    {
      sent, told := [], [];
      var i := 0;
      while i < |files|
        invariant 0 <= i <= |files| && store.Valid() && outbox == old(outbox) + sent && drops == old(drops) + told
        invariant HomesPushed(store.homes, old(store.homes), files[..i], expired)
        invariant AllOffered(sent, peer, files[..i], old(store.homes), offloadFrom, expired)
        invariant AllTold(told, files[..i], old(store.homes), expired)
      {
        hide HomesPushed, AllOffered, AllTold, Stale, Distinct;
        ghost var homes := store.homes;
        var offers, more := PushKey(peer, files[i], offloadFrom, expired);
        OneMoreHome(store.homes, homes, old(store.homes), files[..i], files[i], expired);
        OneMoreOffered(sent, offers, homes, peer, files[..i], files[i], old(store.homes), offloadFrom, expired);
        OneMoreTold(told, more, homes, files[..i], files[i], old(store.homes), expired);
        assert files[..i + 1] == files[..i] + [files[i]];
        sent, told := sent + offers, told + more;
        i := i + 1;
      }
      assert files[..i] == files;
    }

    method PushKey(peer: string, file: string, offloadFrom: string, expired: Clock -> bool)
      returns (ghost offers: seq<Sent>, ghost told: seq<Drop>)
      requires store.Valid()
      modifies this, store
      ensures store.Valid() && outbox == old(outbox) + offers && drops == old(drops) + told
      ensures HomesPushed(store.homes, old(store.homes), [file], expired)
      ensures AllOffered(offers, peer, [file], old(store.homes), offloadFrom, expired)
      ensures AllTold(told, [file], old(store.homes), expired)
    {
      hide Stale, Consistent, AllOffered, AllTold, HomesPushed;
      offers, told := [], [];
      HomeConsistent(file);
      var versions := store.Versions(file, true);
      StaleIsAlone(store.Home(file), expired, versions);
      if |versions| == 1 && expired(versions[0]) {
        NothingOffered(peer, file, store.homes, offloadFrom, expired);
        var dropped := DropKey(file);
        told := drops[|old(drops)|..];
        assert old(drops) + told == drops;
        Dropped(store.homes, told, file, old(store.homes), expired, dropped);
        return;
      }
      var i := 0;
      while i < |versions|
        invariant store.homes == old(store.homes) && store.Valid() && drops == old(drops)
        invariant 0 <= i <= |versions| && |offers| == i && outbox == old(outbox) + offers
        invariant forall j | 0 <= j < i :: offers[j] == Offer(peer, file, versions[j], offloadFrom)
      {
        outbox := outbox + [Offer(peer, file, versions[i], offloadFrom)];
        offers := offers + [Offer(peer, file, versions[i], offloadFrom)];
        i := i + 1;
      }
      ListOffersAll(offers, versions, peer, file, old(store.homes), offloadFrom, expired);
      NothingDropped(file, store.homes, expired);
    }

    lemma NothingDropped(file: string, homes: map<string, Directory>, expired: Clock -> bool)
      requires !Stale(HomeIn(homes, file), expired)
      ensures HomesPushed(homes, homes, [file], expired) && AllTold([], [file], homes, expired)
    {
      hide Stale;
    }

    lemma Dropped(
      homes: map<string, Directory>, told: seq<Drop>, file: string, was: map<string, Directory>, expired: Clock -> bool,
      dropped: bool)
      requires var d := HomeIn(was, file); Stale(d, expired) && (d.done != map[] <==> |d.done| == 1)
      requires dropped <==> |HomeIn(was, file).done| == 1
      requires if dropped
               then homes == was - {file} && exists f <- was[file].done.Values :: told == [Drop(file, f.copies)]
               else homes == was && told == []
      ensures HomesPushed(homes, was, [file], expired) && AllTold(told, [file], was, expired)
    {
      hide Stale;
      if dropped {
        OneFile(HomeIn(was, file).done);
      }
    }

    lemma OneFile(files: map<Clock, File>)
      requires |files| == 1
      ensures forall v, w | v in files && w in files :: v == w
    {
      forall v, w | v in files && w in files ensures v == w {
        assert |files.Keys - {v}| == 0;
      }
    }

    lemma NothingOffered(peer: string, file: string, was: map<string, Directory>, source: string, expired: Clock -> bool)
      requires Stale(HomeIn(was, file), expired)
      ensures AllOffered([], peer, [file], was, source, expired)
    {
      hide Stale;
    }

    lemma HomeConsistent(name: string)
      requires store.Valid()
      ensures Consistent(store.Home(name))
    {
    }

    /** `OfferWriteCommand`: asks for what it does not have, finished or not. */
    method TakeOffer(peer: string, name: string, version: Clock, source: string) returns (wanted: bool)
      modifies this`outbox
      ensures wanted == (version !in store.Home(name).done && version !in store.Home(name).partial)
      ensures outbox == old(outbox) + if wanted then [Demand(peer, name, version, source)] else []
    {
      var had := store.Exists(name, version);
      wanted := !had;
      if wanted {
        outbox := outbox + [Demand(peer, name, version, source)];
      }
    }

    /** `AckWriteCommand`. */
    method TakeAck(locator: LocateKeys, name: string, version: Clock, size: nat) returns (matched: bool)
      requires store.Valid()
      modifies this`drops, store
      ensures store.Valid()
      ensures matched <==> (var r := old(Found(store.Home(name), version, false)); r.Some? && |r.value.1.data| == size)
      ensures store.homes ==
        var d := old(store.Home(name));
        if matched && DropsOn(d, version, size, locator.KeyIsMine(name, Found(d, version, false).value.1.copies))
        then old(store.homes) - {name} else old(store.homes)
      // a node that is among the nearest never drops, and any other does if this is the one committed version
      ensures version != UNVERSIONED ==>
        var d := old(store.Home(name));
        && (matched <==> version in d.done && |d.done[version].data| == size)
        && var due := matched && d.done.Keys == {version}
             && !KeepsAt(locator.ring.ring, locator.ring.position(name), d.done[version].copies, locator.self);
           && store.homes == (if due then old(store.homes) - {name} else old(store.homes))
           && drops == (if due then old(drops) + [Drop(name, d.done[version].copies)] else old(drops))
    {
      UnversionedRead(store.Home(name));
      var reader := store.Read(name, version, false);
      if reader.None? || |reader.value.1.data| != size {
        return false;
      }
      locator.KeyIsMineIffNear(name, reader.value.1.copies);
      if !locator.KeyIsMine(name, reader.value.1.copies) {
        var dropped := DropKey(name);
      }
      return true;
    }
  }
}
