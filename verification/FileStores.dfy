/** The multi-version file store: every key is a directory holding one file per version, and a version
    being written carries a name ending in '~' until it is committed. */
module FileStores {
  import opened Bytes
  import opened VectorClocks
  import opened XorFold

  /** A version's contents and the number of copies its metadata asks for. */
  datatype File = File(data: seq<Byte>, copies: nat)

  /** The final and the unfinished ('~') files of one key. */
  datatype Directory = Directory(done: map<Clock, File>, partial: map<Clock, File>)

  const EMPTY := Directory(map[], map[])

  /** `Hash(name + size).integer()` for the file name of a version: any function. */
  type Hasher = (Clock, nat) -> Digest

  /** What every operation keeps: the committed versions do not supersede each other, and no version is
      both committed and in progress. */
  ghost predicate Consistent(d: Directory) {
    Antichain(d.done.Keys) && d.done.Keys !! d.partial.Keys
    && UNVERSIONED !in d.done && UNVERSIONED !in d.partial
  }

  ghost function DigestsOf(hash: Hasher, files: map<Clock, File>): map<Clock, Digest> {
    map v | v in files :: hash(v, |files[v].data|)
  }

  ghost function VersionsOf(d: Directory, inProgress: bool): set<Clock> {
    d.done.Keys + if inProgress then d.partial.Keys else {}
  }

  ghost function Elements(vs: seq<Clock>): set<Clock> {
    set v | v in vs
  }

  /** The metadata attribute holds the copy count in one byte. */
  function StoredCopies(copies: nat): nat {
    copies % 256
  }

  /** Starting a write: the version it will create and the directory with its empty unfinished file, or
      nothing when the store refuses a version it has or one that has expired. */
  ghost function Opened(
    d: Directory, version: Clock, copies: nat, expired: bool, me: string, now: nat): Option<(Clock, Directory)>
  {
    if version != UNVERSIONED && (version in VersionsOf(d, true) || expired) then None
    else
      var v := if version == UNVERSIONED then Increment(Merged(VersionsOf(d, true)), me, now) else version;
      Some((v, d.(partial := d.partial[v := File([], StoredCopies(copies))])))
  }

  ghost function Appended(d: Directory, v: Clock, bytes: seq<Byte>): Directory
    requires v in d.partial
  {
    d.(partial := d.partial[v := d.partial[v].(data := d.partial[v].data + bytes)])
  }

  /** The versions that purging after a commit of `v` removes: those behind `v`, and `v` itself when some
      version is ahead of it. */
  ghost function Obsolete(done: map<Clock, File>, v: Clock): set<Clock> {
    (set w | w in done && Compare(w, v) == LessThan)
    + (if v in done && exists w <- done :: Compare(w, v) == GreaterThan then {v} else {})
  }

  ghost function Renamed(d: Directory, v: Clock): Directory
    requires v in d.partial
  {
    Directory(d.done[v := d.partial[v]], d.partial - {v})
  }

  /** A finished commit of `v`. */
  ghost function Committed(d: Directory, v: Clock): Directory
    requires v in d.partial
  {
    var named := Renamed(d, v);
    named.(done := named.done - Obsolete(named.done, v))
  }

  /** The digest a finished commit of `v` reports: its own, with those of the purged files folded in. */
  ghost function CommitDigest(hash: Hasher, d: Directory, v: Clock): Digest
    requires v in d.partial
  {
    var done := Renamed(d, v).done;
    Xor(hash(v, |done[v].data|), XorAll(Only(DigestsOf(hash, done), Obsolete(done, v))))
  }

  /** Reading one version, or the merged version of all of them when none is named. */
  ghost function Found(d: Directory, version: Clock, inProgress: bool): Option<(Clock, File)> {
    var v := if version == UNVERSIONED then Merged(VersionsOf(d, inProgress)) else version;
    if inProgress && v in d.partial then Some((v, d.partial[v]))
    else if v in d.done then Some((v, d.done[v]))
    else None
  }

  lemma OpenedConsistent(d: Directory, version: Clock, copies: nat, expired: bool, me: string, now: nat)
    requires Consistent(d)
    ensures var o := Opened(d, version, copies, expired, me, now);
      o.Some? ==>
        && Consistent(o.value.1) && o.value.0 in o.value.1.partial
        && o.value.0 !in VersionsOf(d, true)
        && o.value.1.done == d.done
        && o.value.1.partial == d.partial[o.value.0 := File([], StoredCopies(copies))]
  {
    var known := VersionsOf(d, true);
    IncrementIsAhead(known, Merged(known), me, now);
  }

  /** An unversioned write is ahead of everything the key has, so nothing it replaces survives it. */
  lemma UnversionedWriteIsAhead(d: Directory, copies: nat, me: string, now: nat)
    requires Consistent(d)
    ensures var o := Opened(d, UNVERSIONED, copies, false, me, now);
      && o.Some?
      && (forall w <- VersionsOf(d, true) :: Compare(w, o.value.0) == LessThan)
      && Committed(o.value.1, o.value.0).done.Keys == {o.value.0}
  {
    var known := VersionsOf(d, true);
    IncrementIsAhead(known, Merged(known), me, now);
    OpenedConsistent(d, UNVERSIONED, copies, false, me, now);
    var o := Opened(d, UNVERSIONED, copies, false, me, now);
    var done := Renamed(o.value.1, o.value.0).done;
    assert forall w | w in done && w != o.value.0 :: w in known;
    assert Obsolete(done, o.value.0) == done.Keys - {o.value.0};
  }

  /** Purging after a commit leaves exactly the maximal versions, whatever was there before. */
  lemma CommittedVersions(d: Directory, v: Clock)
    requires Consistent(d) && v in d.partial
    ensures Committed(d, v).done.Keys == Maximal(d.done.Keys + {v})
    ensures Consistent(Committed(d, v))
    ensures forall w <- Committed(d, v).done :: Committed(d, v).done[w] == if w == v then d.partial[v] else d.done[w]
    ensures Committed(d, v).partial == d.partial - {v}
  {
    var all := d.done.Keys + {v};
    var done := Renamed(d, v).done;
    assert done.Keys == all;
    forall w | w in all && w !in Maximal(all) ensures w in Obsolete(done, v) {
      var ahead :| ahead in all && AtMost(w, ahead) && w != ahead;
      if AtMost(ahead, w) {
        AtMostAntisymmetric(w, ahead);
      }
      assert Compare(w, ahead) == LessThan && Compare(ahead, w) == GreaterThan;
      assert w == v || ahead == v;
    }
    forall w | w in Obsolete(done, v) ensures w !in Maximal(all) {
      if w == v {
        var ahead :| ahead in done && Compare(ahead, v) == GreaterThan;
        assert AtMost(v, ahead);
      } else {
        assert AtMost(w, v);
      }
    }
    MaximalIsAntichain(all);
  }

  lemma DigestsWithout(hash: Hasher, files: map<Clock, File>, gone: set<Clock>)
    ensures DigestsOf(hash, files - gone) == DigestsOf(hash, files) - gone
  {
  }

  /** Purging takes the digests it reports out of the committed ones: the fold over what remains is the
      fold over what was there, xor the reported digest. */
  lemma CommitDigestAgrees(hash: Hasher, d: Directory, v: Clock)
    requires Consistent(d) && v in d.partial
    ensures XorAll(DigestsOf(hash, Committed(d, v).done))
         == Xor(CommitDigest(hash, d, v), XorAll(DigestsOf(hash, d.done)))
  {
    var done := Renamed(d, v).done;
    var gone := Obsolete(done, v);
    DigestsWithout(hash, done, gone);
    DigestsWithout(hash, done, {v});
    assert done - {v} == d.done;
    XorAllPurged(DigestsOf(hash, done), v, gone);
  }

  /** An unversioned read finds something exactly when one committed version exists, and then it finds
      that version. */
  lemma UnversionedRead(d: Directory)
    requires Consistent(d)
    ensures Found(d, UNVERSIONED, false).Some? <==> |d.done| == 1
    ensures Found(d, UNVERSIONED, false).Some? ==>
      && var (v, f) := Found(d, UNVERSIONED, false).value;
      && d.done.Keys == {v} && f == d.done[v]
  {
    MergedVersionPresent(d.done.Keys);
    assert |d.done| == |d.done.Keys|;
  }

  class FileStore {
    const hash: Hasher
    /** The hash of the name of an unfinished file, '~' included. */
    const hashPartial: Hasher
    var homes: map<string, Directory>

    constructor (hash: Hasher, hashPartial: Hasher)
      ensures this.hash == hash && this.hashPartial == hashPartial && homes == map[]
    {
      this.hash, this.hashPartial, homes := hash, hashPartial, map[];
    }

    ghost predicate Valid()
      reads this
    {
      forall name <- homes :: Consistent(homes[name])
    }

    /** A key without a directory lists as an empty one. */
    function Home(name: string): Directory
      reads this
    {
      if name in homes then homes[name] else EMPTY
    }

    method Versions(name: string, inProgress: bool) returns (vs: seq<Clock>)
      ensures forall v :: v in vs <==> v in Home(name).done || (inProgress && v in Home(name).partial)
      ensures |vs| == |Home(name).done| + if inProgress then |Home(name).partial| else 0
    {
      vs := List(Home(name).done);
      if inProgress {
        var unfinished := List(Home(name).partial);
        vs := vs + unfinished;
      }
    }

    /** Directory entries come in no particular order. */
    static method List(files: map<Clock, File>) returns (vs: seq<Clock>)
      ensures forall v :: v in vs <==> v in files
      ensures |vs| == |files|
    {
      vs := [];
      var left := files.Keys;
      while left != {}
        invariant left <= files.Keys
        invariant forall v :: v in vs <==> v in files.Keys - left
        invariant |vs| + |left| == |files|
      {
        var v :| v in left;
        vs, left := vs + [v], left - {v};
      }
    }

    method MergedVersion(name: string, inProgress: bool) returns (version: Clock)
      ensures version == Merged(VersionsOf(Home(name), inProgress))
      ensures LeastUpperBound(Home(name).done.Keys + if inProgress then Home(name).partial.Keys else {}, version)
    {
      var vs := Versions(name, inProgress);
      version := UNVERSIONED;
      var i := 0;
      while i < |vs|
        invariant 0 <= i <= |vs|
        invariant LeastUpperBound(Elements(vs[..i]), version)
      {
        MergeExtendsLeastUpperBound(Elements(vs[..i]), version, vs[i]);
        assert Elements(vs[..i + 1]) == Elements(vs[..i]) + {vs[i]};
        version := Merge(version, vs[i]);
        i := i + 1;
      }
      assert vs[..i] == vs;
      assert Elements(vs) == VersionsOf(Home(name), inProgress);
      LeastUpperBoundUnique(VersionsOf(Home(name), inProgress), version, Merged(VersionsOf(Home(name), inProgress)));
    }

    method Exists(name: string, version: Clock) returns (found: bool)
      ensures found == (version in Home(name).done || version in Home(name).partial)
    {
      var all := Versions(name, true);
      found := version in all;
    }

    method Write(name: string, version: Clock, copies: nat, expired: bool, me: string, now: nat)
      returns (created: Option<Clock>)
      requires Valid()
      modifies this
      ensures Valid()
      ensures var o := old(Opened(Home(name), version, copies, expired, me, now));
        if o.None? then created == None && homes == old(homes)
        else created == Some(o.value.0) && homes == old(homes)[name := o.value.1]
      // a version that is named is refused if it is there or has expired
      ensures version != UNVERSIONED ==>
        && (created == None <==> expired || version in old(Home(name)).done || version in old(Home(name)).partial)
        && (created.Some? ==> created.value == version)
      ensures created == None ==> homes == old(homes)
      // a version that is made is the next one of this writer that is ahead of all there are
      ensures version == UNVERSIONED ==>
        && created.Some?
        && exists u :: LeastUpperBound(old(Home(name)).done.Keys + old(Home(name)).partial.Keys, u)
                       && created.value == Increment(u, me, now)
      ensures created.Some? ==>
        && var d := old(Home(name));
        && created.value !in d.done && created.value !in d.partial
        && homes == old(homes)[name := Directory(d.done, d.partial[created.value := File([], copies % 256)])]
    {
      OpenedConsistent(Home(name), version, copies, expired, me, now);
      var v := version;
      if version == UNVERSIONED {
        v := MergedVersion(name, true);
        v := Increment(v, me, now);
      } else {
        var taken := Exists(name, version);
        if taken || expired {
          return None;
        }
      }
      var d := Home(name);
      homes := homes[name := d.(partial := d.partial[v := File([], StoredCopies(copies))])];
      created := Some(v);
    }

    /** The stream's writer adds bytes to the unfinished file. */
    method Append(name: string, version: Clock, bytes: seq<Byte>)
      requires Valid() && version in Home(name).partial
      modifies this
      ensures Valid()
      ensures homes == old(homes)[name := Appended(old(Home(name)), version, bytes)]
    {
      var d := Home(name);
      var file := d.partial[version];
      homes := homes[name := d.(partial := d.partial[version := file.(data := file.data + bytes)])];
    }

    method Read(name: string, version: Clock, inProgress: bool) returns (found: Option<(Clock, File)>)
      ensures found == Found(Home(name), version, inProgress)
      // the file of the version that is named, or of the one that merges all there are, unfinished ones first
      ensures var d := Home(name);
        exists v ::
          && (if version != UNVERSIONED then v == version
              else LeastUpperBound(d.done.Keys + if inProgress then d.partial.Keys else {}, v))
          && found ==
             if inProgress && v in d.partial then Some((v, d.partial[v]))
             else if v in d.done then Some((v, d.done[v])) else None
      ensures version == UNVERSIONED && !inProgress && Valid() ==>
        && (found.Some? <==> |Home(name).done| == 1)
        && (found.Some? ==> found.value.0 in Home(name).done && found.value.1 == Home(name).done[found.value.0])
    {
      var v := version;
      if version == UNVERSIONED {
        v := MergedVersion(name, inProgress);
      }
      var d := Home(name);
      found := None;
      if inProgress && v in d.partial {
        found := Some((v, d.partial[v]));
      }
      if found.None? && v in d.done {
        found := Some((v, d.done[v]));
      }
      if Valid() {
        UnversionedRead(d);
      }
    }

    method Remove(name: string) returns (gone: bool)
      requires Valid()
      modifies this
      ensures Valid() && gone
      ensures homes == old(homes) - {name}
    {
      homes := homes - {name};
      var left := Versions(name, true);
      gone := left == [];
    }

    /** `writestream::commit`: reports the digest of what has been written so far; closing also publishes
        the version and purges. */
    method Commit(name: string, version: Clock, close: bool) returns (digest: Option<Digest>)
      requires Valid()
      modifies this
      ensures Valid()
      ensures version !in old(Home(name).partial) ==> digest == None && homes == old(homes)
      ensures version in old(Home(name).partial) && !close ==>
        homes == old(homes) && digest == Some(hash(version, |Home(name).partial[version].data|))
      ensures version in old(Home(name).partial) && close ==>
        && homes == old(homes)[name := Committed(old(Home(name)), version)]
        && digest == Some(CommitDigest(hash, old(Home(name)), version))
    {
      if version !in Home(name).partial {
        return None;
      }
      var d := hash(version, |Home(name).partial[version].data|);
      if close {
        d := OnWriteComplete(name, version, d);
      }
      digest := Some(d);
    }

    method OnWriteComplete(name: string, version: Clock, before: Digest) returns (digest: Digest)
      requires Valid() && version in Home(name).partial
      modifies this
      ensures Valid()
      ensures homes == old(homes)[name := Committed(old(Home(name)), version)]
      ensures var done := Renamed(old(Home(name)), version).done;
        digest == Xor(before, XorAll(Only(DigestsOf(hash, done), Obsolete(done, version))))
    {
      CommittedVersions(Home(name), version);
      ghost var named := Renamed(Home(name), version);
      var d := Home(name);
      homes := homes[name := Directory(d.done[version := d.partial[version]], d.partial - {version})];
      assert Home(name) == named;
      digest := PurgeObsolete(name, version, before);
    }

    method PurgeObsolete(name: string, master: Clock, before: Digest) returns (digest: Digest)
      requires name in homes && master in Home(name).done
      modifies this
      ensures homes == old(homes)[name := old(Home(name)).(done := old(Home(name)).done - Obsolete(old(Home(name)).done, master))]
      ensures var done := old(Home(name)).done;
        digest == Xor(before, XorAll(Only(DigestsOf(hash, done), Obsolete(done, master))))
    {
      var toDelete := FindObsolete(name, master);
      digest := DeleteFiles(name, toDelete, before);
    }

    /** The second half of `purgeObsolete`: folding the digests of the obsolete files in and removing them. */
    method DeleteFiles(name: string, versions: set<Clock>, before: Digest) returns (digest: Digest)
      requires name in homes && versions <= homes[name].done.Keys
      modifies this
      ensures homes == old(homes)[name := Directory(old(homes)[name].done - versions, old(homes)[name].partial)]
      ensures digest == Xor(before, XorAll(Only(DigestsOf(hash, old(homes)[name].done), versions)))
    {
      ghost var Directory(done, partial) := homes[name];
      ghost var digests := DigestsOf(hash, done);
      var toDelete := versions;
      ghost var gone := {};
      assert done - {} == done;
      digest := before;
      XorUnit(before);
      while toDelete != {}
        invariant gone !! toDelete && gone + toDelete == versions
        invariant homes == old(homes)[name := Directory(done - gone, partial)]
        invariant digest == Xor(before, XorAll(Only(digests, gone)))
        decreases |toDelete|
      {
        var v :| v in toDelete;
        WithoutOneMore(done, gone, v);
        PurgeStep(digests, gone, v, before);
        digest := Xor(digest, hash(v, |homes[name].done[v].data|));
        RemoveFile(name, v);
        UpdatedTwice(old(homes), name, Directory(done - gone, partial), Directory(done - (gone + {v}), partial));
        toDelete, gone := toDelete - {v}, gone + {v};
      }
      assert gone == versions;
    }

    method RemoveFile(name: string, version: Clock)
      requires name in homes
      modifies this
      ensures homes == old(homes)[name := Directory(old(homes)[name].done - {version}, old(homes)[name].partial)]
    {
      var d := homes[name];
      homes := homes[name := Directory(d.done - {version}, d.partial)];
    }

    /** The first half of `purgeObsolete`: comparing every committed version with the new one. */
    method FindObsolete(name: string, master: Clock) returns (toDelete: set<Clock>)
      requires master in Home(name).done
      ensures toDelete == Obsolete(Home(name).done, master)
    {
      hide Compare;
      var all := Versions(name, false);
      toDelete := {};
      var i := 0;
      while i < |all|
        invariant 0 <= i <= |all|
        invariant forall w :: w in toDelete <==>
          || (w in all[..i] && Compare(w, master) == LessThan)
          || (w == master && exists u <- all[..i] :: Compare(u, master) == GreaterThan)
      {
        var order := Compare(all[i], master);
        if order == LessThan {
          toDelete := toDelete + {all[i]};
        } else if order == GreaterThan {
          toDelete := toDelete + {master};
        }
        assert all[..i + 1] == all[..i] + [all[i]];
        i := i + 1;
      }
      assert all[..i] == all;
    }

    /** The digest `enumerate` reports for a key: that of every file in its directory. */
    method EnumerateDigest(name: string) returns (digest: Digest)
      ensures digest == Xor(XorAll(DigestsOf(hash, Home(name).done)), XorAll(DigestsOf(hashPartial, Home(name).partial)))
      ensures var d := Home(name);
        digest == Xor(XorAll(map v | v in d.done :: hash(v, |d.done[v].data|)),
                      XorAll(map v | v in d.partial :: hashPartial(v, |d.partial[v].data|)))
    {
      var d := Home(name);
      var finished := FoldDigests(hash, d.done);
      var unfinished := FoldDigests(hashPartial, d.partial);
      digest := Xor(finished, unfinished);
    }

    static method FoldDigests(hash: Hasher, files: map<Clock, File>) returns (digest: Digest)
      ensures digest == XorAll(DigestsOf(hash, files))
    {
      digest := ZERO;
      var todo := files.Keys;
      ghost var digests := DigestsOf(hash, files);
      assert Only(digests, {}) == map[];
      while todo != {}
        invariant todo <= files.Keys
        invariant digest == XorAll(Only(digests, files.Keys - todo))
      {
        var v :| v in todo;
        ghost var seen := files.Keys - todo;
        assert Only(digests, seen + {v}) == Only(digests, seen)[v := digests[v]];
        XorAllPut(Only(digests, seen), v, digests[v]);
        XorCommutative(digest, digests[v]);
        digest := Xor(digest, hash(v, |files[v].data|));
        todo := todo - {v};
        assert files.Keys - todo == seen + {v};
      }
      assert files.Keys - todo == files.Keys;
      assert Only(digests, files.Keys) == digests;
    }
  }

  lemma UpdatedTwice(homes: map<string, Directory>, name: string, d: Directory, e: Directory)
    ensures homes[name := d][name := e] == homes[name := e]
  {
  }

  lemma WithoutOneMore(files: map<Clock, File>, gone: set<Clock>, v: Clock)
    requires v in files && v !in gone
    ensures v in files - gone && (files - gone)[v] == files[v]
    ensures files - gone - {v} == files - (gone + {v})
  {
  }

  lemma PurgeStep(digests: map<Clock, Digest>, gone: set<Clock>, v: Clock, before: Digest)
    requires gone <= digests.Keys && v in digests && v !in gone
    ensures Xor(before, XorAll(Only(digests, gone + {v}))) == Xor(Xor(before, XorAll(Only(digests, gone))), digests[v])
  {
    var part := XorAll(Only(digests, gone));
    assert Only(digests, gone + {v}) == Only(digests, gone)[v := digests[v]];
    XorAllPut(Only(digests, gone), v, digests[v]);
    XorCommutative(digests[v], part);
    XorAssociative(before, part, digests[v]);
  }
}
