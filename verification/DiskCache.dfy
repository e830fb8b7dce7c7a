/** The disk cache: storing and reading files, and evicting the least recently used. */
module DiskCache {
  import opened Common
  import opened Ordering
  import opened ContentIndex

  const LARGE_FILE_DIVISOR: nat := 4

  datatype CacheError = InvalidPath | WriteFailed

  datatype Removal = Removed | Missing | Failed

  /** Every listed file is on the disk with its size. */
  ghost predicate Backed(list: seq<File>, disk: map<Path, bytes>) {
    forall i :: 0 <= i < |list| ==> list[i].path in disk && |disk[list[i].path]| == list[i].size
  }

  /** No file lies below another. */
  ghost predicate Tree(disk: map<Path, bytes>) {
    forall p, q :: p in disk && q in disk && p <= q ==> p == q
  }

  /** What a directory scan finds: which files it gets to see (a folder it cannot read is
      missed with all below it), and when each was last read. */
  datatype Scan = Scan(readable: Path -> bool, accessed: Path -> int)

  /** Every file the scan sees, each once and with its size, oldest access first. */
  ghost predicate Scanned(list: seq<File>, disk: map<Path, bytes>, scan: Scan) {
    && Distinct(list) && Backed(list, disk)
    && PathsOf(list) == (set p | p in disk && scan.readable(p))
    && forall i, j :: 0 <= i < j < |list| ==> scan.accessed(list[i].path) <= scan.accessed(list[j].path)
  }

  /** The listed files before a first use of the index: a scan of the disk; later the list. */
  ghost predicate Loaded(list: seq<File>, loaded: bool, known: seq<File>, disk: map<Path, bytes>, scan: Scan) {
    if loaded then list == known else Scanned(list, disk, scan)
  }

  function OldestFirst(accessed: Path -> int): (File, File) -> bool {
    (a: File, b: File) => accessed(a.path) <= accessed(b.path)
  }

  ghost function AtOrBelow(list: seq<File>, target: Path): set<Path> {
    set p | p in PathsOf(list) && StartsWith(p, target)
  }

  /** A path at which a file would be in the way of one at `local`. */
  predicate InTheWay(p: Path, local: Path) { p != local && (p <= local || local <= p) }

  /** What eviction leaves of a list: its shortest oldest part is taken off until the rest
      fits; what could not be deleted of it (`kept`) comes back as the newest. */
  ghost predicate Evicted(list: seq<File>, limit: nat, popped: nat, gone: set<Path>, after: seq<File>) {
    && popped <= |list| && gone <= PathsOf(list[..popped])
    && after == list[popped..] + Keep(list[..popped], gone)
    && Total(list[popped..], SizeOf()) <= limit
    && (popped > 0 ==> Total(list[popped - 1..], SizeOf()) > limit)
  }

  /** After eviction the cache is over its limit by no more than what could not be deleted. */
  lemma EvictedFits(list: seq<File>, limit: nat, popped: nat, gone: set<Path>, after: seq<File>)
    requires Evicted(list, limit, popped, gone, after)
    ensures Total(after, SizeOf()) <= limit + Total(Keep(list[..popped], gone), SizeOf())
    ensures gone == PathsOf(list[..popped]) ==> Total(after, SizeOf()) <= limit
  {
    TotalAppend(list[popped..], Keep(list[..popped], gone), SizeOf());
    if gone == PathsOf(list[..popped]) { KeepAllGone(list[..popped], gone); }
  }

  lemma {:induction false} KeepAllGone(list: seq<File>, gone: set<Path>)
    requires PathsOf(list) <= gone
    ensures Keep(list, gone) == []
  {
    if list != [] {
      var n := |list| - 1;
      assert list == list[..n] + [list[n]];
      PathsSnoc(list[..n], list[n]);
      KeepAllGone(list[..n], gone);
    }
  }

  /** A newest file that fits alone is never evicted. */
  lemma NewestStays(list: seq<File>, limit: nat, popped: nat, gone: set<Path>, after: seq<File>)
    requires Evicted(list, limit, popped, gone, after) && list != [] && list[|list| - 1].size <= limit && Distinct(list)
    ensures popped < |list| && list[|list| - 1] in after && list[|list| - 1].path !in gone
  {
  }

  /** A path listed later is not among the first ones. */
  lemma LaterPath(list: seq<File>, n: nat, i: nat)
    requires Distinct(list) && n <= i < |list|
    ensures list[i].path !in PathsOf(list[..n])
  {
  }

  class ManagedDiskCache {
    const maxBytes: nat
    const index: Index
    var disk: map<Path, bytes>

    ghost predicate Valid() reads this, index {
      index.Valid() && Backed(index.List(), disk) && Tree(disk)
    }

    constructor (maxBytes: nat, disk: map<Path, bytes>)
      requires Tree(disk)
      ensures Valid() && this.maxBytes == maxBytes && this.disk == disk && fresh(index)
    {
      this.maxBytes, this.disk := maxBytes, disk;
      index := new Index();
    }

    // ---- the file system ----

    method RemoveFile(path: Path) returns (r: Removal)
      modifies this`disk
      ensures match r
        case Removed => path in old(disk) && disk == old(disk) - {path}
        case Missing => path !in disk && disk == old(disk)
        case Failed => disk == old(disk)
    {
      if path !in disk { return Missing; }
      if * { return Failed; }
      disk := disk - {path};
      r := Removed;
    }

    /** Deletes what it can of a file or folder. */
    method RemoveTree(target: Path) returns (ghost gone: set<Path>)
      modifies this`disk
      ensures disk == old(disk) - gone && forall p :: p in gone ==> p in old(disk) && target <= p
    {
      gone := {};
      var doomed := set p | p in disk && target <= p;
      while doomed != {}
        invariant doomed <= old(disk).Keys && disk == old(disk) - gone
        invariant forall p :: p in gone || p in doomed ==> p in old(disk) && target <= p
        decreases |doomed|
      {
        var p :| p in doomed;
        doomed := doomed - {p};
        if * {
          disk := disk - {p};
          gone := gone + {p};
        }
      }
    }

    /** `scan_cached_files`: any order of the folders, then a sort by the time of access. */
    method ScanCachedFiles(scan: Scan) returns (found: seq<File>)
      ensures Scanned(found, disk, scan)
    {
      hide PathsOf, Distinct, Scanned;
      found := [];
      var rest := disk.Keys;
      NothingSeen();
      while rest != {}
        invariant rest <= disk.Keys && Distinct(found) && Backed(found, disk)
        invariant PathsOf(found) == set p | p in disk.Keys - rest && scan.readable(p)
        decreases |rest|
      {
        var p :| p in rest;
        rest := rest - {p};
        if !scan.readable(p) { continue; }
        SeenOnce(found, File(p, |disk[p]|));
        found := found + [File(p, |disk[p]|)];
      }
      SortedScan(found, disk, scan);
      found := SortBy(found, OldestFirst(scan.accessed));
    }

    /** The first use lists what a scan of the directory finds. */
    method LoadIndex(scan: Scan)
      requires index.Valid()
      modifies index
      ensures index.Valid() && index.loaded
      ensures Loaded(index.List(), old(index.loaded), old(index.List()), disk, scan)
    {
      hide Keep, Refines, Listing;
      if index.loaded { return; }
      var found := ScanCachedFiles(scan);
      index.Reset();
      for i := 0 to |found|
        invariant index.Valid() && index.List() == found[..i]
      {
        KeepNothing(found[..i], {found[i].path});
        index.Insert(found[i].path, found[i].size);
        assert found[..i + 1] == found[..i] + [found[i]];
      }
      assert found[..|found|] == found;
      index.loaded := true;
    }

    // ---- eviction ----

    method Evict(limit: nat) returns (ghost popped: nat, ghost gone: set<Path>)
      requires Valid()
      modifies this`disk, index
      ensures Valid() && disk == old(disk) - gone && index.loaded == old(index.loaded)
      ensures Evicted(old(index.List()), limit, popped, gone, index.List())
    {
      hide Total, Keep, PathsOf, Refines, Listing;
      ghost var list := index.List();
      SameTotal(index.files, index.order, index.clock, index.total, index.recs);
      popped, gone := 0, {};
      assert list[0..] == list && list[..0] == [];
      var kept: seq<File> := [];
      Nothing();
      while index.total > limit
        invariant index.Valid() && popped <= |list| && index.List() == list[popped..]
        invariant index.loaded == old(index.loaded)
        invariant index.total == Total(index.List(), SizeOf())
        invariant kept == Keep(list[..popped], gone) && gone <= PathsOf(list[..popped])
        invariant disk == old(disk) - gone && Tree(disk)
        invariant popped > 0 ==> Total(list[popped - 1..], SizeOf()) > limit
        decreases |list| - popped
      {
        var oldest := index.PopOldest();
        SameTotal(index.files, index.order, index.clock, index.total, index.recs);
        if oldest.None? { break; }
        var file := oldest.value;
        assert file == list[popped] && list[popped..][1..] == list[popped + 1..];
        var r := RemoveFile(file.path);
        OneMorePopped(list, popped, gone, r.Failed?);
        if r.Failed? {
          kept := kept + [file];
        } else {
          gone := gone + {file.path};
          assert disk == old(disk) - gone;
        }
        popped := popped + 1;
      }
      assert popped == |list| ==> list[popped..] == [];
      Nothing();
      BackedParts(list, popped, gone, old(disk), disk);
      PutBack(list, popped, gone, kept);
    }

    /** Files that could not be deleted stay accounted for. */
    method PutBack(ghost list: seq<File>, ghost popped: nat, ghost gone: set<Path>, kept: seq<File>)
      requires index.Valid() && Distinct(list) && popped <= |list|
      requires index.List() == list[popped..] && kept == Keep(list[..popped], gone)
      modifies index
      ensures index.Valid() && index.List() == list[popped..] + kept && index.loaded == old(index.loaded)
    {
      hide Keep, Refines, Listing;
      for i := 0 to |kept|
        invariant index.Valid() && index.List() == list[popped..] + kept[..i] && index.loaded == old(index.loaded)
      {
        KeptIsNew(list, popped, gone, i);
        index.Insert(kept[i].path, kept[i].size);
        assert kept[..i + 1] == kept[..i] + [kept[i]];
      }
      assert kept[..|kept|] == kept;
    }

    // ---- operations ----

    method GetFileContent(local: Path) returns (r: Option<bytes>)
      requires Valid()
      modifies index
      ensures Valid()
      ensures r.Some? ==> local in disk && r.value == disk[local] && index.List() == Touched(old(index.List()), local)
      ensures r.None? ==> index.List() == old(index.List())
    {
      if local !in disk { return None; }
      if * { return None; }
      TouchBacked(index.List(), disk, local);
      index.Touch(local);
      r := Some(disk[local]);
    }

    /** Deletes what it can of a file or folder, and forgets all of it; nothing else. */
    method Invalidate(target: Path) returns (ghost gone: set<Path>)
      requires Valid()
      modifies this`disk, index
      ensures Valid() && index.loaded == old(index.loaded)
      ensures disk == old(disk) - gone && forall p :: p in gone ==> p in old(disk) && target <= p
      ensures index.List() == Keep(old(index.List()), AtOrBelow(old(index.List()), target))
    {
      ghost var list := index.List();
      SameTotal(index.files, index.order, index.clock, index.total, index.recs);
      gone := RemoveTree(target);
      index.RemovePrefix(target);
      PrefixForgotten(list, old(disk), target, gone);
    }

    /** `ensure_parent_dirs`: removes and forgets cached files standing where folders of the
        site are needed above a path, and nothing else. */
    method ClearParents(local: Path) returns (ok: bool, ghost cleared: set<Path>)
      requires Valid() && |local| >= 2 && local[..0] !in disk && local[..1] !in disk
      modifies this`disk, index
      ensures Valid() && index.loaded == old(index.loaded)
      ensures disk == old(disk) - cleared && index.List() == Keep(old(index.List()), cleared)
      ensures forall p :: p in cleared ==> p in old(disk) && p <= local && p != local
      ensures ok ==> forall p :: p in disk && p <= local ==> p == local
    {
      hide Keep, Refines, Listing, Tree, Backed, Distinct;
      cleared := {};
      KeepNothing(index.List(), {});
      for n := 2 to |local|
        invariant Valid() && index.loaded == old(index.loaded)
        invariant disk == old(disk) - cleared && index.List() == Keep(old(index.List()), cleared)
        invariant forall p :: p in cleared ==> p in old(disk) && p <= local && p != local
        invariant forall m :: 0 <= m < n ==> local[..m] !in disk
      {
        var cur := local[..n];
        if cur in disk {
          if * { return false, cleared; }
          ghost var list, was := index.List(), disk;
          SameTotal(index.files, index.order, index.clock, index.total, index.recs);
          disk := disk - {cur};
          var size := index.Remove(cur);
          KeepBacked(list, was, {cur});
          StillTreeWithout(was, {cur});
          KeepKeep(old(index.List()), cleared, {cur});
          cleared := cleared + {cur};
        }
      }
      forall p | p in disk && p <= local && |p| < |local| ensures false { PrefixIs(p, local); }
      ok := true;
    }

    /** `put_file_content`: a file above a quarter of the limit is not stored and its old copy
        is forgotten. Any other is written after what stood in its way is `cleared`, becomes the
        newest of the `list`, and survives the eviction of `gone`; every other file stays on the
        disk and in its place. Where room cannot be made, only what is in the way may be lost. */
    method PutFileContent(site: string, components: seq<string>, data: bytes, scan: Scan)
      returns (r: Result<Path, CacheError>, ghost cleared: set<Path>, ghost list: seq<File>, ghost popped: nat,
        ghost gone: set<Path>)
      requires Valid()
      modifies this`disk, index
      ensures Valid()
      ensures r == Err(InvalidPath) <==> components == []
      ensures r.Ok? ==> r.value == [site] + components
      ensures r.Err? ==> disk == old(disk) - cleared && index.loaded == old(index.loaded)
      ensures r.Err? ==> forall p :: p in cleared ==> p in old(disk) && InTheWay(p, [site] + components)
      ensures r.Err? ==> components == [] ==> cleared == {} && index.List() == old(index.List())
      ensures r.Err? && components != [] ==>
        || index.List() == Keep(old(index.List()), cleared)
        || index.List() == Keep(old(index.List()), cleared + AtOrBelow(old(index.List()), [site] + components))
      ensures r.Ok? && |data| > maxBytes / 4 ==>
        && disk == old(disk) - gone && (forall p :: p in gone ==> p in old(disk) && r.value <= p)
        && index.List() == Keep(old(index.List()), AtOrBelow(old(index.List()), r.value))
      ensures r.Ok? && |data| <= maxBytes / 4 ==>
        && cleared == (set p | p in old(disk) && InTheWay(p, r.value))
        && disk == (old(disk) - cleared)[r.value := data] - gone
        && Grown(list, old(index.loaded), old(index.List()), old(disk), cleared, File(r.value, |data|), data, scan)
        && Evicted(list, maxBytes, popped, gone, index.List())
        && r.value in disk && disk[r.value] == data && File(r.value, |data|) in index.List()
    {
      hide Total, Keep, Refines, Listing, Scanned, Backed, Tree;
      cleared, list, popped, gone := {}, [], 0, {};
      if components == [] { return Err(InvalidPath), cleared, list, popped, gone; }
      var local := [site] + components;
      if |data| > maxBytes / LARGE_FILE_DIVISOR {
        gone := Invalidate(local);
        return Ok(local), cleared, list, popped, gone;
      }
      var ok;
      ok, cleared := Prepare(local);
      if !ok { return Err(WriteFailed), cleared, list, popped, gone; }
      Store(local, data, scan);
      list := index.List();
      Regrown(list, old(index.loaded), old(index.List()), old(disk), cleared, File(local, |data|), data, scan);
      SameTotal(index.files, index.order, index.clock, index.total, index.recs);
      popped, gone := Evict(maxBytes);
      NewestStays(list, maxBytes, popped, gone, index.List());
      r := Ok(local);
    }

    /** Makes room for a file at a path: no file above it, nothing below it. */
    method Prepare(local: Path) returns (ok: bool, ghost cleared: set<Path>)
      requires Valid() && |local| >= 2
      modifies this`disk, index
      ensures Valid() && index.loaded == old(index.loaded) && disk == old(disk) - cleared
      ensures forall p :: p in cleared ==> p in old(disk) && InTheWay(p, local)
      ensures ok ==> cleared == set p | p in old(disk) && InTheWay(p, local)
      ensures ok ==> index.List() == Keep(old(index.List()), cleared)
      ensures !ok ==>
        || index.List() == Keep(old(index.List()), cleared)
        || index.List() == Keep(old(index.List()), cleared + AtOrBelow(old(index.List()), local))
    {
      hide Refines, Listing, Keep, Tree, Backed;
      cleared := {};
      KeepNothing(index.List(), {});
      SameTotal(index.files, index.order, index.clock, index.total, index.recs);
      if local[..0] in disk || local[..1] in disk { return false, cleared; }
      ok, cleared := ClearParents(local);
      if !ok { return; }
      if exists p :: p in disk && local <= p && local != p {
        ghost var above, list, was := cleared, index.List(), disk;
        assert local !in disk by { NoFileAbove(disk, local); }
        ghost var gone := Invalidate(local);
        cleared := cleared + gone;
        BothForgotten(old(index.List()), above, list, was, local, gone, index.List());
      }
      if exists p :: p in disk && local <= p && local != p { return false, cleared; }
      forall p ensures p in cleared <==> p in old(disk) && InTheWay(p, local) {
        assert p in old(disk) && p !in cleared ==> p in disk;
      }
      ok := *;
    }

    /** Writes the file and lists it as the newest. */
    method Store(local: Path, data: bytes, scan: Scan)
      requires Valid()
      requires forall p :: p in disk && (p <= local || local <= p) ==> p == local
      modifies this`disk, index
      ensures Valid() && index.loaded && disk == old(disk)[local := data]
      ensures exists known ::
        Loaded(known, old(index.loaded), old(index.List()), disk, scan)
        && index.List() == Keep(known, {local}) + [File(local, |data|)]
    {
      hide Refines, Listing, Keep;
      StillTree(disk, local, data);
      disk := disk[local := data];
      LoadIndex(scan);
      StoredBacked(index.List(), old(disk), disk, local);
      ghost var known := index.List();
      index.Insert(local, |data|);
      assert index.List() == Keep(known, {local}) + [File(local, |data|)];
    }

    /** The limit enforced on request. */
    method EnforceLru(scan: Scan) returns (ghost list: seq<File>, ghost popped: nat, ghost gone: set<Path>)
      requires Valid()
      modifies this`disk, index
      ensures Valid() && index.loaded && disk == old(disk) - gone
      ensures Loaded(list, old(index.loaded), old(index.List()), old(disk), scan)
      ensures Evicted(list, maxBytes, popped, gone, index.List())
    {
      LoadIndex(scan);
      list := index.List();
      popped, gone := Evict(maxBytes);
    }
  }

  /** The list after a file is stored: what was listed (or what a scan finds) without the files
      cleared away and an older copy, and the new file as the newest. */
  ghost predicate Grown(list: seq<File>, loaded: bool, known: seq<File>, disk: map<Path, bytes>, cleared: set<Path>,
      f: File, data: bytes, scan: Scan)
  {
    if loaded then list == Keep(known, cleared + {f.path}) + [f]
    else exists seen :: Scanned(seen, (disk - cleared)[f.path := data], scan) && list == Keep(seen, {f.path}) + [f]
  }

  lemma Regrown(list: seq<File>, loaded: bool, known: seq<File>, disk: map<Path, bytes>, cleared: set<Path>, f: File,
      data: bytes, scan: Scan)
    requires exists seen ::
      Loaded(seen, loaded, Keep(known, cleared), (disk - cleared)[f.path := data], scan)
      && list == Keep(seen, {f.path}) + [f]
    ensures Grown(list, loaded, known, disk, cleared, f, data, scan)
  {
    KeepKeep(known, cleared, {f.path});
  }

  // ---- what keeps the index backed by the disk ----

  lemma Nothing()
    ensures Total([], SizeOf()) == 0 && Keep([], {}) == [] && PathsOf([]) == {}
  {
  }

  lemma KeepBacked(list: seq<File>, disk: map<Path, bytes>, gone: set<Path>)
    requires Backed(list, disk) && Distinct(list)
    ensures Backed(Keep(list, gone), disk - gone)
  {
  }

  lemma {:induction false} KeptIn(list: seq<File>, gone: set<Path>)
    ensures forall f :: f in Keep(list, gone) ==> f in list && f.path !in gone
  {
    if list != [] {
      KeptIn(list[..|list| - 1], gone);
    }
  }

  lemma TouchBacked(list: seq<File>, disk: map<Path, bytes>, p: Path)
    requires Backed(list, disk)
    ensures Backed(Touched(list, p), disk)
  {
    KeptIn(list, {p});
    SizeInFacts(list, p);
  }

  lemma StoredBacked(list: seq<File>, before: map<Path, bytes>, disk: map<Path, bytes>, local: Path)
    requires local in disk && forall p :: p in before && p != local ==> p in disk && disk[p] == before[p]
    requires Backed(list, before) || Backed(list, disk)
    ensures Backed(Keep(list, {local}) + [File(local, |disk[local]|)], disk)
  {
    KeptIn(list, {local});
  }

  lemma NothingSeen()
    ensures Distinct([]) && PathsOf([]) == {}
  {
  }

  lemma SeenOnce(found: seq<File>, f: File)
    requires Distinct(found) && f.path !in PathsOf(found)
    ensures Distinct(found + [f]) && PathsOf(found + [f]) == PathsOf(found) + {f.path}
  {
    PathsSnoc(found, f);
    forall i | 0 <= i < |found| ensures found[i].path != f.path { assert found[i].path in PathsOf(found); }
  }

  /** Lists with the same files list the same paths. */
  lemma SameFiles(a: seq<File>, b: seq<File>)
    requires forall f :: f in a <==> f in b
    ensures PathsOf(a) == PathsOf(b)
  {
    forall p ensures p in PathsOf(a) <==> p in PathsOf(b) {
      if p in PathsOf(a) {
        var i :| 0 <= i < |a| && a[i].path == p;
        assert a[i] in b;
      }
      if p in PathsOf(b) {
        var i :| 0 <= i < |b| && b[i].path == p;
        assert b[i] in a;
      }
    }
  }

  /** Different files with their true sizes have different paths. */
  lemma TrueSizes(list: seq<File>, disk: map<Path, bytes>)
    requires AllDifferent(list) && Backed(list, disk)
    ensures Distinct(list)
  {
    forall i, j | 0 <= i < j < |list| ensures list[i].path != list[j].path {
      assert list[i] != list[j];
    }
  }

  /** Sorting keeps what was found, each once. */
  lemma SortedScan(found: seq<File>, disk: map<Path, bytes>, scan: Scan)
    requires Distinct(found) && Backed(found, disk) && PathsOf(found) == set p | p in disk && scan.readable(p)
    ensures Scanned(SortBy(found, OldestFirst(scan.accessed)), disk, scan)
  {
    hide PathsOf, Distinct;
    var le := OldestFirst(scan.accessed);
    var list := SortBy(found, le);
    SortByIsSorted(found, le);
    assert AllDifferent(found) by { DistinctFiles(found); }
    Permuted(found, list);
    SameFiles(found, list);
    forall i | 0 <= i < |list| ensures list[i].path in disk && |disk[list[i].path]| == list[i].size {
      assert list[i] in found;
    }
    TrueSizes(list, disk);
    forall i, j | 0 <= i < j < |list| ensures scan.accessed(list[i].path) <= scan.accessed(list[j].path) {
      assert le(list[i], list[j]);
    }
  }

  lemma DistinctFiles(list: seq<File>)
    requires Distinct(list)
    ensures AllDifferent(list)
  {
  }

  lemma StillTreeWithout(disk: map<Path, bytes>, gone: set<Path>)
    requires Tree(disk)
    ensures Tree(disk - gone)
  {
  }

  lemma NoFileAbove(disk: map<Path, bytes>, local: Path)
    requires Tree(disk) && exists p :: p in disk && local <= p && local != p
    ensures local !in disk
  {
  }

  /** Forgetting what was cleared above a path, and then all at and below it. */
  lemma BothForgotten(known: seq<File>, above: set<Path>, list: seq<File>, disk: map<Path, bytes>, local: Path,
      gone: set<Path>, after: seq<File>)
    requires list == Keep(known, above) && after == Keep(list, AtOrBelow(list, local)) && Backed(list, disk)
    requires Distinct(known) && forall p :: p in gone ==> local <= p
    ensures after == Keep(known, above + gone + AtOrBelow(known, local))
    ensures (forall p :: p in disk && local <= p ==> p in gone) ==> after == Keep(known, above + gone)
  {
    KeepKeep(known, above, AtOrBelow(list, local));
    KeepFacts(known, above);
    forall i | 0 <= i < |known| ensures known[i].path in PathsOf(known) {}
    SameKeep(known, above + AtOrBelow(list, local), above + gone + AtOrBelow(known, local));
    if forall p :: p in disk && local <= p ==> p in gone {
      assert forall p :: p in PathsOf(list) ==> p in disk;
      SameKeep(known, above + AtOrBelow(list, local), above + gone);
    }
  }

  lemma PrefixForgotten(list: seq<File>, disk: map<Path, bytes>, target: Path, gone: set<Path>)
    requires Backed(list, disk) && Distinct(list) && forall p :: p in gone ==> target <= p
    ensures Backed(Keep(list, AtOrBelow(list, target)), disk - gone)
  {
    var below := AtOrBelow(list, target);
    KeptIn(list, below);
    forall i | 0 <= i < |Keep(list, below)|
      ensures !StartsWith(Keep(list, below)[i].path, target)
    {
      assert Keep(list, below)[i] in list;
    }
  }

  lemma StillTree(disk: map<Path, bytes>, local: Path, data: bytes)
    requires Tree(disk) && forall p :: p in disk && (p <= local || local <= p) ==> p == local
    ensures Tree(disk[local := data])
  {
  }

  lemma OneMorePopped(list: seq<File>, popped: nat, gone: set<Path>, failed: bool)
    requires popped < |list| && Distinct(list) && gone <= PathsOf(list[..popped])
    ensures var f := list[popped]; var more := if failed then gone else gone + {f.path};
      && Keep(list[..popped + 1], more) == Keep(list[..popped], gone) + (if failed then [f] else [])
      && more <= PathsOf(list[..popped + 1])
  {
    var f := list[popped];
    assert list[..popped + 1] == list[..popped] + [f] && list[..popped + 1][..popped] == list[..popped];
    PathsSnoc(list[..popped], f);
    assert f.path !in PathsOf(list[..popped]);
    SameKeep(list[..popped], gone, gone + {f.path});
  }

  lemma {:induction false} SameKeep(list: seq<File>, a: set<Path>, b: set<Path>)
    requires forall i :: 0 <= i < |list| ==> (list[i].path in a <==> list[i].path in b)
    ensures Keep(list, a) == Keep(list, b)
  {
    if list != [] {
      SameKeep(list[..|list| - 1], a, b);
    }
  }

  /** Both what stayed and what could not be deleted is still on the disk. */
  lemma BackedParts(list: seq<File>, popped: nat, gone: set<Path>, before: map<Path, bytes>, disk: map<Path, bytes>)
    requires Backed(list, before) && Distinct(list) && popped <= |list| && disk == before - gone
    requires gone <= PathsOf(list[..popped])
    ensures Backed(list[popped..] + Keep(list[..popped], gone), disk)
  {
    KeptIn(list[..popped], gone);
    forall i | popped <= i < |list| ensures list[i].path !in gone {
      LaterPath(list, popped, i);
    }
  }

  /** A file put back is not yet in the list again. */
  lemma KeptIsNew(list: seq<File>, popped: nat, gone: set<Path>, i: nat)
    requires Distinct(list) && popped <= |list| && i < |Keep(list[..popped], gone)|
    ensures var kept := Keep(list[..popped], gone); var now := list[popped..] + kept[..i];
      Keep(now, {kept[i].path}) == now
  {
    var kept := Keep(list[..popped], gone);
    var now := list[popped..] + kept[..i];
    KeepFacts(list[..popped], gone);
    assert kept[i] in list[..popped];
    var j :| 0 <= j < popped && list[j] == kept[i];
    KeepNothing(now, {kept[i].path});
  }
}
