/** The index of cached files: two maps, a running total and a clock, standing for one list
    of files ordered by last use. */
module ContentIndex {
  import opened Common
  import opened Ordering

  type Path = seq<string>

  datatype File = File(path: Path, size: nat)

  function SizeOf(): File -> nat { (f: File) => f.size }

  ghost predicate Distinct(list: seq<File>) {
    forall i, j :: 0 <= i < j < |list| ==> list[i].path != list[j].path
  }

  /** The list without some paths. */
  function Keep(list: seq<File>, gone: set<Path>): seq<File> {
    if list == [] then []
    else
      var n := |list| - 1;
      Keep(list[..n], gone) + (if list[n].path in gone then [] else [list[n]])
  }

  ghost function PathsOf(list: seq<File>): set<Path> { set i | 0 <= i < |list| :: list[i].path }

  /** The size of a path's file in a list. */
  function SizeIn(list: seq<File>, p: Path): Option<nat> {
    if list == [] then None
    else if list[|list| - 1].path == p then Some(list[|list| - 1].size)
    else SizeIn(list[..|list| - 1], p)
  }

  /** A file used again becomes the newest. */
  function Touched(list: seq<File>, p: Path): seq<File> {
    if SizeIn(list, p).Some? then Keep(list, {p}) + [File(p, SizeIn(list, p).value)] else list
  }

  predicate StartsWith(p: Path, prefix: Path) { prefix <= p }

  // ---- facts about lists ----

  lemma PathsSnoc(list: seq<File>, f: File)
    ensures PathsOf(list + [f]) == PathsOf(list) + {f.path}
  {
    assert (list + [f])[|list|] == f;
    assert forall i :: 0 <= i < |list| ==> (list + [f])[i] == list[i];
  }

  lemma {:induction false} KeepFacts(list: seq<File>, gone: set<Path>)
    requires Distinct(list)
    ensures Distinct(Keep(list, gone)) && PathsOf(Keep(list, gone)) == PathsOf(list) - gone
    ensures forall i :: 0 <= i < |Keep(list, gone)| ==> Keep(list, gone)[i] in list
  {
    if list != [] {
      var n := |list| - 1;
      KeepFacts(list[..n], gone);
      assert list == list[..n] + [list[n]];
      PathsSnoc(list[..n], list[n]);
      var k, last := Keep(list[..n], gone), list[n];
      forall i | 0 <= i < |k| ensures k[i].path != last.path {
        assert k[i] in list[..n];
        var j :| 0 <= j < n && list[j] == k[i];
      }
      PathsSnoc(k, last);
      forall p | p in PathsOf(list[..n]) ensures p != last.path {
        var j :| 0 <= j < n && list[..n][j].path == p;
        assert list[j].path == p;
      }
      assert k + [] == k;
    }
  }

  lemma {:induction false} KeepKeep(list: seq<File>, a: set<Path>, b: set<Path>)
    ensures Keep(Keep(list, a), b) == Keep(list, a + b)
  {
    if list != [] {
      var n := |list| - 1;
      KeepKeep(list[..n], a, b);
      var k := Keep(list[..n], a);
      if list[n].path in a {
        assert k + [] == k;
      } else {
        assert (k + [list[n]])[..|k|] == k;
      }
      assert list[n].path in a ==> Keep(list, a + b) == Keep(list[..n], a + b) + [];
    }
  }

  lemma {:induction false} KeepNothing(list: seq<File>, gone: set<Path>)
    requires forall i :: 0 <= i < |list| ==> list[i].path !in gone
    ensures Keep(list, gone) == list
  {
    if list != [] {
      KeepNothing(list[..|list| - 1], gone);
    }
  }

  /** Dropping one listed path. */
  lemma {:induction false} KeepAt(list: seq<File>, i: nat)
    requires Distinct(list) && i < |list|
    ensures Keep(list, {list[i].path}) == list[..i] + list[i + 1..]
    ensures SizeIn(list, list[i].path) == Some(list[i].size)
    decreases |list|
  {
    var n := |list| - 1;
    if i == n {
      KeepNothing(list[..n], {list[n].path});
      assert list[..i] + list[i + 1..] == list[..n];
    } else {
      KeepAt(list[..n], i);
      assert list[..n][..i] + list[..n][i + 1..] + [list[n]] == list[..i] + list[i + 1..];
    }
  }

  lemma {:induction false} SizeInFacts(list: seq<File>, p: Path)
    ensures SizeIn(list, p).Some? <==> p in PathsOf(list)
    ensures SizeIn(list, p).Some? ==> File(p, SizeIn(list, p).value) in list
  {
    if list != [] {
      var n := |list| - 1;
      SizeInFacts(list[..n], p);
      assert PathsOf(list) == PathsOf(list[..n]) + {list[n].path};
    }
  }

  // ---- the two maps ----

  /** A cached file with the clock's value at its last use. */
  datatype Rec = Rec(path: Path, size: nat, tick: nat)

  function Listing(recs: seq<Rec>): seq<File> {
    seq(|recs|, i requires 0 <= i < |recs| => File(recs[i].path, recs[i].size))
  }

  /** The map of a sequence's elements by a key. */
  function MapOf<K, V>(recs: seq<Rec>, k: Rec -> K, v: Rec -> V): map<K, V> {
    if recs == [] then map[]
    else
      var n := |recs| - 1;
      MapOf(recs[..n], k, v)[k(recs[n]) := v(recs[n])]
  }

  ghost predicate Apart<K>(recs: seq<Rec>, k: Rec -> K) {
    forall i, j :: 0 <= i < j < |recs| ==> k(recs[i]) != k(recs[j])
  }

  lemma {:induction false} MapOfFacts<K, V>(recs: seq<Rec>, k: Rec -> K, v: Rec -> V)
    requires Apart(recs, k)
    ensures forall i :: 0 <= i < |recs| ==>
      k(recs[i]) in MapOf(recs, k, v) && MapOf(recs, k, v)[k(recs[i])] == v(recs[i])
    ensures forall key :: key in MapOf(recs, k, v) ==> exists i :: 0 <= i < |recs| && k(recs[i]) == key
  {
    if recs != [] {
      var n := |recs| - 1;
      MapOfFacts(recs[..n], k, v);
      forall i | 0 <= i < |recs|
        ensures k(recs[i]) in MapOf(recs, k, v) && MapOf(recs, k, v)[k(recs[i])] == v(recs[i])
      {
        if i < n { assert recs[..n][i] == recs[i]; }
      }
      forall key | key in MapOf(recs, k, v)
        ensures exists i :: 0 <= i < |recs| && k(recs[i]) == key
      {
        if key == k(recs[n]) {
        } else {
          var i :| 0 <= i < n && k(recs[..n][i]) == key;
          assert k(recs[i]) == key;
        }
      }
    }
  }

  function Cut(recs: seq<Rec>, i: nat): seq<Rec>
    requires i < |recs|
  {
    recs[..i] + recs[i + 1..]
  }

  lemma {:induction false} MapOfCut<K, V>(recs: seq<Rec>, k: Rec -> K, v: Rec -> V, i: nat)
    requires Apart(recs, k) && i < |recs|
    ensures MapOf(Cut(recs, i), k, v) == MapOf(recs, k, v) - {k(recs[i])}
    decreases |recs|
  {
    var n := |recs| - 1;
    var m, key := MapOf(recs[..n], k, v), k(recs[n]);
    if i == n {
      MapOfFacts(recs[..n], k, v);
      assert Cut(recs, i) == recs[..n];
      assert forall j :: 0 <= j < n ==> k(recs[..n][j]) == k(recs[j]) != key;
      assert m[key := v(recs[n])] - {key} == m;
    } else {
      MapOfCut(recs[..n], k, v, i);
      assert Cut(recs, i) == Cut(recs[..n], i) + [recs[n]];
      assert Cut(recs, i)[..n - 1] == Cut(recs[..n], i);
      assert (m - {k(recs[i])})[key := v(recs[n])] == m[key := v(recs[n])] - {k(recs[i])};
    }
  }

  function PathKey(): Rec -> Path { (r: Rec) => r.path }

  function TickKey(): Rec -> nat { (r: Rec) => r.tick }

  function SizeTick(): Rec -> (nat, nat) { (r: Rec) => (r.size, r.tick) }

  function SizeWeight(): Rec -> nat { (r: Rec) => r.size }

  /** The ticks rise along the list, up to the clock. */
  ghost predicate Rising(recs: seq<Rec>, clock: nat) {
    && (forall i, j :: 0 <= i < j < |recs| ==> recs[i].tick < recs[j].tick)
    && (forall i :: 0 <= i < |recs| ==> recs[i].tick <= clock)
  }

  lemma TicksApart(recs: seq<Rec>, clock: nat)
    requires Rising(recs, clock)
    ensures Apart(recs, TickKey())
  {
  }

  /** The maps hold exactly the listed files. */
  ghost predicate Refines(files: map<Path, (nat, nat)>, order: map<nat, Path>, clock: nat, total: nat, recs: seq<Rec>) {
    && Apart(recs, PathKey()) && Rising(recs, clock)
    && files == MapOf(recs, PathKey(), SizeTick()) && order == MapOf(recs, TickKey(), PathKey())
    && total == Total(recs, SizeWeight())
  }

  /** Taking one file out of both maps. */
  lemma TakenOut(files: map<Path, (nat, nat)>, order: map<nat, Path>, clock: nat, total: nat, recs: seq<Rec>, i: nat)
    requires Refines(files, order, clock, total, recs) && i < |recs|
    ensures recs[i].size <= total
    ensures Refines(files - {recs[i].path}, order - {recs[i].tick}, clock, total - recs[i].size, Cut(recs, i))
    ensures Listing(Cut(recs, i)) == Keep(Listing(recs), {recs[i].path})
    ensures SizeIn(Listing(recs), recs[i].path) == Some(recs[i].size)
  {
    hide Total, MapOf, Keep, SizeIn;
    TicksApart(recs, clock);
    MapOfCut(recs, PathKey(), SizeTick(), i);
    MapOfCut(recs, TickKey(), PathKey(), i);
    TotalCut(recs, i);
    CutKeeps(recs, clock, i);
    SameTotal(files, order, clock, total, recs);
    KeepAt(Listing(recs), i);
    assert Listing(Cut(recs, i)) == Listing(recs)[..i] + Listing(recs)[i + 1..];
  }

  lemma CutKeeps(recs: seq<Rec>, clock: nat, i: nat)
    requires Apart(recs, PathKey()) && Rising(recs, clock) && i < |recs|
    ensures Apart(Cut(recs, i), PathKey()) && Rising(Cut(recs, i), clock)
  {
  }

  lemma TotalCut(recs: seq<Rec>, i: nat)
    requires i < |recs|
    ensures Total(recs, SizeWeight()) == Total(Cut(recs, i), SizeWeight()) + recs[i].size
  {
    TotalWithout(recs, i, SizeWeight());
  }

  /** Adding a file as the newest. */
  lemma PutLast(files: map<Path, (nat, nat)>, order: map<nat, Path>, clock: nat, total: nat, recs: seq<Rec>, f: File)
    requires Refines(files, order, clock, total, recs) && f.path !in files
    ensures Refines(files[f.path := (f.size, clock + 1)], order[clock + 1 := f.path], clock + 1, total + f.size,
                    recs + [Rec(f.path, f.size, clock + 1)])
    ensures Listing(recs + [Rec(f.path, f.size, clock + 1)]) == Listing(recs) + [f]
  {
    hide MapOf, Total, Rising, Apart;
    var r := Rec(f.path, f.size, clock + 1);
    MapOfSnoc(recs, r, PathKey(), SizeTick());
    MapOfSnoc(recs, r, TickKey(), PathKey());
    SnocKeeps(recs, clock, r);
    TotalAppend(recs, [r], SizeWeight());
    assert Total([r], SizeWeight()) == f.size by { TotalOne(r); }
  }

  lemma TotalOne(r: Rec)
    ensures Total([r], SizeWeight()) == r.size
  {
  }

  lemma MapOfSnoc<K, V>(recs: seq<Rec>, r: Rec, k: Rec -> K, v: Rec -> V)
    ensures MapOf(recs + [r], k, v) == MapOf(recs, k, v)[k(r) := v(r)]
  {
  }

  lemma SnocKeeps(recs: seq<Rec>, clock: nat, r: Rec)
    requires Apart(recs, PathKey()) && Rising(recs, clock)
    requires r.tick == clock + 1 && r.path !in MapOf(recs, PathKey(), SizeTick())
    ensures Apart(recs + [r], PathKey()) && Rising(recs + [r], clock + 1)
  {
    MapOfFacts(recs, PathKey(), SizeTick());
    var more := recs + [r];
    forall i, j | 0 <= i < j < |more| ensures PathKey()(more[i]) != PathKey()(more[j]) {
      if j == |recs| { assert PathKey()(recs[i]) in MapOf(recs, PathKey(), SizeTick()); }
    }
  }

  /** Where a path is listed. */
  lemma Listed(files: map<Path, (nat, nat)>, order: map<nat, Path>, clock: nat, total: nat, recs: seq<Rec>,
      path: Path) returns (i: nat)
    requires Refines(files, order, clock, total, recs)
    ensures path in files ==> i < |recs| && recs[i].path == path && files[path] == (recs[i].size, recs[i].tick)
    ensures path !in files ==> Keep(Listing(recs), {path}) == Listing(recs) && SizeIn(Listing(recs), path) == None
  {
    MapOfFacts(recs, PathKey(), SizeTick());
    i := 0;
    if path in files {
      i :| 0 <= i < |recs| && PathKey()(recs[i]) == path;
    } else {
      forall j | 0 <= j < |recs| ensures Listing(recs)[j].path !in {path} { assert PathKey()(recs[j]) in files; }
      KeepNothing(Listing(recs), {path});
      SizeInFacts(Listing(recs), path);
    }
  }

  class Index {
    var loaded: bool
    var total: nat
    var clock: nat
    var files: map<Path, (nat, nat)>
    var order: map<nat, Path>
    ghost var recs: seq<Rec>

    ghost predicate Valid() reads this { Refines(files, order, clock, total, recs) }

    /** The files from least to most recently used. */
    ghost function List(): seq<File> reads this { Listing(recs) }

    constructor ()
      ensures Valid() && !loaded && List() == []
    {
      loaded, total, clock, files, order, recs := false, 0, 0, map[], map[], [];
    }

    method Insert(path: Path, size: nat)
      requires Valid()
      modifies this
      ensures Valid() && loaded == old(loaded)
      ensures List() == Keep(old(List()), {path}) + [File(path, size)]
      ensures total == Total(List(), SizeOf())
    {
      hide Refines, Total, Keep, Listing, SizeIn;
      var was := Remove(path);
      PutLast(files, order, clock, total, recs, File(path, size));
      clock := clock + 1;
      files := files[path := (size, clock)];
      order := order[clock := path];
      total := total + size;
      recs := recs + [Rec(path, size, clock)];
      SameTotal(files, order, clock, total, recs);
    }

    method Touch(path: Path)
      requires Valid()
      modifies this
      ensures Valid() && loaded == old(loaded) && total == old(total)
      ensures List() == Touched(old(List()), path)
    {
      hide Refines, Total, Keep, Listing, SizeIn;
      ghost var i := Listed(files, order, clock, total, recs, path);
      if path in files {
        TakenOut(files, order, clock, total, recs, i);
        var (size, tick) := files[path];
        ghost var rest := Cut(recs, i);
        order := order - {tick};
        PutLast(files - {path}, order, clock, total - size, rest, File(path, size));
        clock := clock + 1;
        assert (files - {path})[path := (size, clock)] == files[path := (size, clock)];
        files := files[path := (size, clock)];
        order := order[clock := path];
        recs := rest + [Rec(path, size, clock)];
      }
    }

    method Remove(path: Path) returns (size: Option<nat>)
      requires Valid()
      modifies this
      ensures Valid() && loaded == old(loaded) && path !in files
      ensures List() == Keep(old(List()), {path}) && size == SizeIn(old(List()), path)
    {
      hide Refines, Total, Keep, Listing, SizeIn;
      ghost var i := Listed(files, order, clock, total, recs, path);
      if path !in files { return None; }
      TakenOut(files, order, clock, total, recs, i);
      var (n, tick) := files[path];
      files := files - {path};
      order := order - {tick};
      total := SatSub(total, n);
      recs := Cut(recs, i);
      size := Some(n);
    }

    /** Forgets a path and everything below it. */
    method RemovePrefix(prefix: Path)
      requires Valid()
      modifies this
      ensures Valid() && loaded == old(loaded)
      ensures List() == Keep(old(List()), set p | p in PathsOf(old(List())) && StartsWith(p, prefix))
    {
      hide Refines, Total, Keep, Listing, PathsOf;
      var doomed := set p | p in files && StartsWith(p, prefix);
      Keys(files, order, clock, total, recs);
      assert doomed == set p | p in PathsOf(List()) && StartsWith(p, prefix);
      ghost var gone: set<Path> := {};
      KeepNothing(List(), {});
      ghost var all := doomed;
      while doomed != {}
        invariant Valid() && loaded == old(loaded)
        invariant doomed + gone == all && List() == Keep(old(List()), gone)
        decreases |doomed|
      {
        var p :| p in doomed;
        var size := Remove(p);
        KeepKeep(old(List()), gone, {p});
        doomed, gone := doomed - {p}, gone + {p};
      }
      assert gone == all;
    }

    method PopOldest() returns (r: Option<File>)
      requires Valid()
      modifies this
      ensures Valid() && loaded == old(loaded)
      ensures r == if old(List()) == [] then None else Some(old(List())[0])
      ensures List() == if old(List()) == [] then [] else old(List())[1..]
      ensures r.Some? ==> old(total) == total + r.value.size
    {
      hide Refines, Total, Keep, SizeIn, MapOf, Listing, Cut;
      NoneListed(recs);
      Smallest(files, order, clock, total, recs);
      if order == map[] { return None; }
      var tick := FirstKey(order, recs[0].tick);
      var path := order[tick];
      TakenOut(files, order, clock, total, recs, 0);
      Oldest(recs);
      var size := files[path].0;
      order := order - {tick};
      files := files - {path};
      total := SatSub(total, size);
      recs := Cut(recs, 0);
      r := Some(File(path, size));
    }

    method Reset()
      modifies this
      ensures Valid() && !loaded && List() == []
    {
      loaded, total, clock, files, order, recs := false, 0, 0, map[], map[], [];
    }
  }

  /** The smallest key of an ordered map. */
  method FirstKey(order: map<nat, Path>, ghost least: nat) returns (tick: nat)
    requires least in order && forall t :: t in order ==> least <= t
    ensures tick == least
  {
    tick :| tick in order && forall t :: t in order ==> tick <= t;
  }

  lemma NoneListed(recs: seq<Rec>)
    ensures Listing(recs) == [] <==> recs == []
  {
  }

  lemma Oldest(recs: seq<Rec>)
    requires recs != []
    ensures Listing(recs) == [File(recs[0].path, recs[0].size)] + Listing(Cut(recs, 0))
  {
  }

  /** The first key of the tick-ordered map is the oldest file's. */
  lemma Smallest(files: map<Path, (nat, nat)>, order: map<nat, Path>, clock: nat, total: nat, recs: seq<Rec>)
    requires Refines(files, order, clock, total, recs)
    ensures order == map[] <==> recs == []
    ensures recs != [] ==> recs[0].tick in order && order[recs[0].tick] == recs[0].path
    ensures recs != [] ==> recs[0].path in files && files[recs[0].path] == (recs[0].size, recs[0].tick)
    ensures recs != [] ==> forall t :: t in order ==> recs[0].tick <= t
  {
    TicksApart(recs, clock);
    MapOfFacts(recs, TickKey(), PathKey());
    MapOfFacts(recs, PathKey(), SizeTick());
    if recs != [] {
      assert TickKey()(recs[0]) in order && PathKey()(recs[0]) in files;
      forall t | t in order ensures recs[0].tick <= t {
        var i :| 0 <= i < |recs| && TickKey()(recs[i]) == t;
      }
    }
  }

  lemma Keys(files: map<Path, (nat, nat)>, order: map<nat, Path>, clock: nat, total: nat, recs: seq<Rec>)
    requires Refines(files, order, clock, total, recs)
    ensures forall p :: p in files <==> p in PathsOf(Listing(recs))
  {
    MapOfFacts(recs, PathKey(), SizeTick());
    forall p ensures p in files <==> p in PathsOf(Listing(recs)) {
      if p in files {
        var i :| 0 <= i < |recs| && PathKey()(recs[i]) == p;
        assert Listing(recs)[i].path == p;
      }
      if p in PathsOf(Listing(recs)) {
        var i :| 0 <= i < |recs| && Listing(recs)[i].path == p;
        assert PathKey()(recs[i]) in files;
      }
    }
  }

  /** The running total is the sum of the listed sizes, and no path is listed twice. */
  lemma SameTotal(files: map<Path, (nat, nat)>, order: map<nat, Path>, clock: nat, total: nat, recs: seq<Rec>)
    requires Refines(files, order, clock, total, recs)
    ensures total == Total(Listing(recs), SizeOf()) && Distinct(Listing(recs))
  {
    TotalSame(recs, Listing(recs), SizeWeight(), SizeOf());
    TotalSame(Listing(recs), recs, SizeOf(), SizeWeight());
    forall i, j | 0 <= i < j < |recs| ensures recs[i].path != recs[j].path {
      assert PathKey()(recs[i]) != PathKey()(recs[j]);
    }
  }
}
