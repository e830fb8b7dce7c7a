/** "Keep remote up to date": raw file events are held back per path until the path is quiet,
    and each poll reports what settled, by what is on the disk then. */
module Debounce {
  import opened Common
  import opened Ordering

  type Path = seq<string>

  // Times are in milliseconds and never run backwards.
  const STABILITY_RECHECK: nat := 300
  const MAX_PENDING: nat := 10_000
  const MAX_DIR_WALK_ENTRIES: nat := 20_000
  const MAX_KNOWN_PATHS: nat := 200_000

  datatype Hint = Hint(created: bool, gone: bool, renamed: bool)

  /** Size and modification time. */
  datatype Signature = Signature(size: nat, mtime: Option<int>)

  datatype Pending = Pending(firstSeen: nat, hint: Hint, lastSig: Option<Signature>, nextCheck: nat)

  datatype Kind = Changed | Removed

  /** A reported path; `relative` is below its watched root. */
  datatype Event = Event(path: Path, relative: Path, isDir: bool, kind: Kind)

  // ---- the disk at one moment ----

  /** What a path is, links followed. */
  datatype Status = Missing | Dangling | Failing | IsDir | IsFile(sig: Signature)

  /** A folder's entry, links not followed. */
  datatype DirEntry = DirEntry(name: string, isDir: bool)

  datatype Snapshot = Snapshot(stat: Path -> Status, list: Path -> seq<DirEntry>)

  /** What is listed is there. */
  ghost predicate Consistent(disk: Snapshot) {
    forall d, e :: e in disk.list(d) ==> disk.stat(d + [e.name]) != Missing
  }

  /** A folder lists a name once. */
  ghost predicate NamesOnce(disk: Snapshot) {
    forall d, i, j :: 0 <= i < j < |disk.list(d)| ==> disk.list(d)[i].name != disk.list(d)[j].name
  }

  // ---- which paths count ----

  datatype Scope = Scope(roots: seq<Path>, excluded: seq<Path>, ignored: Path -> bool)

  /** Below the first root that contains a path; a root itself is not synced. */
  function Below(roots: seq<Path>, p: Path): Option<Path> {
    if roots == [] then None
    else if roots[0] <= p then if p == roots[0] then None else Some(p[|roots[0]|..])
    else Below(roots[1..], p)
  }

  function Relative(s: Scope, p: Path): Option<Path> {
    if exists x :: x in s.excluded && x <= p then None else Below(s.roots, p)
  }

  predicate Wanted(s: Scope, p: Path) { Relative(s, p).Some? && !s.ignored(Relative(s, p).value) }

  /** A path in scope: below no excluded one, and `rel` below the first root at or above it. */
  ghost predicate InScope(s: Scope, p: Path, rel: Path) {
    && (forall x :: x in s.excluded ==> !(x <= p))
    && rel != []
    && exists i :: 0 <= i < |s.roots| && s.roots[i] + rel == p && forall j :: 0 <= j < i ==> !(s.roots[j] <= p)
  }

  lemma {:induction false} BelowMeaning(roots: seq<Path>, p: Path, rel: Path)
    ensures Below(roots, p) == Some(rel) <==>
      rel != [] && exists i :: 0 <= i < |roots| && roots[i] + rel == p && forall j :: 0 <= j < i ==> !(roots[j] <= p)
  {
    if roots != [] {
      var rest := roots[1..];
      BelowMeaning(rest, p, rel);
      if roots[0] <= p {
        assert roots[0] + p[|roots[0]|..] == p;
        assert roots[0] + rel == p <==> rel == p[|roots[0]|..];
      } else {
        assert roots[0] + rel != p;
        forall i | 1 <= i < |roots| ensures roots[i] == rest[i - 1] {}
        if Below(rest, p) == Some(rel) {
          var i :| 0 <= i < |rest| && rest[i] + rel == p && forall j :: 0 <= j < i ==> !(rest[j] <= p);
          assert roots[i + 1] + rel == p;
        }
        if i :| 0 <= i < |roots| && roots[i] + rel == p && forall j :: 0 <= j < i ==> !(roots[j] <= p) {
          assert rest[i - 1] + rel == p;
        }
      }
    }
  }

  /** What a path is called below the watched folder, and which paths are. */
  lemma RelativeMeaning(s: Scope, p: Path)
    ensures forall rel :: Relative(s, p) == Some(rel) <==> InScope(s, p, rel)
    ensures Wanted(s, p) <==> exists rel :: InScope(s, p, rel) && !s.ignored(rel)
  {
    hide Below;
    forall rel ensures Relative(s, p) == Some(rel) <==> InScope(s, p, rel) { BelowMeaning(s.roots, p, rel); }
    if Wanted(s, p) { assert InScope(s, p, Relative(s, p).value); }
  }

  function EventFor(s: Scope, p: Path, isDir: bool, kind: Kind): Option<Event> {
    if Relative(s, p).Some? then Some(Event(p, Relative(s, p).value, isDir, kind)) else None
  }

  ghost function PathsOf(events: seq<Event>): set<Path> { set i | 0 <= i < |events| :: events[i].path }

  ghost predicate Apart(events: seq<Event>) {
    forall i, j :: 0 <= i < j < |events| ==> events[i].path != events[j].path
  }

  lemma PathsJoin(a: seq<Event>, b: seq<Event>)
    ensures PathsOf(a + b) == PathsOf(a) + PathsOf(b)
  {
    assert forall i :: 0 <= i < |a| ==> (a + b)[i] == a[i];
    assert forall i :: 0 <= i < |b| ==> (a + b)[|a| + i] == b[i];
  }

  // ---- a folder that just appeared ----

  predicate Listed(disk: Snapshot, p: Path) {
    p != [] && exists e :: e in disk.list(p[..|p| - 1]) && e.name == p[|p| - 1]
  }

  predicate ListedDir(disk: Snapshot, p: Path) { p != [] && DirEntry(p[|p| - 1], true) in disk.list(p[..|p| - 1]) }

  /** Found from a folder by going down through real, wanted folders. */
  predicate Reached(s: Scope, disk: Snapshot, d: Path, p: Path)
    decreases |p|
  {
    && |d| < |p| && d == p[..|d|] && Listed(disk, p) && Wanted(s, p)
    && (|p| == |d| + 1 || (Reached(s, disk, d, p[..|p| - 1]) && ListedDir(disk, p[..|p| - 1])))
  }

  lemma {:induction false} ReachedAbove(s: Scope, disk: Snapshot, d: Path, p: Path, n: nat)
    requires Reached(s, disk, d, p) && |d| < n <= |p|
    ensures Reached(s, disk, d, p[..n]) && (n < |p| ==> ListedDir(disk, p[..n]))
    decreases |p|
  {
    if n < |p| {
      ReachedAbove(s, disk, d, p[..|p| - 1], n);
      assert p[..|p| - 1][..n] == p[..n];
    } else {
      assert p[..n] == p;
    }
  }

  predicate Within(d: Path, p: Path) { |d| < |p| && d == p[..|d|] }

  /** Found entries are reported, or lie below a folder still to be read. */
  ghost predicate Covering(s: Scope, disk: Snapshot, d: Path, stack: seq<Path>, out: seq<Event>) {
    forall p :: Reached(s, disk, d, p) ==> p in PathsOf(out) || exists k :: 0 <= k < |stack| && Within(stack[k], p)
  }

  /** Reported entries were found. */
  ghost predicate Found(s: Scope, disk: Snapshot, d: Path, out: seq<Event>) {
    forall i :: 0 <= i < |out| ==>
      Reached(s, disk, d, out[i].path) && Some(out[i]) == EventFor(s, out[i].path, out[i].isDir, Changed)
      && (out[i].isDir ==> ListedDir(disk, out[i].path))
  }

  ghost predicate Folders(s: Scope, disk: Snapshot, d: Path, stack: seq<Path>) {
    forall k :: 0 <= k < |stack| ==> stack[k] == d || (Reached(s, disk, d, stack[k]) && ListedDir(disk, stack[k]))
  }

  /** Reports everything below a new folder, up to a limit. */
  method WalkNewDir(s: Scope, disk: Snapshot, d: Path) returns (out: seq<Event>, cut: bool)
    ensures Found(s, disk, d, out) && |out| <= MAX_DIR_WALK_ENTRIES
    ensures cut ==> |out| == MAX_DIR_WALK_ENTRIES
    ensures NamesOnce(disk) ==> Apart(out)
    ensures !cut ==> forall p :: Reached(s, disk, d, p) <==> p in PathsOf(out)
  {
    hide Reached, Listed, ListedDir, Relative, PathsOf, Once, Handled;
    out, cut := [], false;
    var stack := [d];
    ghost var read: set<Path> := {};
    AllBelow(s, disk, d);
    NothingRead(d);
    while stack != []
      invariant NamesOnce(disk) ==> Once(d, read, stack, out)
      invariant Found(s, disk, d, out) && Folders(s, disk, d, stack) && Covering(s, disk, d, stack, out)
      invariant |out| <= MAX_DIR_WALK_ENTRIES
      decreases MAX_DIR_WALK_ENTRIES - |out|, |stack|
    {
      var n := |stack| - 1;
      var top := stack[n];
      var rest := stack[..n];
      assert stack == rest + [top];
      ghost var before := out;
      if NamesOnce(disk) { StartReading(d, read, rest, top, out); }
      read := read + {top};
      stack, out, cut := ReadFolder(s, disk, d, top, rest, out, read);
      OnceApart(d, read, stack, out);
      if cut { return; }
      NextCovering(s, disk, d, rest, top, before, stack, out);
    }
    OnceApart(d, read, stack, out);
    forall p ensures Reached(s, disk, d, p) <==> p in PathsOf(out) { FoundPath(s, disk, d, out, p); }
  }

  /** Reports the entries of one folder, and keeps its folders for reading. */
  method ReadFolder(s: Scope, disk: Snapshot, ghost d: Path, top: Path, rest: seq<Path>, before: seq<Event>,
      ghost read: set<Path>) returns (stack: seq<Path>, out: seq<Event>, cut: bool)
    requires Found(s, disk, d, before) && Folders(s, disk, d, rest) && |before| <= MAX_DIR_WALK_ENTRIES
    requires top == d || (Reached(s, disk, d, top) && ListedDir(disk, top))
    requires NamesOnce(disk) ==> Once(d, read, rest, before) && OnlyNames(top, [], before) && top in read
    ensures Found(s, disk, d, out) && Folders(s, disk, d, stack) && |out| <= MAX_DIR_WALK_ENTRIES
    ensures before <= out && rest <= stack && |stack| - |rest| <= |out| - |before|
    ensures NamesOnce(disk) ==> Once(d, read, stack, out)
    ensures cut ==> |out| == MAX_DIR_WALK_ENTRIES
    ensures !cut ==> forall j :: 0 <= j < |disk.list(top)| ==> Handled(s, top, disk.list(top)[j], stack, out)
  {
    hide Reached, Listed, ListedDir, Relative, PathsOf, Once, OnlyNames, Handled;
    var entries := disk.list(top);
    stack, out := rest, before;
    for i := 0 to |entries|
      invariant Found(s, disk, d, out) && Folders(s, disk, d, stack) && |out| <= MAX_DIR_WALK_ENTRIES
      invariant before <= out && rest <= stack && |stack| - |rest| <= |out| - |before|
      invariant forall j :: 0 <= j < i ==> Handled(s, top, entries[j], stack, out)
      invariant NamesOnce(disk) ==> Once(d, read, stack, out) && OnlyNames(top, entries[..i], out)
    {
      if |out| >= MAX_DIR_WALK_ENTRIES { return stack, out, true; }
      var e := entries[i];
      var p := top + [e.name];
      ghost var was, held := out, stack;
      if Wanted(s, p) {
        EntryReached(s, disk, d, top, e);
        if e.isDir { stack := stack + [p]; }
        var ev := EventFor(s, p, e.isDir, Changed);
        if ev.Some? { out := out + [ev.value]; }
      }
      StillHandled(s, top, entries, i, held, was, stack, out);
      assert entries[..i + 1] == entries[..i] + [e];
      if NamesOnce(disk) { StillOnce(s, d, read, top, entries, i, held, was, stack, out); }
    }
    cut := false;
  }

  function Parent(p: Path): Path { if p == [] then [] else p[..|p| - 1] }

  /** No path is reported and no folder read twice: what is reported was listed by a folder
      read before, and folders still to be read are not among those. */
  ghost predicate Once(d: Path, read: set<Path>, stack: seq<Path>, out: seq<Event>) {
    Apart(out) && Listers(d, read, out) && ReadOnes(d, read, out) && Unread(d, read, stack, out)
  }

  ghost predicate Listers(d: Path, read: set<Path>, out: seq<Event>) {
    forall i :: 0 <= i < |out| ==> |d| < |out[i].path| && Parent(out[i].path) in read
  }

  ghost predicate ReadOnes(d: Path, read: set<Path>, out: seq<Event>) {
    forall p :: p in read ==> |d| <= |p| && (p == d || p in PathsOf(out))
  }

  ghost predicate Unread(d: Path, read: set<Path>, stack: seq<Path>, out: seq<Event>) {
    && (forall k :: 0 <= k < |stack| ==> stack[k] !in read && (stack[k] == d || stack[k] in PathsOf(out)))
    && AllDifferent(stack)
  }

  /** What is reported directly below the folder being read are entries seen so far. */
  ghost predicate OnlyNames(top: Path, seen: seq<DirEntry>, out: seq<Event>) {
    forall i :: 0 <= i < |out| && out[i].path != [] && Parent(out[i].path) == top ==>
      exists j :: 0 <= j < |seen| && seen[j].name == out[i].path[|out[i].path| - 1]
  }

  lemma OnceApart(d: Path, read: set<Path>, stack: seq<Path>, out: seq<Event>)
    ensures Once(d, read, stack, out) ==> Apart(out)
  {
  }

  lemma NothingRead(d: Path)
    ensures Once(d, {}, [d], [])
  {
  }

  lemma StartReading(d: Path, read: set<Path>, rest: seq<Path>, top: Path, out: seq<Event>)
    requires Once(d, read, rest + [top], out)
    ensures Once(d, read + {top}, rest, out) && OnlyNames(top, [], out)
  {
    var stack := rest + [top];
    assert stack[|rest|] == top;
    forall k | 0 <= k < |rest| ensures rest[k] !in read + {top} && (rest[k] == d || rest[k] in PathsOf(out)) {
      assert stack[k] == rest[k];
    }
    forall j, k | 0 <= j < k < |rest| ensures rest[j] != rest[k] {
      assert stack[j] == rest[j] && stack[k] == rest[k];
    }
    if top != d {
      var i :| 0 <= i < |out| && out[i].path == top;
    }
  }

  lemma StillOnce(s: Scope, d: Path, read: set<Path>, top: Path, entries: seq<DirEntry>, i: nat, held: seq<Path>,
      was: seq<Event>, stack: seq<Path>, out: seq<Event>)
    requires i < |entries| && forall j, k :: 0 <= j < k < |entries| ==> entries[j].name != entries[k].name
    requires Once(d, read, held, was) && top in read && OnlyNames(top, entries[..i], was)
    requires Step(s, top, entries[i], held, was, stack, out)
    ensures Once(d, read, stack, out) && OnlyNames(top, entries[..i] + [entries[i]], out)
  {
    hide Relative, Once, OnlyNames;
    var e := entries[i];
    var p := top + [e.name];
    if Wanted(s, p) {
      NewName(top, entries, i, was);
      AddEntry(d, read, held, was, p, out[|was|], stack);
    }
    MoreNames(top, entries, i, was, p, out);
  }

  /** The next entry of a folder has a new name. */
  lemma NewName(top: Path, entries: seq<DirEntry>, i: nat, was: seq<Event>)
    requires i < |entries| && forall j, k :: 0 <= j < k < |entries| ==> entries[j].name != entries[k].name
    requires OnlyNames(top, entries[..i], was)
    ensures top + [entries[i].name] !in PathsOf(was)
  {
    var p := top + [entries[i].name];
    assert Parent(p) == top;
    forall k | 0 <= k < |was| ensures was[k].path != p {
      if was[k].path != [] && Parent(was[k].path) == top {
        var j :| 0 <= j < i && entries[..i][j].name == was[k].path[|was[k].path| - 1];
        assert entries[j].name != entries[i].name;
      }
    }
  }

  lemma AddEntry(d: Path, read: set<Path>, held: seq<Path>, was: seq<Event>, p: Path, ev: Event, stack: seq<Path>)
    requires Once(d, read, held, was) && p != [] && Parent(p) in read && p !in PathsOf(was)
    requires ev.path == p && (stack == held || stack == held + [p])
    ensures Once(d, read, stack, was + [ev])
  {
    hide PathsOf, Fresh;
    AddPath(was, ev);
    MoreListers(d, read, was, ev);
    MoreUnread(d, read, held, was, p, ev, stack);
  }

  lemma MoreListers(d: Path, read: set<Path>, was: seq<Event>, ev: Event)
    requires Listers(d, read, was) && ReadOnes(d, read, was) && ev.path != [] && Parent(ev.path) in read
    ensures Listers(d, read, was + [ev])
  {
    hide PathsOf;
  }

  lemma MoreUnread(d: Path, read: set<Path>, held: seq<Path>, was: seq<Event>, p: Path, ev: Event, stack: seq<Path>)
    requires Unread(d, read, held, was) && ReadOnes(d, read, was) && p !in PathsOf(was) && |d| < |p| && ev.path == p
    requires stack == held || stack == held + [p]
    ensures Unread(d, read, stack, was + [ev])
  {
    hide PathsOf, Fresh;
    AddPath(was, ev);
    assert p !in read;
    forall k | 0 <= k < |held| ensures held[k] != p && (held[k] == d || held[k] in PathsOf(was + [ev])) {}
    forall j, k | 0 <= j < k < |stack| ensures stack[j] != stack[k] {
      assert stack[j] == held[j];
    }
  }

  lemma MoreNames(top: Path, entries: seq<DirEntry>, i: nat, was: seq<Event>, p: Path, out: seq<Event>)
    requires i < |entries| && OnlyNames(top, entries[..i], was) && p == top + [entries[i].name]
    requires out == was || (|out| > |was| && out == was + [out[|was|]] && out[|was|].path == p)
    ensures OnlyNames(top, entries[..i] + [entries[i]], out)
  {
    var seen := entries[..i] + [entries[i]];
    assert seen[i] == entries[i];
    forall k | 0 <= k < |out| && out[k].path != [] && Parent(out[k].path) == top
      ensures exists j :: 0 <= j < |seen| && seen[j].name == out[k].path[|out[k].path| - 1]
    {
      if k < |was| {
        assert out[k] == was[k];
        var j :| 0 <= j < i && entries[..i][j].name == was[k].path[|was[k].path| - 1];
        assert seen[j] == entries[..i][j];
      }
    }
  }

  /** One entry of a folder handled. */
  ghost predicate Step(s: Scope, top: Path, e: DirEntry, held: seq<Path>, was: seq<Event>, stack: seq<Path>,
      out: seq<Event>)
  {
    var p := top + [e.name];
    if Wanted(s, p) then
      && out == was + [Event(p, Relative(s, p).value, e.isDir, Changed)]
      && stack == held + (if e.isDir then [p] else [])
    else out == was && stack == held
  }

  /** An entry of a folder that was read is reported, and kept for reading if it is one. */
  ghost predicate Handled(s: Scope, top: Path, e: DirEntry, stack: seq<Path>, out: seq<Event>) {
    Wanted(s, top + [e.name]) ==> top + [e.name] in PathsOf(out) && (e.isDir ==> top + [e.name] in stack)
  }

  lemma StillHandled(s: Scope, top: Path, entries: seq<DirEntry>, i: nat, held: seq<Path>, was: seq<Event>,
      stack: seq<Path>, out: seq<Event>)
    requires i < |entries| && forall j :: 0 <= j < i ==> Handled(s, top, entries[j], held, was)
    requires Step(s, top, entries[i], held, was, stack, out)
    ensures forall j :: 0 <= j <= i ==> Handled(s, top, entries[j], stack, out)
  {
    hide Relative;
    var p := top + [entries[i].name];
    if Wanted(s, p) {
      PathsJoin(was, [out[|was|]]);
      assert [out[|was|]][0].path == p;
    }
  }

  lemma AllBelow(s: Scope, disk: Snapshot, d: Path)
    ensures Covering(s, disk, d, [d], [])
  {
    forall p | Reached(s, disk, d, p) ensures exists k :: 0 <= k < |[d]| && Within([d][k], p) {
      assert Within([d][0], p);
    }
  }

  lemma EntryReached(s: Scope, disk: Snapshot, d: Path, top: Path, e: DirEntry)
    requires top == d || (Reached(s, disk, d, top) && ListedDir(disk, top))
    requires e in disk.list(top) && Wanted(s, top + [e.name])
    ensures Reached(s, disk, d, top + [e.name]) && (e.isDir ==> ListedDir(disk, top + [e.name]))
  {
  }

  lemma FoundPath(s: Scope, disk: Snapshot, d: Path, out: seq<Event>, p: Path)
    requires Found(s, disk, d, out) && Covering(s, disk, d, [], out)
    ensures Reached(s, disk, d, p) <==> p in PathsOf(out)
  {
  }

  lemma NextCovering(s: Scope, disk: Snapshot, d: Path, rest: seq<Path>, top: Path, before: seq<Event>,
      stack: seq<Path>, out: seq<Event>)
    requires Covering(s, disk, d, rest + [top], before) && before <= out && rest <= stack
    requires top == d || Reached(s, disk, d, top)
    requires forall j :: 0 <= j < |disk.list(top)| ==> Handled(s, top, disk.list(top)[j], stack, out)
    ensures Covering(s, disk, d, stack, out)
  {
    hide Relative, Wanted, Reached, Within, PathsOf;
    assert out == before + out[|before|..];
    PathsJoin(before, out[|before|..]);
    forall p | Reached(s, disk, d, p) && p !in PathsOf(before)
      ensures p in PathsOf(out) || exists k :: 0 <= k < |stack| && Within(stack[k], p)
    {
      var k :| 0 <= k < |rest + [top]| && Within((rest + [top])[k], p);
      if k < |rest| {
        assert stack[k] == rest[k];
      } else {
        BelowTop(s, disk, d, top, stack, out, p);
      }
    }
  }

  /** What lies below the folder just read is reported or below one of its folders. */
  lemma BelowTop(s: Scope, disk: Snapshot, d: Path, top: Path, stack: seq<Path>, out: seq<Event>, p: Path)
    requires Reached(s, disk, d, p) && Within(top, p) && (top == d || Reached(s, disk, d, top))
    requires forall j :: 0 <= j < |disk.list(top)| ==> Handled(s, top, disk.list(top)[j], stack, out)
    ensures p in PathsOf(out) || exists k :: 0 <= k < |stack| && Within(stack[k], p)
  {
    hide Relative, Wanted, PathsOf;
    var c := p[..|top| + 1];
    ReachedAbove(s, disk, d, p, |top| + 1);
    var e := TheEntry(s, disk, d, top, c, |c| < |p|);
    var j :| 0 <= j < |disk.list(top)| && disk.list(top)[j] == e;
    assert Handled(s, top, e, stack, out);
    if |c| < |p| {
      var m :| 0 <= m < |stack| && stack[m] == c;
      assert Within(stack[m], p);
    } else {
      assert c == p;
    }
  }

  lemma TheEntry(s: Scope, disk: Snapshot, d: Path, top: Path, c: Path, isDir: bool) returns (e: DirEntry)
    requires Reached(s, disk, d, c) && |c| == |top| + 1 && c[..|top|] == top && (isDir ==> ListedDir(disk, c))
    ensures e in disk.list(top) && c == top + [e.name] && (isDir ==> e.isDir) && Wanted(s, c)
  {
    hide Relative;
    assert c[..|c| - 1] == top && c == top + [c[|top|]];
    if isDir {
      e := DirEntry(c[|top|], true);
    } else {
      e :| e in disk.list(c[..|c| - 1]) && e.name == c[|c| - 1];
    }
  }

  // ---- one path ----

  /** However many events arrive, a path is looked at soon after the longest wait. */
  predicate InTime(p: Pending) { p.nextCheck <= p.firstSeen + MAX_PENDING + STABILITY_RECHECK }

  /** A raw event for a path, new or already waiting. */
  function Recorded(earlier: Option<Pending>, hint: Hint, now: nat, debounce: nat): Pending {
    var first := if earlier.Some? then earlier.value.firstSeen else now;
    var h := if earlier.Some? then earlier.value.hint else Hint(false, false, false);
    Pending(first, Hint(h.created || hint.created, h.gone || hint.gone, h.renamed || hint.renamed), None,
            Min(now + debounce, first + MAX_PENDING))
  }

  /** A file seen changing is looked at again shortly. */
  function Rechecked(p: Pending, sig: Signature, now: nat): Pending {
    p.(lastSig := Some(sig), nextCheck := now + STABILITY_RECHECK)
  }

  // ---- one poll ----

  datatype Moment = Moment(scope: Scope, pending: map<Path, Pending>, known: set<Path>, disk: Snapshot, now: nat)
  {
    predicate Due(p: Path) { p in pending && pending[p].nextCheck <= now }

    /** Folders that appeared: they are announced with everything below them. */
    predicate Announced(p: Path) {
      Due(p) && disk.stat(p).IsDir? && (pending[p].hint.created || pending[p].hint.renamed || pending[p].hint.gone)
    }

    /** Files that did not change between two checks, or waited as long as any may. */
    predicate Settled(p: Path) {
      && Due(p) && disk.stat(p).IsFile?
      && (pending[p].lastSig == Some(disk.stat(p).sig) || SatSub(now, pending[p].firstSeen) >= MAX_PENDING)
    }

    /** What is gone, unless it came and went unseen. */
    predicate Removal(p: Path) {
      && Due(p) && disk.stat(p).Missing?
      && !(pending[p].hint.created && !pending[p].hint.renamed && p !in known)
    }

    /** Files that are still changing are looked at again. */
    predicate Waits(p: Path) { Due(p) && disk.stat(p).IsFile? && !Settled(p) }
  }

  /** Events and checks keep the deadline; from the deadline on any check ends the waiting. */
  lemma WaitingIsBounded(m: Moment, p: Path, earlier: Option<Pending>, hint: Hint, debounce: nat)
    ensures InTime(Recorded(earlier, hint, m.now, debounce))
    ensures earlier.Some? ==> Recorded(earlier, hint, m.now, debounce).firstSeen == earlier.value.firstSeen
    ensures m.Waits(p) ==>
      var later := Rechecked(m.pending[p], m.disk.stat(p).sig, m.now);
      later.firstSeen == m.pending[p].firstSeen && InTime(later)
    ensures p in m.pending && InTime(m.pending[p]) && m.now >= m.pending[p].firstSeen + 10_300 ==>
      m.Due(p) && !m.Waits(p)
  {
  }

  /** Every waiting path is wanted and in time. */
  ghost predicate Fit(s: Scope, pending: map<Path, Pending>) {
    forall p :: p in pending ==> Wanted(s, p) && InTime(pending[p])
  }

  /** The waiting paths after a poll that has looked at some of the due ones. */
  function StillPending(m: Moment, done: set<Path>): map<Path, Pending> {
    map p | p in m.pending && (p in done ==> m.Waits(p)) ::
      if p in done then Rechecked(m.pending[p], m.disk.stat(p).sig, m.now) else m.pending[p]
  }

  /** A change event is about a path that settled, or one found below an announced folder. */
  ghost predicate Justified(m: Moment, e: Event) {
    && Some(e) == EventFor(m.scope, e.path, e.isDir, Changed)
    && (|| (m.Settled(e.path) && !e.isDir)
        || (m.Announced(e.path) && e.isDir)
        || exists d :: m.Announced(d) && Reached(m.scope, m.disk, d, e.path))
  }

  /** The walk of a folder hit the limit: that many entries below it are reported, all different
      if no folder lists a name twice. */
  ghost predicate Full(m: Moment, d: Path, reported: set<Path>) {
    exists walk: seq<Event> ::
      && |walk| == MAX_DIR_WALK_ENTRIES && Found(m.scope, m.disk, d, walk) && PathsOf(walk) <= reported
      && (NamesOnce(m.disk) ==> Apart(walk))
  }

  lemma FullMore(m: Moment, d: Path, fewer: set<Path>, reported: set<Path>)
    requires Full(m, d, fewer) && fewer <= reported
    ensures Full(m, d, reported)
  {
  }

  lemma {:induction false} PathsCount(events: seq<Event>)
    requires Apart(events)
    ensures |PathsOf(events)| == |events|
  {
    if events != [] {
      var n := |events| - 1;
      PathsCount(events[..n]);
      assert events == events[..n] + [events[n]];
      FreshSnoc(events[..n], events[n], {});
      assert events[n].path !in PathsOf(events[..n]);
    }
  }

  lemma FewerPaths(a: set<Path>, b: set<Path>)
    requires a <= b
    ensures |a| <= |b|
  {
    assert b == a + (b - a);
  }

  /** Nothing below a new folder goes unreported unless as many paths below it as the limit
      allows are reported. */
  lemma CutIsFull(m: Moment, d: Path, dirs: seq<Event>, files: seq<Event>, removals: seq<Event>, cut: set<Path>)
    requires Report(m, dirs, files, removals, cut) && m.Announced(d) && NamesOnce(m.disk)
    ensures var below := ReportedBelow(m, d, PathsOf(dirs) + PathsOf(files));
      |below| >= MAX_DIR_WALK_ENTRIES || forall p :: Reached(m.scope, m.disk, d, p) ==> p in below
  {
    hide Reached, Full, Justified, PathsOf;
    if d in cut { FullCount(m, d, PathsOf(dirs) + PathsOf(files)); }
  }

  ghost function ReportedBelow(m: Moment, d: Path, reported: set<Path>): set<Path> {
    set p | p in reported && Reached(m.scope, m.disk, d, p)
  }

  lemma FullCount(m: Moment, d: Path, reported: set<Path>)
    requires Full(m, d, reported) && NamesOnce(m.disk)
    ensures |ReportedBelow(m, d, reported)| >= MAX_DIR_WALK_ENTRIES
  {
    hide Reached, NamesOnce;
    var walk: seq<Event> :| |walk| == MAX_DIR_WALK_ENTRIES && Found(m.scope, m.disk, d, walk)
      && PathsOf(walk) <= reported && (NamesOnce(m.disk) ==> Apart(walk));
    PathsCount(walk);
    var below := ReportedBelow(m, d, reported);
    forall p | p in PathsOf(walk) ensures p in below {
      var i :| 0 <= i < |walk| && walk[i].path == p;
      assert Reached(m.scope, m.disk, d, walk[i].path);
    }
    FewerPaths(PathsOf(walk), below);
  }

  /** The events gathered from the paths looked at so far; the walk of a folder in `cut` hit the
      limit. */
  ghost predicate Gathered(m: Moment, done: set<Path>, dirs: seq<Event>, files: seq<Event>, cut: set<Path>) {
    && (forall i :: 0 <= i < |dirs| ==> Justified(m, dirs[i]) && dirs[i].isDir)
    && (forall i :: 0 <= i < |files| ==> Justified(m, files[i]) && !files[i].isDir)
    && (forall p :: p in done && m.Announced(p) ==> p in PathsOf(dirs))
    && (forall p :: p in done && m.Settled(p) ==> p in PathsOf(dirs) + PathsOf(files))
    && (forall d, p :: d in done && d !in cut && m.Announced(d) && Reached(m.scope, m.disk, d, p) ==>
          p in PathsOf(dirs) + PathsOf(files))
    && (forall d :: d in cut ==> d in done && m.Announced(d) && Full(m, d, PathsOf(dirs) + PathsOf(files)))
  }

  ghost predicate Vanishing(m: Moment, done: set<Path>, removed: seq<Path>) {
    && (forall p :: p in removed <==> p in done && m.Removal(p))
    && AllDifferent(removed)
  }

  /** More events only add paths. */
  lemma GatherMore(m: Moment, done: set<Path>, p: Path, dirs: seq<Event>, files: seq<Event>, cut: set<Path>,
                   moreDirs: seq<Event>, moreFiles: seq<Event>, wasCut: bool)
    requires Gathered(m, done, dirs, files, cut)
    requires forall i :: 0 <= i < |moreDirs| ==> Justified(m, moreDirs[i]) && moreDirs[i].isDir
    requires forall i :: 0 <= i < |moreFiles| ==> Justified(m, moreFiles[i]) && !moreFiles[i].isDir
    requires m.Announced(p) ==> p in PathsOf(moreDirs)
    requires m.Settled(p) ==> p in PathsOf(moreFiles)
    requires m.Announced(p) && !wasCut ==>
      forall q :: Reached(m.scope, m.disk, p, q) ==> q in PathsOf(moreDirs) + PathsOf(moreFiles)
    requires wasCut ==> m.Announced(p) && Full(m, p, PathsOf(moreDirs) + PathsOf(moreFiles))
    ensures Gathered(m, done + {p}, dirs + moreDirs, files + moreFiles, if wasCut then cut + {p} else cut)
  {
    hide Reached, Justified, PathsOf, Full;
    PathsJoin(dirs, moreDirs);
    PathsJoin(files, moreFiles);
    var all := PathsOf(dirs + moreDirs) + PathsOf(files + moreFiles);
    forall d | d in cut ensures Full(m, d, all) { FullMore(m, d, PathsOf(dirs) + PathsOf(files), all); }
    if wasCut { FullMore(m, p, PathsOf(moreDirs) + PathsOf(moreFiles), all); }
  }

  /** The folders and files among found entries. */
  function OfKind(events: seq<Event>, isDir: bool): seq<Event> {
    if events == [] then []
    else
      var n := |events| - 1;
      OfKind(events[..n], isDir) + (if events[n].isDir == isDir then [events[n]] else [])
  }

  lemma {:induction false} OfKindFacts(events: seq<Event>)
    ensures forall i :: 0 <= i < |OfKind(events, true)| ==>
      OfKind(events, true)[i] in events && OfKind(events, true)[i].isDir
    ensures forall i :: 0 <= i < |OfKind(events, false)| ==>
      OfKind(events, false)[i] in events && !OfKind(events, false)[i].isDir
    ensures PathsOf(events) == PathsOf(OfKind(events, true)) + PathsOf(OfKind(events, false))
  {
    if events != [] {
      var n := |events| - 1;
      OfKindFacts(events[..n]);
      var e := events[n];
      assert events == events[..n] + [e];
      PathsJoin(events[..n], [e]);
      PathsJoin(OfKind(events[..n], true), [e]);
      PathsJoin(OfKind(events[..n], false), [e]);
      assert OfKind(events[..n], e.isDir) + [e] == OfKind(events, e.isDir);
      assert OfKind(events[..n], !e.isDir) + [] == OfKind(events[..n], !e.isDir) == OfKind(events, !e.isDir);
    }
  }

  // ---- ordering what was gathered ----

  predicate ByDepth(a: Event, b: Event) { |a.path| <= |b.path| }

  predicate ShorterPath(a: Path, b: Path) { |a| <= |b| }

  /** The first event of each path not seen before. */
  function Fresh(events: seq<Event>, seen: set<Path>): seq<Event> {
    if events == [] then []
    else
      var n := |events| - 1;
      Fresh(events[..n], seen) + (if events[n].path in seen + Seen(events[..n]) then [] else [events[n]])
  }

  function Seen(events: seq<Event>): set<Path> { set e | e in events :: e.path }

  lemma SeenPaths(events: seq<Event>)
    ensures Seen(events) == PathsOf(events)
  {
  }

  lemma FreshSnoc(rest: seq<Event>, e: Event, seen: set<Path>)
    ensures Fresh(rest + [e], seen) ==
      if e.path in seen + PathsOf(rest) then Fresh(rest, seen) else Fresh(rest, seen) + [e]
    ensures PathsOf(rest + [e]) == PathsOf(rest) + {e.path}
  {
    assert (rest + [e])[..|rest|] == rest;
    SeenPaths(rest);
    PathsJoin(rest, [e]);
    assert PathsOf([e]) == {e.path} by { assert [e][0].path == e.path; }
  }

  /** Dropping repeats keeps each path once. */
  lemma {:induction false} FreshPaths(events: seq<Event>, seen: set<Path>)
    ensures Apart(Fresh(events, seen)) && PathsOf(Fresh(events, seen)) == PathsOf(events) - seen
  {
    if events != [] {
      hide Fresh, PathsOf;
      var n := |events| - 1;
      var rest, e := events[..n], events[n];
      assert events == rest + [e];
      FreshPaths(rest, seen);
      FreshSnoc(rest, e, seen);
      AddPath(Fresh(rest, seen), e);
    } else {
      assert Fresh(events, seen) == [];
    }
  }

  lemma AddPath(events: seq<Event>, e: Event)
    ensures PathsOf(events + [e]) == PathsOf(events) + {e.path}
    ensures Apart(events) && e.path !in PathsOf(events) ==> Apart(events + [e])
  {
    FreshSnoc(events, e, {});
  }

  lemma {:induction false} FreshIn(events: seq<Event>, seen: set<Path>)
    ensures forall f :: f in Fresh(events, seen) ==> f in events
  {
    if events != [] {
      hide Seen;
      FreshIn(events[..|events| - 1], seen);
    }
  }

  /** It keeps the order. */
  lemma {:induction false} FreshOrder(events: seq<Event>, seen: set<Path>)
    requires Sorted(events, ByDepth)
    ensures Sorted(Fresh(events, seen), ByDepth)
  {
    if events != [] {
      hide Seen;
      var n := |events| - 1;
      FreshOrder(events[..n], seen);
      FreshIn(events[..n], seen);
      var k := Fresh(events[..n], seen);
      forall i | 0 <= i < |k| ensures ByDepth(k[i], events[n]) {
        assert k[i] in events[..n];
      }
    }
  }

  // ---- removals ----

  /** A removed path lies below another removed one. */
  predicate IsCovered(removed: set<Path>, p: Path) { exists n :: 0 <= n < |p| && p[..n] in removed }

  /** The removed paths that lie below no other, as events. */
  function Tops(s: Scope, order: seq<Path>, removed: set<Path>): seq<Event> {
    if order == [] then []
    else
      var n := |order| - 1;
      var ev := EventFor(s, order[n], false, Removed);
      Tops(s, order[..n], removed) + (if !IsCovered(removed, order[n]) && ev.Some? then [ev.value] else [])
  }

  lemma {:induction false} TopsFacts(s: Scope, order: seq<Path>, removed: set<Path>)
    requires AllDifferent(order)
    requires forall p :: p in order ==> Relative(s, p).Some?
    ensures Apart(Tops(s, order, removed))
    ensures forall p :: p in PathsOf(Tops(s, order, removed)) <==> p in order && !IsCovered(removed, p)
    ensures forall i :: 0 <= i < |Tops(s, order, removed)| ==> var e := Tops(s, order, removed)[i];
      e.kind == Removed && !e.isDir && Some(e) == EventFor(s, e.path, false, Removed)
  {
    hide Relative, IsCovered;
    if order != [] {
      var n := |order| - 1;
      var p := order[n];
      TopsFacts(s, order[..n], removed);
      assert order == order[..n] + [p];
      var before := Tops(s, order[..n], removed);
      var ev := EventFor(s, p, false, Removed).value;
      PathsJoin(before, [ev]);
      assert PathsOf([ev]) == {p} by { assert [ev][0].path == p; }
      assert before + [] == before;
      forall i | 0 <= i < |before| ensures before[i].path != p {
        assert before[i].path in PathsOf(before);
        assert before[i].path in order[..n];
      }
    }
  }

  /** Every removed path has a reported one at or above it. */
  lemma {:induction false} TopAbove(removed: set<Path>, p: Path) returns (n: nat)
    requires p in removed
    ensures n <= |p| && p[..n] in removed && !IsCovered(removed, p[..n])
    decreases |p|
  {
    if IsCovered(removed, p) {
      var m :| 0 <= m < |p| && p[..m] in removed;
      n := TopAbove(removed, p[..m]);
      assert p[..m][..n] == p[..n];
    } else {
      n := |p|;
      assert p[..n] == p;
    }
  }

  /** The removals form an antichain covering every vanished path. */
  ghost predicate Antichain(events: seq<Event>) {
    forall i, j :: 0 <= i < |events| && 0 <= j < |events| && i != j ==> !(events[i].path <= events[j].path)
  }

  lemma NotBelow(removed: set<Path>, a: Path, b: Path)
    requires a in removed && a != b && !IsCovered(removed, b)
    ensures !(a <= b)
  {
    if a <= b { PrefixIs(a, b); }
  }

  lemma TopsApart(s: Scope, order: seq<Path>, removed: set<Path>)
    requires AllDifferent(order)
    requires forall p :: p in order <==> p in removed
    requires forall p :: p in order ==> Relative(s, p).Some?
    ensures Antichain(Tops(s, order, removed))
    ensures forall p :: p in removed ==>
      exists i :: 0 <= i < |Tops(s, order, removed)| && Tops(s, order, removed)[i].path <= p
  {
    hide Relative, Tops;
    TopsFacts(s, order, removed);
    var tops := Tops(s, order, removed);
    forall i, j | 0 <= i < |tops| && 0 <= j < |tops| && i != j ensures !(tops[i].path <= tops[j].path) {
      var a, b := tops[i].path, tops[j].path;
      assert a in PathsOf(tops) && b in PathsOf(tops);
      NotBelow(removed, a, b);
    }
    forall p | p in removed ensures exists i :: 0 <= i < |tops| && tops[i].path <= p {
      var n := TopAbove(removed, p);
      assert p[..n] in PathsOf(tops);
      var i :| 0 <= i < |tops| && tops[i].path == p[..n];
    }
  }

  // ---- what happened to a path since it began to wait ----

  type Log = map<Path, seq<Hint>>

  /** A waiting path's hint sums up the events since it began to wait. */
  predicate SumsUp(h: Hint, events: seq<Hint>) {
    && (h.created <==> exists e :: e in events && e.created)
    && (h.gone <==> exists e :: e in events && e.gone)
    && (h.renamed <==> exists e :: e in events && e.renamed)
  }

  ghost predicate Logged(pending: map<Path, Pending>, log: Log) {
    forall p :: p in pending ==> p in log && SumsUp(pending[p].hint, log[p])
  }

  lemma OneMoreEvent(h: Hint, events: seq<Hint>, e: Hint, after: Hint)
    requires SumsUp(h, events)
    requires after == Hint(h.created || e.created, h.gone || e.gone, h.renamed || e.renamed)
    ensures SumsUp(after, events + [e])
  {
    assert forall x :: x in events + [e] <==> x in events || x == e;
  }

  /** A due folder that an event created, renamed or removed since it began to wait. */
  ghost predicate Appeared(m: Moment, log: Log, p: Path) {
    && p in m.pending && m.pending[p].nextCheck <= m.now && m.disk.stat(p).IsDir?
    && p in log && exists e :: e in log[p] && (e.created || e.renamed || e.gone)
  }

  /** A due file that is as it was when last looked at, or has waited for ten seconds. */
  predicate Quiet(m: Moment, p: Path) {
    && p in m.pending && m.pending[p].nextCheck <= m.now && m.disk.stat(p).IsFile?
    && (m.pending[p].lastSig == Some(m.disk.stat(p).sig) || m.now - m.pending[p].firstSeen >= 10_000)
  }

  /** A due path that is gone; not one created, never renamed, and not known before. */
  ghost predicate Lost(m: Moment, log: Log, p: Path) {
    && p in m.pending && m.pending[p].nextCheck <= m.now && m.disk.stat(p).Missing?
    && p in log && (p in m.known || (exists e :: e in log[p] && e.renamed) || forall e :: e in log[p] ==> !e.created)
  }

  /** What a poll makes of the events, the disk and the known paths: folders that appeared with
      everything below them, quiet files, and what was lost; nothing else is reported, and what
      is neither due nor quiet goes on waiting. */
  ghost predicate Tells(m: Moment, log: Log, dirs: seq<Event>, files: seq<Event>, removals: seq<Event>, cut: set<Path>,
      after: map<Path, Pending>)
  {
    var changed := PathsOf(dirs) + PathsOf(files);
    && (forall p :: Appeared(m, log, p) ==> p in PathsOf(dirs))
    && (forall p, q :: Appeared(m, log, p) && Reached(m.scope, m.disk, p, q) ==> q in changed || p in cut)
    && (forall p :: Quiet(m, p) ==> p in changed)
    && (forall q :: q in changed ==>
         Quiet(m, q) || Appeared(m, log, q) || exists p :: Appeared(m, log, p) && Reached(m.scope, m.disk, p, q))
    && (forall p :: Lost(m, log, p) ==> exists i :: 0 <= i < |removals| && removals[i].path <= p)
    && (forall i :: 0 <= i < |removals| ==> Lost(m, log, removals[i].path))
    && (forall p :: p in after <==>
         p in m.pending && (m.pending[p].nextCheck > m.now || (m.disk.stat(p).IsFile? && !Quiet(m, p))))
    && (forall p :: p in after && p in m.pending && m.pending[p].nextCheck > m.now ==> after[p] == m.pending[p])
    && (forall p :: p in after && p in m.pending && m.pending[p].nextCheck <= m.now && m.disk.stat(p).IsFile? ==>
         after[p] == m.pending[p].(lastSig := Some(m.disk.stat(p).sig), nextCheck := m.now + 300))
  }

  lemma ReportTells(m: Moment, log: Log, dirs: seq<Event>, files: seq<Event>, removals: seq<Event>, cut: set<Path>)
    requires Report(m, dirs, files, removals, cut) && Logged(m.pending, log)
    ensures Tells(m, log, dirs, files, removals, cut, StillPending(m, set p | p in m.pending && m.Due(p)))
  {
    hide Reached, Relative, Full, EventFor, SumsUp;
    forall p ensures m.Announced(p) <==> Appeared(m, log, p) { SameMeaning(m, log, p); }
    forall p ensures m.Settled(p) <==> Quiet(m, p) { SameMeaning(m, log, p); }
    forall p ensures m.Removal(p) <==> Lost(m, log, p) { SameMeaning(m, log, p); }
    hide Appeared, Quiet, Lost, PathsOf;
    forall q | q in PathsOf(dirs) + PathsOf(files)
      ensures Quiet(m, q) || Appeared(m, log, q) || exists p :: Appeared(m, log, p) && Reached(m.scope, m.disk, p, q)
    {
      var e := TheEvent(dirs, files, q);
      assert Justified(m, e);
    }
    StillWaiting(m);
  }

  lemma StillWaiting(m: Moment)
    ensures var after := StillPending(m, set p | p in m.pending && m.Due(p));
      && (forall p :: p in after <==>
           p in m.pending && (m.pending[p].nextCheck > m.now || (m.disk.stat(p).IsFile? && !m.Settled(p))))
      && (forall p :: p in after && p in m.pending && m.pending[p].nextCheck > m.now ==> after[p] == m.pending[p])
      && (forall p :: p in after && p in m.pending && m.pending[p].nextCheck <= m.now && m.disk.stat(p).IsFile? ==>
           after[p] == m.pending[p].(lastSig := Some(m.disk.stat(p).sig), nextCheck := m.now + 300))
  {
  }

  lemma TheEvent(dirs: seq<Event>, files: seq<Event>, q: Path) returns (e: Event)
    requires q in PathsOf(dirs) + PathsOf(files)
    ensures e.path == q && (e in dirs || e in files)
  {
    if q in PathsOf(dirs) {
      var i :| 0 <= i < |dirs| && dirs[i].path == q;
      e := dirs[i];
    } else {
      var i :| 0 <= i < |files| && files[i].path == q;
      e := files[i];
    }
  }

  /** What the hint and the constants say, said by the events themselves. */
  lemma SameMeaning(m: Moment, log: Log, p: Path)
    requires Logged(m.pending, log)
    ensures m.Announced(p) <==> Appeared(m, log, p)
    ensures m.Settled(p) <==> Quiet(m, p)
    ensures m.Removal(p) <==> Lost(m, log, p)
  {
  }

  // ---- the state machine ----

  ghost predicate Reported(m: Moment, e: Event) {
    m.Removal(e.path) && Some(e) == EventFor(m.scope, e.path, false, Removed)
  }

  /** What a poll reports: folders (parents first), then files, then removals. */
  ghost predicate Report(m: Moment, dirs: seq<Event>, files: seq<Event>, removals: seq<Event>, cut: set<Path>) {
    && Gathered(m, m.pending.Keys, dirs, files, cut)
    && Apart(dirs + files) && Sorted(dirs, ByDepth)
    && Antichain(removals)
    && (forall i :: 0 <= i < |removals| ==> Reported(m, removals[i]))
    && (forall p :: m.Removal(p) ==> exists i :: 0 <= i < |removals| && removals[i].path <= p)
  }

  /** Over one picture of the disk no path is reported twice. */
  lemma ReportedOnce(m: Moment, dirs: seq<Event>, files: seq<Event>, removals: seq<Event>, cut: set<Path>)
    requires Report(m, dirs, files, removals, cut) && Consistent(m.disk)
    ensures Apart(dirs + files + removals)
  {
    hide Reached;
    var changes := dirs + files;
    forall i, j | 0 <= i < |changes| && 0 <= j < |removals|
      ensures changes[i].path != removals[j].path
    {
      var e := changes[i];
      assert e == if i < |dirs| then dirs[i] else files[i - |dirs|];
      assert Justified(m, e);
      if d :| m.Announced(d) && Reached(m.scope, m.disk, d, e.path) {
        ThereIs(m, d, e.path);
      }
    }
    forall i, j | 0 <= i < j < |removals| ensures removals[i].path != removals[j].path {
      assert !(removals[i].path <= removals[j].path);
    }
  }

  lemma ThereIs(m: Moment, d: Path, p: Path)
    requires Consistent(m.disk) && Reached(m.scope, m.disk, d, p)
    ensures m.disk.stat(p) != Missing
  {
    var e :| e in m.disk.list(p[..|p| - 1]) && e.name == p[|p| - 1];
    assert p == p[..|p| - 1] + [e.name];
  }

  /** A path whose longest wait is over is no longer waiting after any poll, and a file among
      them is reported. */
  lemma OverdueIsReported(m: Moment, p: Path, dirs: seq<Event>, files: seq<Event>, removals: seq<Event>, cut: set<Path>)
    requires Report(m, dirs, files, removals, cut) && p in m.pending && InTime(m.pending[p])
    requires m.now >= m.pending[p].firstSeen + 10_300
    ensures p !in StillPending(m, set q | q in m.pending && m.Due(q))
    ensures m.disk.stat(p).IsFile? ==> p in PathsOf(dirs) + PathsOf(files)
  {
  }

  /** The known paths after some events; beyond the limit they are forgotten. */
  function Remembered(known: set<Path>, events: seq<Event>): set<Path> {
    if events == [] then known
    else
      var n := |events| - 1;
      var before, e := Remembered(known, events[..n]), events[n];
      if e.kind == Removed then before - {e.path}
      else (if |before| >= MAX_KNOWN_PATHS then {} else before) + {e.path}
  }

  /** The last event about a path, if any. */
  ghost function LastAbout(events: seq<Event>, p: Path): Option<Kind> {
    if events == [] then None
    else if events[|events| - 1].path == p then Some(events[|events| - 1].kind)
    else LastAbout(events[..|events| - 1], p)
  }

  /** As long as the limit is not reached, known is what was last reported as there. */
  lemma {:induction false} KnownAfter(known: set<Path>, events: seq<Event>, p: Path)
    requires |known| + |events| <= 200_000
    ensures p in Remembered(known, events) <==>
      if LastAbout(events, p).Some? then LastAbout(events, p) == Some(Changed) else p in known
    ensures |Remembered(known, events)| <= |known| + |events|
  {
    if events != [] {
      var n := |events| - 1;
      KnownAfter(known, events[..n], p);
      FewerKnown(Remembered(known, events[..n]), events[n].path);
    }
  }

  class Debouncer {
    const scope: Scope
    const debounce: nat
    var pending: map<Path, Pending>
    var known: set<Path>
    /** The events of each waiting path since it began to wait. */
    ghost var log: Log

    ghost predicate Valid() reads this {
      Fit(scope, pending) && |known| <= MAX_KNOWN_PATHS && Logged(pending, log)
    }

    constructor (scope: Scope, debounce: nat)
      ensures Valid() && pending == map[] && known == {} && this.scope == scope && this.debounce == debounce
    {
      this.scope, this.debounce, pending, known, log := scope, debounce, map[], {}, map[];
    }

    method Record(path: Path, hint: Hint, now: nat)
      requires Valid()
      modifies this`pending, this`log
      ensures Valid()
      ensures pending == if Wanted(scope, path)
        then old(pending)[path := Recorded(Lookup(old(pending), path), hint, now, debounce)]
        else old(pending)
      ensures log == if !Wanted(scope, path) then old(log)
        else old(log)[path := (if path in old(pending) then old(log)[path] else []) + [hint]]
      // Paths in scope and not ignored wait from their first event on, for ten seconds at most.
      ensures Wanted(scope, path) <==> exists rel :: InScope(scope, path, rel) && !scope.ignored(rel)
      ensures Wanted(scope, path) ==>
        && path in pending && pending[path].lastSig == None
        && pending[path].firstSeen == (if path in old(pending) then old(pending)[path].firstSeen else now)
        && pending[path].nextCheck <= now + debounce && pending[path].nextCheck <= pending[path].firstSeen + 10_000
        && pending[path].nextCheck in {now + debounce, pending[path].firstSeen + 10_000}
    {
      hide Relative, InScope, Fit, Logged, SumsUp;
      RelativeMeaning(scope, path);
      WaitsOn(scope, pending, log, path, hint, now, debounce);
      var rel := Relative(scope, path);
      if rel.None? { return; }
      if scope.ignored(rel.value) { return; }
      var entry :=
        if path in pending then pending[path] else Pending(now, Hint(false, false, false), None, now + debounce);
      var h := entry.hint;
      entry := entry.(nextCheck := Min(now + debounce, entry.firstSeen + MAX_PENDING), lastSig := None,
        hint := Hint(h.created || hint.created, h.gone || hint.gone, h.renamed || hint.renamed));
      log := log[path := (if path in pending then log[path] else []) + [hint]];
      pending := pending[path := entry];
    }

    method Remember(events: seq<Event>)
      requires |known| <= MAX_KNOWN_PATHS
      modifies this`known
      ensures known == Remembered(old(known), events) && |known| <= MAX_KNOWN_PATHS
    {
      for i := 0 to |events|
        invariant known == Remembered(old(known), events[..i]) && |known| <= MAX_KNOWN_PATHS
      {
        assert events[..i + 1][..i] == events[..i];
        var e := events[i];
        if e.kind == Removed {
          FewerKnown(known, e.path);
          known := known - {e.path};
        } else {
          if |known| >= MAX_KNOWN_PATHS { known := {}; }
          known := known + {e.path};
        }
      }
      assert events[..|events|] == events;
    }

    method Poll(disk: Snapshot, now: nat)
      returns (out: seq<Event>, ghost dirs: seq<Event>, ghost files: seq<Event>, ghost removals: seq<Event>,
        ghost cut: set<Path>)
      requires Valid()
      modifies this
      ensures Valid()
      ensures var m := Moment(scope, old(pending), old(known), disk, now);
        && out == dirs + files + removals && Report(m, dirs, files, removals, cut)
        && pending == StillPending(m, set p | p in old(pending) && m.Due(p))
      ensures Tells(Moment(scope, old(pending), old(known), disk, now), old(log), dirs, files, removals, cut, pending)
      ensures known == Remembered(old(known), out) && log == old(log)
    {
      hide Reached, Gathered, Vanishing, Justified, Fit, StillPending, Relative, Report, Remembered, Tells, Logged;
      ghost var m := Moment(scope, pending, known, disk, now);
      var ds, fs, removed;
      ds, fs, removed, cut := CheckDue(disk, now);
      ByDepthOrder();
      SortByIsSorted(ds, ByDepth);
      var sorted := SortBy(ds, ByDepth);
      var d := Fresh(sorted, {});
      var f := Fresh(fs, Seen(sorted));
      var order := SortBy(removed, ShorterPath);
      var r := Tops(scope, order, set p | p in removed);
      dirs, files, removals := d, f, r;
      Ordered(m, ds, sorted, fs, removed, order, cut);
      out := d + f + r;
      ReportTells(m, log, d, f, r, cut);
      StillLogged(m, log, set p | p in m.pending && m.Due(p));
      Remember(out);
    }

    /** Looks at every due path. */
    method CheckDue(disk: Snapshot, now: nat)
      returns (dirs: seq<Event>, files: seq<Event>, removed: seq<Path>, ghost cut: set<Path>)
      requires Valid()
      modifies this`pending
      ensures Fit(scope, pending)
      ensures forall p :: p in old(pending) ==> Wanted(scope, p)
      ensures var m := Moment(scope, old(pending), known, disk, now);
        && Gathered(m, m.pending.Keys, dirs, files, cut) && Vanishing(m, m.pending.Keys, removed)
        && pending == StillPending(m, set p | p in old(pending) && m.Due(p))
    {
      hide Reached, Gathered, Vanishing, Justified, Fit, StillPending, Relative, PathsOf, Full, Rechecked, Logged;
      ghost var m := Moment(scope, pending, known, disk, now);
      var due := set p | p in pending && pending[p].nextCheck <= now;
      ghost var all := due;
      ghost var done: set<Path> := {};
      dirs, files, removed, cut := [], [], [], {};
      AtStart(m);
      AllWanted(scope, pending);
      while due != {}
        invariant due <= all && done == all - due
        invariant Gathered(m, done, dirs, files, cut) && Vanishing(m, done, removed)
        invariant pending == StillPending(m, done)
        decreases |due|
      {
        var path :| path in due;
        StillThere(m, done, path);
        due := due - {path};
        var ds, fs, gone, wasCut, after := CheckPath(m, disk, now, path);
        PendingStep(m, done, path, after);
        if after.None? { pending := pending - {path}; } else { pending := pending[path := after.value]; }
        GatherMore(m, done, path, dirs, files, cut, ds, fs, wasCut);
        VanishMore(m, done, path, removed);
        dirs, files := dirs + ds, files + fs;
        if gone { removed := removed + [path]; }
        if wasCut { cut := cut + {path}; }
        done := done + {path};
      }
      AtEnd(m, dirs, files, removed, cut, done);
      FitStays(m, done);
    }

    /** One due path: the events it gives, whether it vanished, and whether it keeps waiting. */
    method CheckPath(ghost m: Moment, disk: Snapshot, now: nat, path: Path)
      returns (dirs: seq<Event>, files: seq<Event>, gone: bool, wasCut: bool, after: Option<Pending>)
      requires m.disk == disk && m.now == now && m.scope == scope && m.known == known && m.Due(path)
      requires path in pending && pending[path] == m.pending[path] && Wanted(scope, path)
      ensures forall i :: 0 <= i < |dirs| ==> Justified(m, dirs[i]) && dirs[i].isDir
      ensures forall i :: 0 <= i < |files| ==> Justified(m, files[i]) && !files[i].isDir
      ensures m.Announced(path) ==> path in PathsOf(dirs)
      ensures m.Settled(path) ==> path in PathsOf(files)
      ensures m.Announced(path) && !wasCut ==>
        forall q :: Reached(m.scope, m.disk, path, q) ==> q in PathsOf(dirs) + PathsOf(files)
      ensures wasCut ==> m.Announced(path) && Full(m, path, PathsOf(dirs) + PathsOf(files))
      ensures gone == m.Removal(path)
      ensures after ==
        if m.Waits(path) then Some(Rechecked(m.pending[path], disk.stat(path).sig, now)) else None
    {
      hide Reached, Relative;
      dirs, files, gone, wasCut, after := [], [], false, false, None;
      var p := pending[path];
      match disk.stat(path)
      case Dangling =>
      case Failing =>
      case IsDir =>
        if p.hint.created || p.hint.renamed || p.hint.gone {
          var ev := EventFor(scope, path, true, Changed);
          var children;
          children, wasCut := WalkNewDir(scope, disk, path);
          OfKindFacts(children);
          PathsJoin([ev.value], OfKind(children, true));
          assert [ev.value][0].path == path;
          dirs := [ev.value] + OfKind(children, true);
          files := OfKind(children, false);
        }
      case IsFile(sig) =>
        var overdue := SatSub(now, p.firstSeen) >= MAX_PENDING;
        if p.lastSig == Some(sig) || overdue {
          var ev := EventFor(scope, path, false, Changed);
          files := [ev.value];
          assert files[0].path == path;
        } else {
          after := Some(p.(lastSig := Some(sig), nextCheck := now + STABILITY_RECHECK));
        }
      case Missing =>
        gone := !(p.hint.created && !p.hint.renamed && path !in known);
    }

    /** The earliest time a waiting path is looked at. */
    method NextDeadline() returns (r: Option<nat>)
      ensures r.None? <==> pending == map[]
      ensures r.Some? ==> exists p :: p in pending && pending[p].nextCheck == r.value
      ensures r.Some? ==> forall p :: p in pending ==> r.value <= pending[p].nextCheck
    {
      r := None;
      var rest := pending.Keys;
      while rest != {}
        invariant rest <= pending.Keys && (r.None? <==> rest == pending.Keys)
        invariant r.Some? ==> exists p :: p in pending && pending[p].nextCheck == r.value
        invariant r.Some? ==> forall p :: p in pending && p !in rest ==> r.value <= pending[p].nextCheck
        decreases |rest|
      {
        var p :| p in rest;
        rest := rest - {p};
        if r.None? || pending[p].nextCheck < r.value { r := Some(pending[p].nextCheck); }
      }
    }
  }

  lemma WaitsOn(s: Scope, pending: map<Path, Pending>, log: Log, path: Path, hint: Hint, now: nat, debounce: nat)
    requires Fit(s, pending) && Logged(pending, log)
    ensures path in pending ==> path in log
    ensures Wanted(s, path) ==>
      var events := if path in pending then log[path] else [];
      && Fit(s, pending[path := Recorded(Lookup(pending, path), hint, now, debounce)])
      && Logged(pending[path := Recorded(Lookup(pending, path), hint, now, debounce)], log[path := events + [hint]])
  {
    hide Relative, SumsUp;
    var events := if path in pending then log[path] else [];
    var h := if path in pending then pending[path].hint else Hint(false, false, false);
    assert SumsUp(Hint(false, false, false), []) by { NoEvents(); }
    OneMoreEvent(h, events, hint, Hint(h.created || hint.created, h.gone || hint.gone, h.renamed || hint.renamed));
  }

  lemma NoEvents()
    ensures SumsUp(Hint(false, false, false), [])
  {
  }

  lemma StillLogged(m: Moment, log: Log, done: set<Path>)
    requires Logged(m.pending, log)
    ensures Logged(StillPending(m, done), log)
  {
  }

  function Lookup(m: map<Path, Pending>, p: Path): Option<Pending> { if p in m then Some(m[p]) else None }

  lemma FewerKnown(known: set<Path>, p: Path)
    ensures |known - {p}| <= |known|
  {
  }

  lemma ByDepthOrder()
    ensures TotalOrder(ByDepth)
  {
  }

  lemma AtStart(m: Moment)
    ensures Gathered(m, {}, [], [], {}) && Vanishing(m, {}, []) && StillPending(m, {}) == m.pending
  {
  }

  lemma PendingStep(m: Moment, done: set<Path>, p: Path, after: Option<Pending>)
    requires done <= m.pending.Keys && m.Due(p) && p !in done
    requires after == if m.Waits(p) then Some(Rechecked(m.pending[p], m.disk.stat(p).sig, m.now)) else None
    ensures StillPending(m, done + {p}) ==
      if after.None? then StillPending(m, done) - {p} else StillPending(m, done)[p := after.value]
  {
  }

  lemma StillThere(m: Moment, done: set<Path>, p: Path)
    requires done <= m.pending.Keys && p in m.pending && p !in done && Fit(m.scope, m.pending)
    ensures p in StillPending(m, done) && StillPending(m, done)[p] == m.pending[p] && Wanted(m.scope, p)
  {
  }

  lemma AllWanted(s: Scope, pending: map<Path, Pending>)
    requires Fit(s, pending)
    ensures forall p :: p in pending ==> Wanted(s, p)
  {
  }

  lemma VanishMore(m: Moment, done: set<Path>, p: Path, removed: seq<Path>)
    requires Vanishing(m, done, removed) && p !in done
    ensures Vanishing(m, done + {p}, if m.Removal(p) then removed + [p] else removed)
  {
  }

  lemma AtEnd(m: Moment, dirs: seq<Event>, files: seq<Event>, removed: seq<Path>, cut: set<Path>, done: set<Path>)
    requires Gathered(m, done, dirs, files, cut) && Vanishing(m, done, removed)
    requires done == set p | p in m.pending && m.Due(p)
    ensures Gathered(m, m.pending.Keys, dirs, files, cut) && Vanishing(m, m.pending.Keys, removed)
  {
  }

  lemma FitStays(m: Moment, done: set<Path>)
    requires Fit(m.scope, m.pending) && done <= m.pending.Keys
    ensures Fit(m.scope, StillPending(m, done))
  {
  }

  /** Sorting and dropping repeats make a report of what was gathered. */
  lemma Ordered(m: Moment, dirs: seq<Event>, sorted: seq<Event>, files: seq<Event>, removed: seq<Path>,
      order: seq<Path>, cut: set<Path>)
    requires Gathered(m, m.pending.Keys, dirs, files, cut) && Vanishing(m, m.pending.Keys, removed)
    requires multiset(sorted) == multiset(dirs) && Sorted(sorted, ByDepth) && multiset(order) == multiset(removed)
    requires forall p :: p in m.pending ==> Wanted(m.scope, p)
    ensures Report(m, Fresh(sorted, {}), Fresh(files, Seen(sorted)), Tops(m.scope, order, set p | p in removed), cut)
  {
    hide Reached, Gathered, Vanishing, Fresh, Tops, Relative, Wanted;
    SamePaths(dirs, sorted);
    FreshPaths(sorted, {});
    FreshPaths(files, Seen(sorted));
    FreshOrder(sorted, {});
    FreshIn(sorted, {});
    FreshIn(files, Seen(sorted));
    SeenPaths(sorted);
    var d, f := Fresh(sorted, {}), Fresh(files, Seen(sorted));
    SameGathered(m, dirs, files, d, f, cut);
    ApartJoin(d, f);
    RemovalsReported(m, removed, order);
  }

  lemma ApartJoin(a: seq<Event>, b: seq<Event>)
    requires Apart(a) && Apart(b) && PathsOf(a) !! PathsOf(b)
    ensures Apart(a + b)
  {
    forall i, j | 0 <= i < j < |a + b| ensures (a + b)[i].path != (a + b)[j].path {
      if i < |a| && j >= |a| {
        assert a[i].path in PathsOf(a) && b[j - |a|].path in PathsOf(b);
      }
    }
  }

  lemma RemovalsReported(m: Moment, removed: seq<Path>, order: seq<Path>)
    requires Vanishing(m, m.pending.Keys, removed) && multiset(order) == multiset(removed)
    requires forall p :: p in m.pending ==> Wanted(m.scope, p)
    ensures var r := Tops(m.scope, order, set p | p in removed);
      && Antichain(r) && (forall i :: 0 <= i < |r| ==> Reported(m, r[i]))
      && (forall p :: m.Removal(p) ==> exists i :: 0 <= i < |r| && r[i].path <= p)
  {
    hide Tops, Relative;
    Permuted(removed, order);
    var paths := set p | p in removed;
    TopsApart(m.scope, order, paths);
    TopsFacts(m.scope, order, paths);
    var r := Tops(m.scope, order, paths);
    forall i | 0 <= i < |r| ensures Reported(m, r[i]) {
      assert r[i].path in PathsOf(r);
    }
  }

  lemma SamePaths(a: seq<Event>, b: seq<Event>)
    requires multiset(a) == multiset(b)
    ensures PathsOf(a) == PathsOf(b) && forall e :: e in a <==> e in b
  {
    Permuted(a, b);
    forall p ensures p in PathsOf(a) <==> p in PathsOf(b) {
      if i :| 0 <= i < |a| && a[i].path == p { assert a[i] in b; }
      if i :| 0 <= i < |b| && b[i].path == p { assert b[i] in a; }
    }
  }

  lemma SameGathered(m: Moment, dirs: seq<Event>, files: seq<Event>, d: seq<Event>, f: seq<Event>, cut: set<Path>)
    requires Gathered(m, m.pending.Keys, dirs, files, cut)
    requires PathsOf(d) == PathsOf(dirs) && PathsOf(f) == PathsOf(files) - PathsOf(dirs)
    requires forall i :: 0 <= i < |d| ==> d[i] in dirs
    requires forall i :: 0 <= i < |f| ==> f[i] in files
    ensures Gathered(m, m.pending.Keys, d, f, cut)
  {
  }
}
