/** Deciding what to do with each file of two folder trees, and why carrying a plan out
    leaves nothing more to do. */
module SyncPlan {
  import opened Common

  datatype Direction = LocalToRemote | RemoteToLocal | Both

  datatype Action = Upload | Download | DeleteRemote | DeleteLocal | Identical | Conflict

  datatype Options = Options(direction: Direction, mirrorDelete: bool, sizeOnly: bool, recursive: bool,
                             maxDepth: Option<nat>, mtimesPreserved: bool)

  const DEFAULT_MAX_DEPTH: nat := 32
  const TOLERANCE_SECS: int := 2
  const NANOS: int := 1_000_000_000

  function DepthOf(o: Options): nat { if o.recursive then Or(o.maxDepth, DEFAULT_MAX_DEPTH) else 0 }

  // ---- trees ----

  /** A listed file: its size, its modification time in nanoseconds, and its bytes. */
  datatype FileInfo = FileInfo(size: nat, mtime: Option<int>, content: bytes)

  /** A folder as listed: a name may be both a file and a folder (object stores allow it). */
  datatype Folder = Unreadable | Folder(files: map<string, FileInfo>, dirs: map<string, Folder>)

  type Path = seq<string>

  function Files(f: Option<Folder>): map<string, FileInfo> {
    if f.Some? && f.value.Folder? then f.value.files else map[]
  }

  function Dirs(f: Option<Folder>): map<string, Folder> { if f.Some? && f.value.Folder? then f.value.dirs else map[] }

  predicate IsDots(name: string) { name == "." || name == ".." }

  function Lookup<T>(m: map<string, T>, name: string): Option<T> { if name in m then Some(m[name]) else None }

  function Sub(f: Option<Folder>, name: string): Option<Folder> { if IsDots(name) then None else Lookup(Dirs(f), name) }

  function FolderAt(root: Option<Folder>, d: Path): Option<Folder> {
    if d == [] then root else Sub(FolderAt(root, d[..|d| - 1]), d[|d| - 1])
  }

  function FileAt(root: Option<Folder>, p: Path): Option<FileInfo> {
    if p == [] then None else Lookup(Files(FolderAt(root, p[..|p| - 1])), p[|p| - 1])
  }

  /** Every folder down to a depth can be listed. */
  ghost predicate Readable(root: Option<Folder>, depth: nat) {
    forall d: Path :: |d| <= depth ==> FolderAt(root, d) != Some(Unreadable)
  }

  lemma {:induction false} FolderAtFront(root: Option<Folder>, d: Path)
    requires d != []
    ensures FolderAt(root, d) == FolderAt(Sub(root, d[0]), d[1..])
  {
    var n := |d| - 1;
    if n > 0 {
      FolderAtFront(root, d[..n]);
      assert d[..n][1..] == d[1..][..n - 1];
    } else {
      assert d[..n] == [];
    }
  }

  /** A folder below another exists only if that one does. */
  lemma {:induction false} FolderAbove(root: Option<Folder>, d: Path, n: nat)
    requires FolderAt(root, d).Some? && n < |d|
    ensures FolderAt(root, d[..n]).Some? && Sub(FolderAt(root, d[..n]), d[n]) == FolderAt(root, d[..n + 1])
    ensures FolderAt(root, d[..n]).value.Folder? && d[n] in FolderAt(root, d[..n]).value.dirs
    ensures d[n] != "." && d[n] != ".." && FolderAt(root, d[..n + 1]).Some?
  {
    var m := |d| - 1;
    if n < m {
      FolderAbove(root, d[..m], n);
      assert d[..m][..n] == d[..n] && d[..m][..n + 1] == d[..n + 1];
    } else {
      assert d[..n + 1] == d;
    }
    assert d[..n + 1][..n] == d[..n];
  }

  /** A folder exists exactly where each name of its path is that of a subfolder, and neither of
      the two that stand for the folder itself and the one above. */
  lemma {:induction false} FolderExists(root: Folder, d: Path)
    ensures FolderAt(Some(root), d).Some? <==> forall n :: 0 <= n < |d| ==>
      d[n] != "." && d[n] != ".." && d[n] in Dirs(FolderAt(Some(root), d[..n]))
  {
    if FolderAt(Some(root), d).Some? {
      forall n | 0 <= n < |d| ensures d[n] != "." && d[n] != ".." && d[n] in Dirs(FolderAt(Some(root), d[..n])) {
        FolderAbove(Some(root), d, n);
      }
    }
  }

  // ---- decisions ----

  datatype Newer = NewerLocal | NewerRemote | Same | Unknown

  /** Integer division rounding towards zero, as `num_seconds` does. */
  function Trunc(a: int, b: int): int
    requires b > 0
  {
    if a >= 0 then a / b else -((-a) / b)
  }

  function NewerSide(l: Option<int>, r: Option<int>): Newer {
    if l.None? || r.None? then Unknown
    else
      var diff := Trunc(l.value - r.value, NANOS);
      if diff > TOLERANCE_SECS then NewerLocal
      else if diff < -TOLERANCE_SECS then NewerRemote
      else Same
  }

  datatype Decision = Do(action: Action) | CompareContent(ifDiffers: Action, ifUnverified: Action)

  function Provisional(d: Decision): Action { if d.Do? then d.action else d.ifUnverified }

  function PlanBothPresent(l: FileInfo, r: FileInfo, o: Options): Decision {
    var sameSize := l.size == r.size;
    var newer := NewerSide(l.mtime, r.mtime);
    if o.sizeOnly then
      if sameSize then Do(Identical)
      else
        match o.direction
        case LocalToRemote => Do(Upload)
        case RemoteToLocal => Do(Download)
        case Both => Do(if newer.NewerLocal? then Upload else if newer.NewerRemote? then Download else Conflict)
    else
      match o.direction
      case LocalToRemote =>
        if sameSize then Do(if newer.NewerLocal? then Upload else Identical)
        else Do(if newer.NewerRemote? then Conflict else Upload)
      case RemoteToLocal =>
        if sameSize then Do(if newer.NewerRemote? then Download else Identical)
        else Do(if newer.NewerLocal? then Conflict else Download)
      case Both =>
        if sameSize then
          if newer.NewerLocal? then if o.mtimesPreserved then Do(Upload) else CompareContent(Upload, Upload)
          else if newer.NewerRemote? then if o.mtimesPreserved then Do(Download) else CompareContent(Download, Conflict)
          else Do(Identical)
        else Do(if newer.NewerLocal? then Upload else if newer.NewerRemote? then Download else Conflict)
  }

  /** What is planned for one path, from what each side holds there. */
  function Decide(o: Options, l: Option<FileInfo>, r: Option<FileInfo>): Option<Decision> {
    match (l, r)
    case (Some(_), None) =>
      if o.direction != RemoteToLocal then Some(Do(Upload))
      else if o.mirrorDelete then Some(Do(DeleteLocal))
      else None
    case (None, Some(_)) =>
      if o.direction != LocalToRemote then Some(Do(Download))
      else if o.mirrorDelete then Some(Do(DeleteRemote))
      else None
    case (Some(a), Some(b)) => Some(PlanBothPresent(a, b, o))
    case (None, None) => None
  }

  /** The listed number of bytes is the same on both sides. */
  predicate SameBytes(l: FileInfo, r: FileInfo) {
    l.content[..Min(l.size, |l.content|)] == r.content[..Min(l.size, |r.content|)]
  }

  /** The action of an item whose content check, if it needs one, was completed. */
  function Settled(o: Options, l: Option<FileInfo>, r: Option<FileInfo>): Option<Action> {
    match Decide(o, l, r)
    case None => None
    case Some(Do(a)) => Some(a)
    case Some(CompareContent(d, _)) => Some(if SameBytes(l.value, r.value) then Identical else d)
  }

  // ---- plans ----

  datatype Item = Item(path: Path, action: Action, localSize: Option<nat>, remoteSize: Option<nat>,
                       localModified: Option<int>, remoteModified: Option<int>)

  function SizeOf(f: Option<FileInfo>): Option<nat> { if f.Some? then Some(f.value.size) else None }

  function TimeOf(f: Option<FileInfo>): Option<int> { if f.Some? then f.value.mtime else None }

  function ItemOf(p: Path, a: Action, l: Option<FileInfo>, r: Option<FileInfo>): Item {
    Item(p, a, SizeOf(l), SizeOf(r), TimeOf(l), TimeOf(r))
  }

  /** The first time is later by more than two whole seconds, both being known. */
  predicate Later(a: Option<int>, b: Option<int>) { a.Some? && b.Some? && a.value - b.value >= 3_000_000_000 }

  lemma NewerMeaning(l: Option<int>, r: Option<int>)
    ensures NewerSide(l, r).NewerLocal? <==> Later(l, r)
    ensures NewerSide(l, r).NewerRemote? <==> Later(r, l)
  {
  }

  /** Only the bytes tell whether one of two copies was edited or merely transferred later. */
  predicate NeedsContents(o: Options, i: Item) {
    && i.localSize.Some? && i.localSize == i.remoteSize
    && o.direction.Both? && !o.sizeOnly && !o.mtimesPreserved
    && (Later(i.localModified, i.remoteModified) || Later(i.remoteModified, i.localModified))
  }

  /** A copy replaces the other side's: in both directions, and between copies of one size, only
      where it is later; in one direction any other size will do, unless the copy to be replaced
      is later. Size-only comparison leaves copies of one size alone, and asks for times only in
      both directions. */
  predicate Replaces(o: Options, sameSize: bool, later: bool, earlier: bool) {
    if sameSize && o.sizeOnly then false
    else if sameSize || o.direction.Both? then later
    else o.sizeOnly || !earlier
  }

  /** When an item has which action, by the sizes and times it lists. Files vanish only when
      mirroring and only where the other side has none; the user is asked where sizes differ and
      neither copy replaces the other. Where only the bytes tell, the later copy may replace the
      other, and an unread remote copy is a conflict. */
  predicate Respects(o: Options, i: Item) {
    var l, r, sameSize := i.localSize.Some?, i.remoteSize.Some?, i.localSize == i.remoteSize;
    var lLater, rLater := Later(i.localModified, i.remoteModified), Later(i.remoteModified, i.localModified);
    if NeedsContents(o, i) then
      i.action == Identical || (if lLater then i.action == Upload else i.action == Download || i.action == Conflict)
    else
      && (i.action == Upload <==> l && !o.direction.RemoteToLocal? && (r ==> Replaces(o, sameSize, lLater, rLater)))
      && (i.action == Download <==> r && !o.direction.LocalToRemote? && (l ==> Replaces(o, sameSize, rLater, lLater)))
      && (i.action == DeleteRemote <==> !l && r && o.direction.LocalToRemote? && o.mirrorDelete)
      && (i.action == DeleteLocal <==> l && !r && o.direction.RemoteToLocal? && o.mirrorDelete)
      && (i.action == Identical <==> l && sameSize && i.action != Upload && i.action != Download)
      && (i.action == Conflict <==> l && r && !sameSize && i.action != Upload && i.action != Download)
  }

  /** No copy later by more than two whole seconds is overwritten, outside size-only comparison;
      in both directions a copy is overwritten only by a later one, both times being known. */
  predicate KeepsLater(o: Options, i: Item) {
    var l, r := i.localModified, i.remoteModified;
    i.localSize.Some? && i.remoteSize.Some? ==>
      && (i.action == Upload && !o.sizeOnly && l.Some? && r.Some? ==> r.value - l.value < 3_000_000_000)
      && (i.action == Download && !o.sizeOnly && l.Some? && r.Some? ==> l.value - r.value < 3_000_000_000)
      && (i.action == Upload && o.direction.Both? ==> l.Some? && r.Some? && l.value - r.value >= 3_000_000_000)
      && (i.action == Download && o.direction.Both? ==> l.Some? && r.Some? && r.value - l.value >= 3_000_000_000)
  }

  /** A path that no item is about: no file on either side, or one that only the receiving side
      has, which is left there. */
  predicate LeftAlone(o: Options, l: Option<FileInfo>, r: Option<FileInfo>) {
    || (l.None? && r.None?)
    || (!o.mirrorDelete && o.direction.RemoteToLocal? && r.None?)
    || (!o.mirrorDelete && o.direction.LocalToRemote? && l.None?)
  }

  /** `relative_path`: the names joined by slashes. */
  function Joined(p: Path): string {
    if p == [] then "" else if |p| == 1 then p[0] else Joined(p[..|p| - 1]) + "/" + p[|p| - 1]
  }

  /** Paths of proper file names are told apart by their text. */
  lemma {:induction false} JoinedInjective(p: Path, q: Path)
    requires p != [] && q != [] && Joined(p) == Joined(q)
    requires forall name :: name in p || name in q ==> '/' !in name
    ensures p == q
    decreases |p|
  {
    var m, n := |p| - 1, |q| - 1;
    assert p[m] in p && q[n] in q;
    var s := Joined(p);
    assert s[|s| - |p[m]|..] == p[m] && s[|s| - |q[n]|..] == q[n];
    assert m > 0 ==> s[|s| - |p[m]| - 1] == '/';
    assert n > 0 ==> s[|s| - |q[n]| - 1] == '/';
    assert p[m] == q[n];
    if m > 0 && n > 0 {
      assert Joined(p[..m]) == s[..|s| - |p[m]| - 1] == Joined(q[..n]);
      assert forall name :: name in p[..m] || name in q[..n] ==> name in p || name in q;
      JoinedInjective(p[..m], q[..n]);
    }
    assert p == p[..m] + [p[m]] && q == q[..n] + [q[n]];
  }

  /** Everything a plan is about. */
  datatype World = World(o: Options, local: Folder, remote: Folder)
  {
    function L(p: Path): Option<FileInfo> { FileAt(Some(local), p) }
    function R(p: Path): Option<FileInfo> { FileAt(Some(remote), p) }
    function Planned(p: Path): Option<Decision> { Decide(o, L(p), R(p)) }
    function Outcome(p: Path): Option<Action> { Settled(o, L(p), R(p)) }
  }

  /** Folders this many levels below the roots are compared. */
  predicate Reaches(o: Options, level: nat) {
    level == 0 || (o.recursive && level <= if o.maxDepth.Some? then o.maxDepth.value else 32)
  }

  /** Paths of files in folders that are compared. */
  predicate InDepth(w: World, p: Path) { p != [] && Reaches(w.o, |p| - 1) }

  ghost predicate Distinct(plan: seq<Item>) {
    forall i, j :: 0 <= i < j < |plan| ==> plan[i].path != plan[j].path
  }

  ghost function Paths(plan: seq<Item>): set<Path> { set i | 0 <= i < |plan| :: plan[i].path }

  /** A plan lists each path that calls for an action exactly once, and no other. */
  ghost predicate Complete(w: World, plan: seq<Item>) {
    && Distinct(plan)
    && forall p: Path :: InDepth(w, p) ==> (p in Paths(plan) <==> w.Planned(p).Some?)
  }

  /** Every item says what its own path calls for, all contents having been compared. */
  ghost predicate Verified(w: World, plan: seq<Item>) {
    forall i :: 0 <= i < |plan| ==>
      InDepth(w, plan[i].path) && w.Outcome(plan[i].path).Some?
      && plan[i] == ItemOf(plan[i].path, w.Outcome(plan[i].path).value, w.L(plan[i].path), w.R(plan[i].path))
  }

  /** The listed sizes are true. */
  ghost predicate TrueSizes(root: Folder) {
    forall p: Path :: FileAt(Some(root), p).Some? ==>
      FileAt(Some(root), p).value.size == |FileAt(Some(root), p).value.content|
  }

  // ---- carrying a plan out ----

  /** What a path holds after a transfer: the source's bytes, with any modification time. */
  predicate CopyOf(copy: Option<FileInfo>, source: Option<FileInfo>) {
    source.Some? && copy.Some? && copy.value.size == source.value.size && copy.value.content == source.value.content
  }

  /** One item carried out at its path: a transfer of an upload or download, else nothing. */
  predicate CarriedAt(a: Option<Action>, l: Option<FileInfo>, r: Option<FileInfo>, l2: Option<FileInfo>,
      r2: Option<FileInfo>)
  {
    match a
    case Some(Upload) => l2 == l && CopyOf(r2, l)
    case Some(Download) => CopyOf(l2, r) && r2 == r
    case _ => l2 == l && r2 == r
  }

  /** The heart of convergence: after its item is carried out, a path asks for nothing, or for
      the same decision by the user as before. */
  lemma CarriedSettles(o: Options, l: Option<FileInfo>, r: Option<FileInfo>, l2: Option<FileInfo>,
      r2: Option<FileInfo>)
    requires o.direction.Both? && !o.sizeOnly && !o.mtimesPreserved
    requires CarriedAt(Settled(o, l, r), l, r, l2, r2)
    ensures Settled(o, l, r) == None ==> Settled(o, l2, r2) == None
    ensures Settled(o, l, r) == Some(Conflict) ==> Settled(o, l2, r2) == Some(Conflict)
    ensures Settled(o, l, r).Some? && Settled(o, l, r) != Some(Conflict) ==> Settled(o, l2, r2) == Some(Identical)
  {
  }

  /** A later plan with the same paths, the same conflicts, and otherwise only identical files. */
  ghost predicate Quiet(plan: seq<Item>, second: seq<Item>) {
    && Paths(second) == Paths(plan)
    && (forall i :: 0 <= i < |second| ==> second[i].action in {Identical, Conflict})
    && (forall i, j :: 0 <= i < |second| && 0 <= j < |plan| && second[i].path == plan[j].path ==>
      (second[i].action == Conflict <==> plan[j].action == Conflict)
      && (second[i].action == Conflict ==> second[i] == plan[j]))
  }

  /** Convergence: after every upload and download of a plan is done, a second plan holds the
      same paths, with the same conflicts and otherwise nothing but identical files. */
  lemma Converges(w: World, plan: seq<Item>, after: World, second: seq<Item>)
    requires w.o.direction.Both? && !w.o.sizeOnly && !w.o.mtimesPreserved && after.o == w.o
    requires Complete(w, plan) && Verified(w, plan) && Complete(after, second) && Verified(after, second)
    requires forall p: Path :: InDepth(w, p) ==> CarriedAt(w.Outcome(p), w.L(p), w.R(p), after.L(p), after.R(p))
    ensures Quiet(plan, second)
  {
    forall p: Path | InDepth(w, p)
      ensures w.Planned(p).Some? <==> after.Planned(p).Some?
      ensures w.Outcome(p).Some? && w.Outcome(p) != Some(Conflict) ==> after.Outcome(p) == Some(Identical)
      ensures w.Outcome(p) == Some(Conflict) ==>
        after.Outcome(p) == Some(Conflict) && after.L(p) == w.L(p) && after.R(p) == w.R(p)
    {
      CarriedSettles(w.o, w.L(p), w.R(p), after.L(p), after.R(p));
    }
    forall i | 0 <= i < |second|
      ensures second[i].path in Paths(plan) && second[i].action in {Identical, Conflict}
    {
      assert InDepth(w, second[i].path) && second[i].path in Paths(second);
    }
    forall j | 0 <= j < |plan|
      ensures plan[j].path in Paths(second)
    {
      assert InDepth(w, plan[j].path) && plan[j].path in Paths(plan);
    }
    assert Paths(second) <= Paths(plan) <= Paths(second);
  }

  /** Writing a file into a tree, creating the folders on the way. */
  function Put(f: Option<Folder>, p: Path, file: FileInfo): Folder
    requires p != []
    decreases |p|
  {
    var files, dirs := Files(f), Dirs(f);
    if |p| == 1 then Folder(files[p[0] := file], dirs)
    else Folder(files, dirs[p[0] := Put(Sub(f, p[0]), p[1..], file)])
  }

  /** Only the one path changes. */
  lemma {:induction false} PutOnly(f: Option<Folder>, p: Path, file: FileInfo, q: Path)
    requires p != [] && forall i :: 0 <= i < |p| - 1 ==> !IsDots(p[i])
    requires forall n :: 0 <= n < |p| ==> FolderAt(f, p[..n]) != Some(Unreadable)
    ensures FileAt(Some(Put(f, p, file)), q) == if q == p then Some(file) else FileAt(f, q)
    decreases |p|
  {
    hide FolderAt, FileAt;
    var g := Some(Put(f, p, file));
    if |q| <= 1 {
      FileInRoot(f, q);
      FileInRoot(g, q);
      assert |q| == 1 ==> (q == p <==> |p| == 1 && p[0] == q[0]);
    } else {
      FileBelow(f, q);
      FileBelow(g, q);
      if |p| > 1 && q[0] == p[0] {
        forall n | 0 <= n < |p[1..]|
          ensures FolderAt(Sub(f, p[0]), p[1..][..n]) != Some(Unreadable)
        {
          FolderAtFront(f, p[..n + 1]);
          assert p[..n + 1][1..] == p[1..][..n];
        }
        PutOnly(Sub(f, p[0]), p[1..], file, q[1..]);
        assert q == p <==> q[1..] == p[1..] by {
          assert q == [q[0]] + q[1..] && p == [p[0]] + p[1..];
        }
      } else {
        assert Sub(g, q[0]) == Sub(f, q[0]);
      }
    }
  }

  lemma FileInRoot(f: Option<Folder>, q: Path)
    requires |q| <= 1
    ensures FileAt(f, q) == if q == [] then None else Lookup(Files(f), q[0])
  {
  }

  lemma FileBelow(f: Option<Folder>, q: Path)
    requires |q| > 1
    ensures FileAt(f, q) == FileAt(Sub(f, q[0]), q[1..])
  {
    var n := |q| - 1;
    FolderAtFront(f, q[..n]);
    assert q[..n][1..] == q[1..][..n - 1];
  }

  lemma {:induction false} PutReadable(f: Option<Folder>, p: Path, file: FileInfo, d: Path)
    requires p != [] && FolderAt(f, d) != Some(Unreadable)
    ensures FolderAt(Some(Put(f, p, file)), d) != Some(Unreadable)
    decreases |p|
  {
    var g := Some(Put(f, p, file));
    if d != [] {
      FolderAtFront(g, d);
      FolderAtFront(f, d);
      if |p| > 1 && d[0] == p[0] && !IsDots(d[0]) {
        PutReadable(Sub(f, p[0]), p[1..], file, d[1..]);
      } else {
        assert Sub(g, d[0]) == Sub(f, d[0]);
      }
    }
  }

  /** A file as it arrives on the other side. */
  function Arrived(f: FileInfo, time: Option<int>): FileInfo { FileInfo(|f.content|, time, f.content) }

  /** One side after the items with one action were transferred to it. */
  function Received(root: Folder, plan: seq<Item>, a: Action, source: Folder, stamp: Path -> Option<int>): Folder {
    if plan == [] then root
    else
      var n := |plan| - 1;
      var rest, p := Received(root, plan[..n], a, source, stamp), plan[n].path;
      if plan[n].action == a && FileAt(Some(source), p).Some? then
        Put(Some(rest), p, Arrived(FileAt(Some(source), p).value, stamp(p)))
      else rest
  }

  ghost predicate Moves(plan: seq<Item>, a: Action, p: Path) {
    exists i :: 0 <= i < |plan| && plan[i].action == a && plan[i].path == p
  }

  ghost function Expected(root: Folder, plan: seq<Item>, a: Action, source: Folder, stamp: Path -> Option<int>,
      q: Path): Option<FileInfo>
  {
    if Moves(plan, a, q) && FileAt(Some(source), q).Some? then Some(Arrived(FileAt(Some(source), q).value, stamp(q)))
    else FileAt(Some(root), q)
  }

  /** What a transfer leaves: every path of the plan with its action written, nothing else. */
  ghost predicate Transferred(root: Folder, plan: seq<Item>, a: Action, source: Folder, stamp: Path -> Option<int>,
      after: Folder)
  {
    forall q :: FileAt(Some(after), q) == Expected(root, plan, a, source, stamp, q)
  }

  lemma {:induction false} ReceivedFiles(root: Folder, plan: seq<Item>, a: Action, source: Folder,
      stamp: Path -> Option<int>, depth: nat)
    requires Readable(Some(root), depth) && forall i :: 0 <= i < |plan| ==> |plan[i].path| <= depth + 1
    ensures Readable(Some(Received(root, plan, a, source, stamp)), depth)
    ensures Transferred(root, plan, a, source, stamp, Received(root, plan, a, source, stamp))
  {
    hide FileAt, FolderAt, Readable, Transferred;
    if plan == [] {
      NoneReceived(root, a, source, stamp);
    } else {
      var n := |plan| - 1;
      var p := plan[n].path;
      ReceivedFiles(root, plan[..n], a, source, stamp, depth);
      var rest := Received(root, plan[..n], a, source, stamp);
      if plan[n].action == a && FileAt(Some(source), p).Some? {
        var file := Arrived(FileAt(Some(source), p).value, stamp(p));
        NoDots(source, p);
        PutStep(Some(rest), p, file, depth);
        OneReceived(root, plan, a, source, stamp, rest, Put(Some(rest), p, file));
      } else {
        NoneMore(root, plan, a, source, stamp, rest);
      }
    }
  }

  lemma NoneReceived(root: Folder, a: Action, source: Folder, stamp: Path -> Option<int>)
    ensures Transferred(root, [], a, source, stamp, root)
  {
  }

  lemma OneReceived(root: Folder, plan: seq<Item>, a: Action, source: Folder, stamp: Path -> Option<int>, rest: Folder,
      after: Folder)
    requires plan != [] && plan[|plan| - 1].action == a && FileAt(Some(source), plan[|plan| - 1].path).Some?
    requires Transferred(root, plan[..|plan| - 1], a, source, stamp, rest)
    requires var p := plan[|plan| - 1].path;
      var file := Arrived(FileAt(Some(source), p).value, stamp(p));
      forall q :: FileAt(Some(after), q) == if q == p then Some(file) else FileAt(Some(rest), q)
    ensures Transferred(root, plan, a, source, stamp, after)
  {
    hide FileAt, FolderAt, Moves;
    MovesStep(plan, a);
    forall q ensures FileAt(Some(after), q) == Expected(root, plan, a, source, stamp, q) {
      assert FileAt(Some(rest), q) == Expected(root, plan[..|plan| - 1], a, source, stamp, q);
    }
  }

  lemma NoneMore(root: Folder, plan: seq<Item>, a: Action, source: Folder, stamp: Path -> Option<int>, rest: Folder)
    requires plan != []
    requires plan[|plan| - 1].action != a || FileAt(Some(source), plan[|plan| - 1].path).None?
    requires Transferred(root, plan[..|plan| - 1], a, source, stamp, rest)
    ensures Transferred(root, plan, a, source, stamp, rest)
  {
    hide FileAt, FolderAt, Moves;
    MovesStep(plan, a);
    forall q ensures FileAt(Some(rest), q) == Expected(root, plan, a, source, stamp, q) {
      assert FileAt(Some(rest), q) == Expected(root, plan[..|plan| - 1], a, source, stamp, q);
    }
  }

  lemma PutStep(f: Option<Folder>, p: Path, file: FileInfo, depth: nat)
    requires p != [] && |p| <= depth + 1 && forall i :: 0 <= i < |p| - 1 ==> !IsDots(p[i])
    requires Readable(f, depth)
    ensures Readable(Some(Put(f, p, file)), depth)
    ensures forall q :: FileAt(Some(Put(f, p, file)), q) == if q == p then Some(file) else FileAt(f, q)
  {
    hide FolderAt, FileAt, Put;
    forall k | 0 <= k < |p| ensures FolderAt(f, p[..k]) != Some(Unreadable) { assert |p[..k]| <= depth; }
    forall q ensures FileAt(Some(Put(f, p, file)), q) == if q == p then Some(file) else FileAt(f, q) {
      PutOnly(f, p, file, q);
    }
    forall d: Path | |d| <= depth ensures FolderAt(Some(Put(f, p, file)), d) != Some(Unreadable) {
      PutReadable(f, p, file, d);
    }
  }

  lemma MovesStep(plan: seq<Item>, a: Action)
    requires plan != []
    ensures var n := |plan| - 1;
      forall q :: Moves(plan, a, q) <==> Moves(plan[..n], a, q) || (plan[n].action == a && q == plan[n].path)
  {
  }

  lemma NoDots(root: Folder, p: Path)
    requires FileAt(Some(root), p).Some?
    ensures p != [] && forall i :: 0 <= i < |p| - 1 ==> !IsDots(p[i])
  {
    forall i | 0 <= i < |p| - 1 ensures !IsDots(p[i]) {
      FolderAbove(Some(root), p[..|p| - 1], i);
    }
  }

  /** Both trees after every upload and download of a plan, with the receiving side's clock. */
  function CarriedOut(w: World, plan: seq<Item>, stamp: Path -> Option<int>): World {
    World(w.o, Received(w.local, plan, Download, w.remote, stamp), Received(w.remote, plan, Upload, w.local, stamp))
  }

  /** The transfers do at every path what convergence asks for, and keep every folder readable. */
  lemma CarryingOut(w: World, plan: seq<Item>, stamp: Path -> Option<int>)
    requires Complete(w, plan) && Verified(w, plan) && TrueSizes(w.local) && TrueSizes(w.remote)
    requires Readable(Some(w.local), DepthOf(w.o)) && Readable(Some(w.remote), DepthOf(w.o))
    ensures var after := CarriedOut(w, plan, stamp);
      && Readable(Some(after.local), DepthOf(w.o)) && Readable(Some(after.remote), DepthOf(w.o))
      && forall p: Path :: InDepth(w, p) ==> CarriedAt(w.Outcome(p), w.L(p), w.R(p), after.L(p), after.R(p))
  {
    var after := CarriedOut(w, plan, stamp);
    ReceivedFiles(w.local, plan, Download, w.remote, stamp, DepthOf(w.o));
    ReceivedFiles(w.remote, plan, Upload, w.local, stamp, DepthOf(w.o));
    forall p: Path | InDepth(w, p)
      ensures CarriedAt(w.Outcome(p), w.L(p), w.R(p), after.L(p), after.R(p))
    {
      MovedWhenPlanned(w, plan, Upload, p);
      MovedWhenPlanned(w, plan, Download, p);
    }
  }

  lemma MovedWhenPlanned(w: World, plan: seq<Item>, a: Action, p: Path)
    requires Complete(w, plan) && Verified(w, plan) && InDepth(w, p)
    ensures Moves(plan, a, p) <==> w.Outcome(p) == Some(a)
  {
  }

  /** The listed sizes stay true. */
  lemma SizesStayTrue(w: World, plan: seq<Item>, stamp: Path -> Option<int>)
    requires Verified(w, plan) && TrueSizes(w.local) && TrueSizes(w.remote)
    requires Readable(Some(w.local), DepthOf(w.o)) && Readable(Some(w.remote), DepthOf(w.o))
    ensures TrueSizes(CarriedOut(w, plan, stamp).local) && TrueSizes(CarriedOut(w, plan, stamp).remote)
  {
    hide FileAt, FolderAt, Decide, Received;
    ReceivedFiles(w.local, plan, Download, w.remote, stamp, DepthOf(w.o));
    ReceivedFiles(w.remote, plan, Upload, w.local, stamp, DepthOf(w.o));
  }

  /** Synchronizing in both directions twice moves nothing the second time. */
  lemma SecondSyncIsQuiet(w: World, plan: seq<Item>, stamp: Path -> Option<int>, second: seq<Item>)
    requires w.o.direction.Both? && !w.o.sizeOnly && !w.o.mtimesPreserved
    requires TrueSizes(w.local) && TrueSizes(w.remote)
    requires Readable(Some(w.local), DepthOf(w.o)) && Readable(Some(w.remote), DepthOf(w.o))
    requires Complete(w, plan) && Verified(w, plan)
    requires Complete(CarriedOut(w, plan, stamp), second) && Verified(CarriedOut(w, plan, stamp), second)
    ensures Quiet(plan, second)
  {
    CarryingOut(w, plan, stamp);
    Converges(w, plan, CarriedOut(w, plan, stamp), second);
  }
}
