/** Comparing two folder trees: the work list over folders, the content checks within a
    budget, and the sorted plan. */
module SyncEngine {
  import opened Common
  import opened Ordering
  import opened SyncPlan

  datatype Limits = Limits(maxFile: nat, budget: nat, chunk: nat)

  const CONTENT_CHECK_MAX_FILE_BYTES: nat := 32 * 1024 * 1024
  const CONTENT_CHECK_BUDGET_BYTES: nat := 256 * 1024 * 1024
  const CONTENT_CHECK_CHUNK_BYTES: nat := 4 * 1024 * 1024

  const DEFAULT_LIMITS: Limits :=
    Limits(CONTENT_CHECK_MAX_FILE_BYTES, CONTENT_CHECK_BUDGET_BYTES, CONTENT_CHECK_CHUNK_BYTES)

  datatype ListError = CouldNotRead(dir: Path)

  datatype ReadError = ReadError

  /** One side as a file system: folders are listed, ranges of files are read; reads of an
      unreliable side may fail. */
  class Side {
    const root: Folder
    const reliable: bool
    /** Bytes asked for so far. */
    var requested: nat

    constructor (root: Folder, reliable: bool)
      ensures this.root == root && this.reliable == reliable && requested == 0
    {
      this.root, this.reliable, requested := root, reliable, 0;
    }

    method List(d: Path) returns (r: Result<Folder, ListError>)
      requires FolderAt(Some(root), d).Some?
      ensures r ==
        if FolderAt(Some(root), d) == Some(Unreadable) then Err(CouldNotRead(d)) else Ok(FolderAt(Some(root), d).value)
    {
      var f := FolderAt(Some(root), d).value;
      r := if f.Unreadable? then Err(CouldNotRead(d)) else Ok(f);
    }

    method ReadRange(p: Path, offset: nat, want: nat) returns (r: Result<bytes, ReadError>)
      requires FileAt(Some(root), p).Some?
      modifies this`requested
      ensures requested == old(requested) + want
      ensures reliable ==> r.Ok?
      ensures r.Ok? ==> r.value == Range(FileAt(Some(root), p).value.content, offset, want)
    {
      requested := requested + want;
      if !reliable {
        if * { return Err(ReadError); }
      }
      r := Ok(Range(FileAt(Some(root), p).value.content, offset, want));
    }
  }

  function Range(content: bytes, offset: nat, want: nat): bytes {
    content[Min(offset, |content|)..Min(offset + want, |content|)]
  }

  // ---- content checks ----

  /** A planned item whose action depends on whether both copies hold the same bytes. */
  datatype Check = Check(index: nat, path: Path, size: nat, ifDiffers: Action)

  datatype ContentCheck = Equal | Differs | Unverified

  /** Compares two copies chunk by chunk; `left` is what remains of the budget. */
  method CompareContents(local: Side, remote: Side, check: Check, limits: Limits, budget: nat)
    returns (r: ContentCheck, left: nat)
    requires local != remote
    requires FileAt(Some(local.root), check.path).Some? && FileAt(Some(remote.root), check.path).Some?
    requires FileAt(Some(local.root), check.path).value.size == check.size
    modifies local`requested, remote`requested
    ensures left <= budget && budget - left <= check.size
    ensures local.requested == old(local.requested) + (budget - left)
    ensures remote.requested == old(remote.requested) + (budget - left)
    ensures var l, h := FileAt(Some(local.root), check.path).value, FileAt(Some(remote.root), check.path).value;
      && (r.Equal? ==> SameBytes(l, h))
      && (r.Differs? ==> !SameBytes(l, h))
      && (local.reliable && remote.reliable && check.size <= Min(|l.content|, |h.content|)
          && check.size <= Min(limits.maxFile, budget)
          ==> !r.Unverified?)
  {
    hide FileAt, FolderAt;
    ghost var a := FileAt(Some(local.root), check.path).value.content;
    ghost var b := FileAt(Some(remote.root), check.path).value.content;
    left := budget;
    var size := check.size;
    if size == 0 { return Equal, left; }
    if size > limits.maxFile || size > budget { return Unverified, left; }
    var chunk := if limits.chunk > 1 then limits.chunk else 1;
    var offset := 0;
    while offset < size
      invariant offset <= size && left == budget - offset
      invariant local.requested == old(local.requested) + offset
      invariant remote.requested == old(remote.requested) + offset
      invariant offset <= |a| && offset <= |b| && a[..offset] == b[..offset]
      decreases size - offset
    {
      var want := Min(chunk, size - offset);
      var x := local.ReadRange(check.path, offset, want);
      var y := remote.ReadRange(check.path, offset, want);
      left := SatSub(left, want);
      if x.Err? || y.Err? { return Unverified, left; }
      if |x.value| != want || |y.value| != want { return Unverified, left; }
      assert x.value == a[offset..offset + want] && y.value == b[offset..offset + want];
      if x.value != y.value {
        DifferentCut(a, b, offset, want, size);
        return Differs, left;
      }
      assert a[..offset + want] == a[..offset] + x.value && b[..offset + want] == b[..offset] + y.value;
      offset := offset + want;
    }
    r := Equal;
  }

  lemma DifferentCut(a: bytes, b: bytes, offset: nat, want: nat, size: nat)
    requires offset + want <= size && offset + want <= |a| && offset + want <= |b|
    requires a[offset..offset + want] != b[offset..offset + want]
    ensures a[..Min(size, |a|)] != b[..Min(size, |b|)]
  {
  }

  // ---- planning one folder ----

  /** Whether the contents at a path must be compared. */
  predicate IsChecked(w: World, p: Path) { w.Planned(p).Some? && w.Planned(p).value.CompareContent? }

  /** The item first planned for a path, before any content is read. */
  function FirstItem(w: World, p: Path): Item
    requires w.Planned(p).Some?
  {
    ItemOf(p, Provisional(w.Planned(p).value), w.L(p), w.R(p))
  }

  /** The bytes a content check of a path reads, when no more than `n`. */
  function PathNeed(w: World, n: nat, p: Path): nat {
    if IsChecked(w, p) && w.L(p).value.size <= n then w.L(p).value.size else 0
  }

  function NeedUpTo(w: World, n: nat): Item -> nat { (i: Item) => PathNeed(w, n, i.path) }

  function SizeUpTo(n: nat): Check -> nat { (c: Check) => if c.size <= n then c.size else 0 }

  ghost predicate CheckFits(w: World, plan: seq<Item>, c: Check) {
    && c.index < |plan| && plan[c.index].path == c.path && IsChecked(w, c.path)
    && c.size == w.L(c.path).value.size && c.ifDiffers == w.Planned(c.path).value.ifDiffers
  }

  /** The pending checks are those of the plan's items that need one, each with its own item. */
  ghost predicate ChecksFit(w: World, plan: seq<Item>, checks: seq<Check>) {
    && (forall k :: 0 <= k < |checks| ==> CheckFits(w, plan, checks[k]))
    && (forall i :: 0 <= i < |plan| && IsChecked(w, plan[i].path) ==>
          exists k :: 0 <= k < |checks| && checks[k].index == i)
    && (forall n: nat :: Total(checks, SizeUpTo(n)) == Total(plan, NeedUpTo(w, n)))
  }

  /** The pending checks after planning one more path. */
  function MoreChecks(w: World, plan: seq<Item>, checks: seq<Check>, p: Path): seq<Check> {
    if IsChecked(w, p) then checks + [Check(|plan|, p, w.L(p).value.size, w.Planned(p).value.ifDiffers)] else checks
  }

  lemma AddItem(w: World, plan: seq<Item>, checks: seq<Check>, p: Path)
    requires ChecksFit(w, plan, checks) && w.Planned(p).Some?
    ensures ChecksFit(w, plan + [FirstItem(w, p)], MoreChecks(w, plan, checks, p))
  {
    hide IsChecked, PathNeed;
    var all, more := plan + [FirstItem(w, p)], MoreChecks(w, plan, checks, p);
    if IsChecked(w, p) { NewCheck(w, plan, checks, p); }
    forall k | 0 <= k < |more| ensures CheckFits(w, all, more[k]) {
      if k < |checks| { assert CheckFits(w, plan, checks[k]); }
    }
    forall i | 0 <= i < |all| && IsChecked(w, all[i].path)
      ensures exists k :: 0 <= k < |more| && more[k].index == i
    {
      if i < |plan| {
        assert all[i] == plan[i];
        var k :| 0 <= k < |checks| && checks[k].index == i;
        assert more[k] == checks[k];
      } else {
        assert more[|checks|].index == i;
      }
    }
    forall n: nat
      ensures Total(more, SizeUpTo(n)) == Total(all, NeedUpTo(w, n))
    {
      SameNeed(w, plan, checks, p, n);
    }
  }

  lemma NewCheck(w: World, plan: seq<Item>, checks: seq<Check>, p: Path)
    requires w.Planned(p).Some? && IsChecked(w, p)
    ensures CheckFits(w, plan + [FirstItem(w, p)], Check(|plan|, p, w.L(p).value.size, w.Planned(p).value.ifDiffers))
  {
  }

  lemma SameNeed(w: World, plan: seq<Item>, checks: seq<Check>, p: Path, n: nat)
    requires w.Planned(p).Some? && Total(checks, SizeUpTo(n)) == Total(plan, NeedUpTo(w, n))
    ensures Total(MoreChecks(w, plan, checks, p), SizeUpTo(n)) == Total(plan + [FirstItem(w, p)], NeedUpTo(w, n))
  {
  }

  /** The new items of one folder: its files that call for an action, each once. */
  ghost predicate FolderItems(w: World, d: Path, added: seq<Item>, names: set<string>) {
    && Distinct(added)
    && (forall i :: 0 <= i < |added| ==>
      |added[i].path| == |d| + 1 && added[i].path[..|d|] == d && added[i].path[|d|] in names
      && w.Planned(added[i].path).Some? && added[i] == FirstItem(w, added[i].path))
    && (forall name :: name in names && w.Planned(d + [name]).Some? ==> d + [name] in Paths(added))
  }

  lemma OneMoreItem(w: World, d: Path, added: seq<Item>, names: set<string>, name: string)
    requires FolderItems(w, d, added, names) && name !in names
    ensures FolderItems(w, d, if w.Planned(d + [name]).Some? then added + [FirstItem(w, d + [name])] else added,
                        names + {name})
  {
    hide FileAt, Decide;
    var p := d + [name];
    assert p[..|d|] == d && p[|d|] == name;
    var more := if w.Planned(p).Some? then added + [FirstItem(w, p)] else added;
    forall other | other in names + {name} && w.Planned(d + [other]).Some?
      ensures d + [other] in Paths(more)
    {
      if other == name {
        assert more[|added|].path == p;
      } else {
        var i :| 0 <= i < |added| && added[i].path == d + [other];
        assert more[i].path == d + [other];
      }
    }
  }

  /** The names of a set in order. */
  method InOrder(names: set<string>) returns (s: seq<string>)
    ensures multiset(s) == multiset(names) && Sorted(s, StringLe)
  {
    s := [];
    var rest := names;
    while rest != {}
      invariant rest <= names && multiset(s) == multiset(names - rest)
      decreases |rest|
    {
      var name :| name in rest;
      s := s + [name];
      rest := rest - {name};
      assert names - rest == (names - (rest + {name})) + {name};
    }
    StringOrder();
    SortByIsSorted(s, StringLe);
    assert names - rest == names;
    s := SortBy(s, StringLe);
  }

  lemma StringOrder()
    ensures TotalOrder(StringLe)
  {
    forall a, b ensures StringLe(a, b) || StringLe(b, a) { StringTotal(a, b); }
    forall a, b, c | StringLe(a, b) && StringLe(b, c) ensures StringLe(a, c) { StringTransitive(a, b, c); }
  }

  method PlanFiles(ghost w: World, d: Path, l: Option<Folder>, r: Option<Folder>, o: Options,
                   before: seq<Item>, pending: seq<Check>)
    returns (plan: seq<Item>, checks: seq<Check>)
    requires l == FolderAt(Some(w.local), d) && r == FolderAt(Some(w.remote), d) && o == w.o
    requires ChecksFit(w, before, pending)
    ensures before <= plan && FolderItems(w, d, plan[|before|..], Files(l).Keys + Files(r).Keys)
    ensures ChecksFit(w, plan, checks)
  {
    hide ChecksFit, FolderItems, FileAt, FolderAt, PlanBothPresent;
    plan, checks := before, pending;
    var names := InOrder(Files(l).Keys + Files(r).Keys);
    EachOnce(names, Files(l).Keys + Files(r).Keys);
    ghost var seen: set<string> := {};
    ghost var added: seq<Item> := [];
    NoItems(w, d);
    for i := 0 to |names|
      invariant plan == before + added
      invariant forall name :: name in seen <==> name in names[..i]
      invariant FolderItems(w, d, added, seen)
      invariant ChecksFit(w, plan, checks)
    {
      var name := names[i];
      var lf, rf := Lookup(Files(l), name), Lookup(Files(r), name);
      FilesOf(w, d, name);
      var decision := Decide(o, lf, rf);
      OneMoreItem(w, d, added, seen, name);
      seen := seen + {name};
      if decision.Some? {
        AddItem(w, plan, checks, d + [name]);
        if decision.value.CompareContent? {
          checks := checks + [Check(|plan|, d + [name], lf.value.size, decision.value.ifDiffers)];
        }
        plan := plan + [ItemOf(d + [name], Provisional(decision.value), lf, rf)];
        added := added + [FirstItem(w, d + [name])];
      }
    }
    assert seen == Files(l).Keys + Files(r).Keys;
    assert plan[|before|..] == added;
  }

  lemma FilesOf(w: World, d: Path, name: string)
    ensures w.L(d + [name]) == Lookup(Files(FolderAt(Some(w.local), d)), name)
    ensures w.R(d + [name]) == Lookup(Files(FolderAt(Some(w.remote), d)), name)
  {
  }

  lemma NoItems(w: World, d: Path)
    ensures FolderItems(w, d, [], {})
  {
  }

  // ---- the work list ----

  /** A folder still to be compared: where it is, on which sides it exists, and its depth. */
  datatype Frame = Frame(dir: Path, l: bool, r: bool, depth: nat)

  function LeftDir(w: World, d: Path): Option<Folder> { FolderAt(Some(w.local), d) }

  function RightDir(w: World, d: Path): Option<Folder> { FolderAt(Some(w.remote), d) }

  predicate Above(d: Path, e: Path) { |d| <= |e| && e[..|d|] == d }

  ghost predicate FrameFits(w: World, f: Frame) {
    && f.depth == |f.dir| <= DepthOf(w.o) && (f.l || f.r)
    && f.l == LeftDir(w, f.dir).Some? && f.r == RightDir(w, f.dir).Some?
  }

  /** The frames are folders of the trees, none below another. */
  ghost predicate Frames(w: World, stack: seq<Frame>) {
    && (forall k :: 0 <= k < |stack| ==> FrameFits(w, stack[k]))
    && (forall k, m :: 0 <= k < |stack| && 0 <= m < |stack| && k != m ==> !Above(stack[k].dir, stack[m].dir))
  }

  ghost predicate Waiting(stack: seq<Frame>, d: Path) { exists k :: 0 <= k < |stack| && Above(stack[k].dir, d) }

  /** A folder that was read on both sides and whose files are all planned. */
  ghost predicate Done(w: World, plan: seq<Item>, d: Path) {
    && LeftDir(w, d) != Some(Unreadable) && RightDir(w, d) != Some(Unreadable)
    && forall name: string :: w.Planned(d + [name]).Some? ==> d + [name] in Paths(plan)
  }

  /** Every folder within the depth limit is done or waits below exactly one frame. */
  ghost predicate Covered(w: World, stack: seq<Frame>, plan: seq<Item>) {
    forall d: Path :: |d| <= DepthOf(w.o) && (LeftDir(w, d).Some? || RightDir(w, d).Some?) ==>
      Waiting(stack, d) || Done(w, plan, d)
  }

  /** Items come from folders already taken from the work list, each path once. */
  ghost predicate Planned(w: World, stack: seq<Frame>, plan: seq<Item>) {
    && Distinct(plan)
    && forall i :: 0 <= i < |plan| ==>
      InDepth(w, plan[i].path) && w.Planned(plan[i].path).Some? && plan[i] == FirstItem(w, plan[i].path)
      && !Waiting(stack, plan[i].path[..|plan[i].path| - 1])
  }

  /** The subfolders of a folder as frames. */
  function Kids(w: World, d: Path, names: seq<string>): seq<Frame> {
    if names == [] then []
    else
      var n := |names| - 1;
      var p := d + [names[n]];
      Kids(w, d, names[..n])
      + (if IsDots(names[n]) then [] else [Frame(p, LeftDir(w, p).Some?, RightDir(w, p).Some?, |d| + 1)])
  }

  lemma {:induction false} KidsAre(w: World, d: Path, names: seq<string>)
    ensures forall k :: 0 <= k < |Kids(w, d, names)| ==> IsKid(w, d, names, Kids(w, d, names)[k])
  {
    hide FolderAt;
    if names != [] {
      var n := |names| - 1;
      var before, all := Kids(w, d, names[..n]), Kids(w, d, names);
      KidsAre(w, d, names[..n]);
      forall k | 0 <= k < |all| ensures IsKid(w, d, names, all[k]) {
        if k < |before| {
          assert IsKid(w, d, names[..n], before[k]);
          assert before[k].dir[|d|] in names;
        } else {
          assert all[k].dir[..|d|] == d && all[k].dir[|d|] == names[n];
        }
      }
    }
  }

  lemma {:induction false} KidsWait(w: World, d: Path, names: seq<string>)
    ensures forall name :: name in names && !IsDots(name) ==> Waiting(Kids(w, d, names), d + [name])
  {
    hide FolderAt, Above;
    if names != [] {
      var n := |names| - 1;
      var before, all := Kids(w, d, names[..n]), Kids(w, d, names);
      KidsWait(w, d, names[..n]);
      forall name | name in names && !IsDots(name) ensures Waiting(all, d + [name]) {
        if name == names[n] {
          AboveSelf(d + [name]);
          assert Above(all[|before|].dir, d + [name]);
        } else {
          assert name in names[..n];
          var k :| 0 <= k < |before| && Above(before[k].dir, d + [name]);
          assert all[k] == before[k];
        }
      }
    }
  }

  lemma AboveSelf(d: Path)
    ensures Above(d, d)
  {
  }

  ghost predicate IsKid(w: World, d: Path, names: seq<string>, f: Frame) {
    && |f.dir| == |d| + 1 == f.depth && f.dir[..|d|] == d && f.dir[|d|] in names && !IsDots(f.dir[|d|])
    && f.l == LeftDir(w, f.dir).Some? && f.r == RightDir(w, f.dir).Some?
  }

  /** Different names give different frames. */
  lemma {:induction false} KidsApart(w: World, d: Path, names: seq<string>)
    requires forall i, j :: 0 <= i < j < |names| ==> names[i] != names[j]
    ensures forall k, m :: 0 <= k < m < |Kids(w, d, names)| ==> Kids(w, d, names)[k].dir != Kids(w, d, names)[m].dir
  {
    if names != [] {
      var n := |names| - 1;
      KidsApart(w, d, names[..n]);
      KidsAre(w, d, names[..n]);
      assert names[n] !in names[..n];
      var before := Kids(w, d, names[..n]);
      forall k | 0 <= k < |before| ensures before[k].dir != d + [names[n]] {
        assert IsKid(w, d, names[..n], before[k]);
      }
    }
  }

  /** The work list after taking a frame and pushing its subfolders keeps its shape. */
  lemma FramesStep(w: World, rest: seq<Frame>, f: Frame, names: seq<string>)
    requires Frames(w, rest + [f]) && f.depth < DepthOf(w.o)
    requires forall i, j :: 0 <= i < j < |names| ==> names[i] != names[j]
    requires forall name :: name in names ==> name in Dirs(LeftDir(w, f.dir)) || name in Dirs(RightDir(w, f.dir))
    ensures Frames(w, rest + Kids(w, f.dir, names))
  {
    hide FolderAt, Kids;
    var kids := Kids(w, f.dir, names);
    KidsAre(w, f.dir, names);
    KidsApart(w, f.dir, names);
    var stack, former := rest + kids, rest + [f];
    assert former[|rest|] == f;
    forall k | 0 <= k < |stack| ensures FrameFits(w, stack[k]) {
      if k < |rest| {
        assert stack[k] == former[k];
      } else {
        var kid := kids[k - |rest|];
        assert IsKid(w, f.dir, names, kid);
        SubFolder(w, f.dir, kid.dir[|f.dir|]);
        assert kid.dir == f.dir + [kid.dir[|f.dir|]];
      }
    }
    forall k, m | 0 <= k < |stack| && 0 <= m < |stack| && k != m ensures !Above(stack[k].dir, stack[m].dir) {
      if k < |rest| && m < |rest| {
        assert stack[k] == former[k] && stack[m] == former[m];
      } else if k >= |rest| && m >= |rest| {
        assert IsKid(w, f.dir, names, kids[k - |rest|]) && IsKid(w, f.dir, names, kids[m - |rest|]);
      } else if k < |rest| {
        assert stack[k] == former[k] && IsKid(w, f.dir, names, kids[m - |rest|]);
        BesideKid(stack[k].dir, f.dir, stack[m].dir);
      } else {
        assert stack[m] == former[m] && IsKid(w, f.dir, names, kids[k - |rest|]);
        BesideKid(stack[m].dir, f.dir, stack[k].dir);
      }
    }
  }

  /** A folder beside another is beside its subfolders. */
  lemma BesideKid(a: Path, d: Path, e: Path)
    requires |e| == |d| + 1 && e[..|d|] == d && !Above(a, d) && !Above(d, a)
    ensures !Above(a, e) && !Above(e, a)
  {
  }

  lemma SubFolder(w: World, d: Path, name: string)
    ensures LeftDir(w, d + [name]) == Sub(LeftDir(w, d), name) && RightDir(w, d + [name]) == Sub(RightDir(w, d), name)
  {
  }

  /** After its frame is handled, a folder is done and what lies below waits in its subfolders. */
  lemma CoveredStep(w: World, rest: seq<Frame>, f: Frame, names: seq<string>, kids: seq<Frame>, plan: seq<Item>,
      more: seq<Item>)
    requires Covered(w, rest + [f], plan) && plan <= more && FrameFits(w, f)
    requires Done(w, more, f.dir)
    requires forall name :: name in Dirs(LeftDir(w, f.dir)) || name in Dirs(RightDir(w, f.dir)) ==> name in names
    requires kids == if f.depth < DepthOf(w.o) then Kids(w, f.dir, names) else []
    ensures Covered(w, rest + kids, more)
  {
    hide FolderAt, FileAt, Kids, Decide;
    forall d: Path | |d| <= DepthOf(w.o) && (LeftDir(w, d).Some? || RightDir(w, d).Some?)
      ensures Waiting(rest + kids, d) || Done(w, more, d)
    {
      if Done(w, plan, d) {
        assert Paths(plan) <= Paths(more) by {
          forall i | 0 <= i < |plan| ensures plan[i].path in Paths(more) { assert more[i] == plan[i]; }
        }
      } else {
        var k :| 0 <= k < |rest + [f]| && Above((rest + [f])[k].dir, d);
        if k < |rest| {
          assert (rest + kids)[k] == (rest + [f])[k];
        } else if |d| == |f.dir| {
          assert d == f.dir;
        } else {
          BelowKid(w, f.dir, names, d);
          var m :| 0 <= m < |kids| && Above(kids[m].dir, d);
          assert (rest + kids)[|rest| + m] == kids[m];
        }
      }
    }
  }

  lemma BelowKid(w: World, d: Path, names: seq<string>, e: Path)
    requires Above(d, e) && |d| < |e| && (LeftDir(w, e).Some? || RightDir(w, e).Some?)
    requires forall name :: name in Dirs(LeftDir(w, d)) || name in Dirs(RightDir(w, d)) ==> name in names
    ensures Waiting(Kids(w, d, names), e)
  {
    hide Kids, FolderAt;
    var name := e[|d|];
    assert e[..|d|] == d;
    if LeftDir(w, e).Some? { FolderAbove(Some(w.local), e, |d|); } else { FolderAbove(Some(w.remote), e, |d|); }
    assert name in names && !IsDots(name);
    KidsAre(w, d, names);
    KidsWait(w, d, names);
    var kids := Kids(w, d, names);
    var k :| 0 <= k < |kids| && Above(kids[k].dir, d + [name]);
    assert IsKid(w, d, names, kids[k]);
    assert e[..|d| + 1] == d + [name];
    assert Above(kids[k].dir, e);
  }

  /** New items of a taken frame join the plan without repeating a path. */
  lemma PlannedStep(w: World, rest: seq<Frame>, f: Frame, names: seq<string>, kids: seq<Frame>, plan: seq<Item>,
      added: seq<Item>, files: set<string>)
    requires Frames(w, rest + [f]) && Planned(w, rest + [f], plan) && FolderItems(w, f.dir, added, files)
    requires kids == if f.depth < DepthOf(w.o) then Kids(w, f.dir, names) else []
    ensures Planned(w, rest + kids, plan + added)
  {
    hide FolderAt, FileAt, Kids, Decide;
    KidsAre(w, f.dir, names);
    var all, stack, former := plan + added, rest + kids, rest + [f];
    assert former[|rest|] == f;
    forall i, j | 0 <= i < j < |all| ensures all[i].path != all[j].path {
      if i < |plan| && j >= |plan| {
        assert all[i] == plan[i] && all[j] == added[j - |plan|];
        assert all[j].path[..|all[j].path| - 1] == f.dir;
        assert Above(f.dir, f.dir) && Waiting(former, f.dir);
      } else if i >= |plan| {
        assert all[i] == added[i - |plan|] && all[j] == added[j - |plan|];
      }
    }
    forall i | 0 <= i < |all|
      ensures InDepth(w, all[i].path) && w.Planned(all[i].path).Some? && all[i] == FirstItem(w, all[i].path)
      ensures !Waiting(stack, all[i].path[..|all[i].path| - 1])
    {
      if i >= |plan| { assert all[i] == added[i - |plan|]; } else { assert all[i] == plan[i]; }
      var d := all[i].path[..|all[i].path| - 1];
      assert i >= |plan| ==> d == f.dir;
      forall k | 0 <= k < |stack| ensures !Above(stack[k].dir, d) {
        if k < |rest| {
          assert former[k] == stack[k];
        } else {
          assert IsKid(w, f.dir, names, kids[k - |rest|]);
          assert Above(stack[k].dir, d) ==> Above(f.dir, d);
        }
      }
    }
  }

  // ---- the walk ends ----

  /** The number of folders down to a depth. */
  ghost function Count(f: Option<Folder>, left: nat): nat
    decreases left, 0
  {
    if f.None? then 0 else 1 + (if left == 0 then 0 else Sum(Dirs(f), CountOf(left - 1)))
  }

  ghost function CountOf(left: nat): Folder -> nat
    decreases left, 1
  {
    g => Count(Some(g), left)
  }

  ghost function FrameCount(w: World): Frame -> nat {
    (f: Frame) =>
      var left := SatSub(DepthOf(w.o), |f.dir|);
      Count(LeftDir(w, f.dir), left) + Count(RightDir(w, f.dir), left)
  }

  ghost function NameCount(m: map<string, Folder>, left: nat): string -> nat {
    (name: string) => if name in m && !IsDots(name) then Count(Some(m[name]), left) else 0
  }

  lemma {:induction false} SubsCount(m: map<string, Folder>, names: seq<string>, left: nat)
    requires forall i, j :: 0 <= i < j < |names| ==> names[i] != names[j]
    ensures Total(names, NameCount(m, left)) <= Sum(m, CountOf(left))
  {
    if names != [] {
      var n := |names| - 1;
      var x := names[n];
      if x in m {
        SumRemove(m, x, CountOf(left));
        SubsCount(m - {x}, names[..n], left);
        TotalSame(names[..n], names[..n], NameCount(m, left), NameCount(m - {x}, left));
      } else {
        SubsCount(m, names[..n], left);
      }
    }
  }

  /** Taking a frame and pushing its subfolders leaves fewer folders to visit. */
  lemma CountStep(w: World, rest: seq<Frame>, f: Frame, names: seq<string>, kids: seq<Frame>)
    requires FrameFits(w, f) && forall i, j :: 0 <= i < j < |names| ==> names[i] != names[j]
    requires kids == if f.depth < DepthOf(w.o) then Kids(w, f.dir, names) else []
    ensures Total(rest + kids, FrameCount(w)) < Total(rest + [f], FrameCount(w))
  {
    hide FrameCount, Kids, FolderAt;
    TotalAppend(rest, kids, FrameCount(w));
    assert (rest + [f])[..|rest|] == rest;
    FrameIsLeft(w, f);
    if f.depth < DepthOf(w.o) { KidsFewer(w, f, names); }
  }

  lemma KidsFewer(w: World, f: Frame, names: seq<string>)
    requires FrameFits(w, f) && f.depth < DepthOf(w.o) && forall i, j :: 0 <= i < j < |names| ==> names[i] != names[j]
    ensures Total(Kids(w, f.dir, names), FrameCount(w)) < FrameCount(w)(f)
  {
    hide FrameCount, Kids, FolderAt, Count, CountOf, NameCount, Dirs, Total;
    var left := DepthOf(w.o) - |f.dir| - 1;
    FrameIsLeft(w, f);
    KidsCount(w, f.dir, names, left);
    SubsCount(Dirs(LeftDir(w, f.dir)), names, left);
    SubsCount(Dirs(RightDir(w, f.dir)), names, left);
    SomeDirs(LeftDir(w, f.dir), left);
    SomeDirs(RightDir(w, f.dir), left);
  }

  lemma FrameIsLeft(w: World, f: Frame)
    requires FrameFits(w, f)
    ensures FrameCount(w)(f) > 0
    ensures FrameCount(w)(f) ==
      Count(LeftDir(w, f.dir), DepthOf(w.o) - |f.dir|) + Count(RightDir(w, f.dir), DepthOf(w.o) - |f.dir|)
  {
  }

  lemma SomeDirs(f: Option<Folder>, left: nat)
    ensures f.Some? ==> Sum(Dirs(f), CountOf(left)) < Count(f, left + 1)
    ensures f.None? ==> Sum(Dirs(f), CountOf(left)) == 0
  {
  }

  lemma {:induction false} KidsCount(w: World, d: Path, names: seq<string>, left: nat)
    requires left == DepthOf(w.o) - |d| - 1
    ensures Total(Kids(w, d, names), FrameCount(w))
         <= Total(names, NameCount(Dirs(LeftDir(w, d)), left)) + Total(names, NameCount(Dirs(RightDir(w, d)), left))
  {
    hide FolderAt, Count, NameCount, FrameCount, Dirs, IsDots;
    if names != [] {
      var n := |names| - 1;
      KidsCount(w, d, names[..n], left);
      var before, all := Kids(w, d, names[..n]), Kids(w, d, names);
      if IsDots(names[n]) {
        assert all == before;
      } else {
        var kid := all[|before|];
        assert all == before + [kid];
        TotalAppend(before, [kid], FrameCount(w));
        assert Total([kid], FrameCount(w)) == FrameCount(w)(kid);
        KidCount(w, d, names[n], kid, left);
      }
    }
  }

  lemma KidCount(w: World, d: Path, name: string, kid: Frame, left: nat)
    requires left == DepthOf(w.o) - |d| - 1 && kid.dir == d + [name] && !IsDots(name)
    ensures FrameCount(w)(kid) ==
      NameCount(Dirs(LeftDir(w, d)), left)(name) + NameCount(Dirs(RightDir(w, d)), left)(name)
  {
  }

  // ---- the walk ----

  method PushKids(ghost w: World, d: Path, l: Option<Folder>, r: Option<Folder>, names: seq<string>, stack: seq<Frame>)
    returns (grown: seq<Frame>)
    requires l == LeftDir(w, d) && r == RightDir(w, d)
    ensures grown == stack + Kids(w, d, names)
  {
    hide FolderAt;
    grown := stack;
    for i := 0 to |names|
      invariant grown == stack + Kids(w, d, names[..i])
    {
      var name := names[i];
      assert names[..i + 1][..i] == names[..i];
      SubFolder(w, d, name);
      if IsDots(name) { continue; }
      grown := grown + [Frame(d + [name], name in Dirs(l), name in Dirs(r), |d| + 1)];
    }
    assert names[..|names|] == names;
  }

  datatype Walked = Walked(plan: seq<Item>, checks: seq<Check>)

  /** Every folder to be compared can be listed. */
  ghost predicate AllReadable(w: World) {
    forall d: Path :: Reaches(w.o, |d|) ==> LeftDir(w, d) != Some(Unreadable) && RightDir(w, d) != Some(Unreadable)
  }

  lemma ReadableSides(w: World)
    ensures AllReadable(w) <==> Readable(Some(w.local), DepthOf(w.o)) && Readable(Some(w.remote), DepthOf(w.o))
  {
    hide FolderAt;
    if AllReadable(w) {
      forall d: Path | |d| <= DepthOf(w.o)
        ensures FolderAt(Some(w.local), d) != Some(Unreadable) && FolderAt(Some(w.remote), d) != Some(Unreadable)
      {
        assert LeftDir(w, d) != Some(Unreadable) && RightDir(w, d) != Some(Unreadable);
      }
    }
  }

  /** Visits every folder within the depth limit; stops at the first that cannot be read. */
  method Walk(local: Side, remote: Side, o: Options) returns (r: Result<Walked, ListError>)
    ensures var w := World(o, local.root, remote.root);
      && (r.Ok? <==> AllReadable(w))
      && (r.Ok? ==>
            Complete(w, r.value.plan) && Planned(w, [], r.value.plan) && ChecksFit(w, r.value.plan, r.value.checks))
  {
    hide FolderAt, FileAt, Kids, Frames, Covered, Planned, ChecksFit, Readable, FrameCount, Complete;
    ghost var w := World(o, local.root, remote.root);
    var plan: seq<Item>, checks: seq<Check> := [], [];
    var stack := [Frame([], true, true, 0)];
    AtStart(w);
    while stack != []
      invariant Frames(w, stack) && Covered(w, stack, plan) && Planned(w, stack, plan) && ChecksFit(w, plan, checks)
      decreases Total(stack, FrameCount(w))
    {
      var n := |stack| - 1;
      var rest, f := stack[..n], stack[n];
      assert stack == rest + [f];
      assert FrameFits(w, f) by { TopFits(w, rest, f); }
      var l, h := None, None;
      if f.l {
        var x := local.List(f.dir);
        if x.Err? { NotReadable(w, f.dir); return Err(x.error); }
        l := Some(x.value);
      }
      if f.r {
        var x := remote.List(f.dir);
        if x.Err? { NotReadable(w, f.dir); return Err(x.error); }
        h := Some(x.value);
      }
      ghost var before := plan;
      plan, checks := PlanFiles(w, f.dir, l, h, o, plan, checks);
      var names := InOrder(Dirs(l).Keys + Dirs(h).Keys);
      EachOnce(names, Dirs(l).Keys + Dirs(h).Keys);
      stack := rest;
      if f.depth < DepthOf(o) {
        stack := PushKids(w, f.dir, l, h, names, stack);
      }
      Step(w, rest, f, names, stack, before, plan);
    }
    AtEnd(w, plan);
    r := Ok(Walked(plan, checks));
  }

  lemma TopFits(w: World, rest: seq<Frame>, f: Frame)
    requires Frames(w, rest + [f])
    ensures FrameFits(w, f)
  {
    assert (rest + [f])[|rest|] == f;
  }

  lemma NotReadable(w: World, d: Path)
    requires |d| <= DepthOf(w.o) && (LeftDir(w, d) == Some(Unreadable) || RightDir(w, d) == Some(Unreadable))
    ensures !AllReadable(w)
  {
  }

  lemma AtStart(w: World)
    ensures var stack := [Frame([], true, true, 0)];
      Frames(w, stack) && Covered(w, stack, []) && Planned(w, stack, []) && ChecksFit(w, [], [])
  {
  }

  /** One turn of the work list keeps everything. */
  lemma Step(w: World, rest: seq<Frame>, f: Frame, names: seq<string>, stack: seq<Frame>, before: seq<Item>,
      plan: seq<Item>)
    requires Frames(w, rest + [f]) && FrameFits(w, f)
    requires Covered(w, rest + [f], before) && Planned(w, rest + [f], before)
    requires LeftDir(w, f.dir) != Some(Unreadable) && RightDir(w, f.dir) != Some(Unreadable)
    requires before <= plan
    requires FolderItems(w, f.dir, plan[|before|..], Files(LeftDir(w, f.dir)).Keys + Files(RightDir(w, f.dir)).Keys)
    requires forall i, j :: 0 <= i < j < |names| ==> names[i] != names[j]
    requires forall name :: name in names <==> name in Dirs(LeftDir(w, f.dir)) || name in Dirs(RightDir(w, f.dir))
    requires stack == rest + if f.depth < DepthOf(w.o) then Kids(w, f.dir, names) else []
    ensures Frames(w, stack) && Covered(w, stack, plan) && Planned(w, stack, plan)
    ensures Total(stack, FrameCount(w)) < Total(rest + [f], FrameCount(w))
  {
    hide FolderAt, FileAt, Kids, Covered, Planned, FrameCount, Frames;
    var kids := if f.depth < DepthOf(w.o) then Kids(w, f.dir, names) else [];
    var added := plan[|before|..];
    assert plan == before + added;
    if f.depth < DepthOf(w.o) { FramesStep(w, rest, f, names); } else { FewerFrames(w, rest, f); }
    AllPlanned(w, f.dir, before, plan);
    CoveredStep(w, rest, f, names, kids, before, plan);
    PlannedStep(w, rest, f, names, kids, before, added, Files(LeftDir(w, f.dir)).Keys + Files(RightDir(w, f.dir)).Keys);
    CountStep(w, rest, f, names, kids);
  }

  lemma FewerFrames(w: World, rest: seq<Frame>, f: Frame)
    requires Frames(w, rest + [f])
    ensures Frames(w, rest + [])
  {
    assert rest + [] == rest;
    assert forall k :: 0 <= k < |rest| ==> rest[k] == (rest + [f])[k];
  }

  lemma AllPlanned(w: World, d: Path, before: seq<Item>, plan: seq<Item>)
    requires LeftDir(w, d) != Some(Unreadable) && RightDir(w, d) != Some(Unreadable) && before <= plan
    requires FolderItems(w, d, plan[|before|..], Files(LeftDir(w, d)).Keys + Files(RightDir(w, d)).Keys)
    ensures Done(w, plan, d)
  {
  }

  lemma AtEnd(w: World, plan: seq<Item>)
    requires Covered(w, [], plan) && Planned(w, [], plan)
    ensures Complete(w, plan) && AllReadable(w)
  {
    hide FolderAt, Decide;
    forall d: Path | |d| <= DepthOf(w.o)
      ensures LeftDir(w, d) != Some(Unreadable) && RightDir(w, d) != Some(Unreadable)
    {
      assert !Waiting([], d);
    }
    forall p: Path | InDepth(w, p)
      ensures p in Paths(plan) <==> w.Planned(p).Some?
    {
      var d, name := p[..|p| - 1], p[|p| - 1];
      assert p == d + [name];
      FilesOf(w, d, name);
      if w.Planned(p).Some? {
        SomeFile(w, p);
        assert !Waiting([], d);
        assert Done(w, plan, d);
      }
    }
  }

  lemma SomeFile(w: World, p: Path)
    requires w.Planned(p).Some?
    ensures w.L(p).Some? || w.R(p).Some?
  {
  }

  // ---- the comparison ----

  predicate BySize(a: Check, b: Check) { a.size <= b.size }

  predicate ByPath(a: Item, b: Item) { StringLe(Joined(a.path), Joined(b.path)) }

  lemma Orders()
    ensures TotalOrder(BySize) && TotalOrder(ByPath)
  {
    forall a, b ensures ByPath(a, b) || ByPath(b, a) { StringTotal(Joined(a.path), Joined(b.path)); }
    forall a, b, c | ByPath(a, b) && ByPath(b, c) ensures ByPath(a, c) {
      StringTransitive(Joined(a.path), Joined(b.path), Joined(c.path));
    }
  }

  /** An item carries its own path's facts, and the action planned for it or the verdict of
      comparing its own two copies. */
  ghost predicate Stands(w: World, i: Item) {
    && InDepth(w, i.path) && w.Planned(i.path).Some? && i == ItemOf(i.path, i.action, w.L(i.path), w.R(i.path))
    && (i.action == Provisional(w.Planned(i.path).value) || Some(i.action) == w.Outcome(i.path))
  }

  /** A check that the limits allow, counting all checks of files no larger before it. */
  ghost predicate Affordable(w: World, plan: seq<Item>, limits: Limits, p: Path) {
    IsChecked(w, p) ==>
      w.L(p).value.size <= limits.maxFile && Total(plan, NeedUpTo(w, w.L(p).value.size)) <= limits.budget
  }

  /** The same paths as at first, each item standing for its own. */
  ghost predicate AllStand(w: World, first: seq<Item>, plan: seq<Item>) {
    |plan| == |first| && forall i :: 0 <= i < |plan| ==> plan[i].path == first[i].path && Stands(w, plan[i])
  }

  /** Every item the limits allow has the action its own contents call for. */
  ghost predicate Exact(w: World, first: seq<Item>, limits: Limits, plan: seq<Item>) {
    forall i :: 0 <= i < |plan| && Affordable(w, first, limits, plan[i].path) ==>
      Some(plan[i].action) == w.Outcome(plan[i].path)
  }

  /** The checks, smallest first, each settling its own item. */
  method Settle(local: Side, remote: Side, ghost w: World, first: seq<Item>, checks: seq<Check>, limits: Limits)
    returns (plan: seq<Item>)
    requires local != remote && w.local == local.root && w.remote == remote.root
    requires ChecksFit(w, first, checks) && AllStand(w, first, first)
    modifies local`requested, remote`requested
    ensures local.requested <= old(local.requested) + limits.budget
    ensures remote.requested <= old(remote.requested) + limits.budget
    ensures AllStand(w, first, plan)
    ensures local.reliable && remote.reliable && TrueSizes(local.root) && TrueSizes(remote.root) ==>
      Exact(w, first, limits, plan)
  {
    hide FolderAt, FileAt, Decide, Settled, SameBytes, NeedUpTo, Stands, ChecksFit, Affordable, Spent, SettledTo, Exact;
    plan := first;
    var sorted := SortBy(checks, BySize);
    Orders();
    SortByIsSorted(checks, BySize);
    ghost var exact := local.reliable && remote.reliable && TrueSizes(local.root) && TrueSizes(remote.root);
    var left: nat := limits.budget;
    NoneSettled(w, first, limits, sorted, plan);
    for k := 0 to |sorted|
      invariant left <= limits.budget
      invariant local.requested == old(local.requested) + (limits.budget - left)
      invariant remote.requested == old(remote.requested) + (limits.budget - left)
      invariant Spent(sorted, k, limits.budget - left)
      invariant AllStand(w, first, plan)
      invariant exact ==> SettledTo(w, first, limits, sorted, plan, k)
    {
      var c := sorted[k];
      ItsCheck(w, first, checks, sorted, k);
      Enough(w, first, checks, sorted, k, limits, limits.budget - left);
      ghost var was, before := left, plan;
      var verdict;
      verdict, left := CompareContents(local, remote, c, limits, left);
      Spending(sorted, k, limits.budget - was, limits.budget - left);
      if verdict.Equal? {
        plan := plan[c.index := plan[c.index].(action := Identical)];
      } else if verdict.Differs? {
        plan := plan[c.index := plan[c.index].(action := c.ifDiffers)];
      }
      Written(w, first, before, plan, c, verdict);
      if exact {
        forall j | 0 <= j < |sorted| ensures CheckFits(w, first, sorted[j]) { ItsCheck(w, first, checks, sorted, j); }
        WrittenSettles(w, first, limits, sorted, before, plan, k, verdict);
      }
    }
    if exact { AllSettled(w, first, checks, sorted, limits, plan); }
  }

  lemma NoneSettled(w: World, first: seq<Item>, limits: Limits, sorted: seq<Check>, plan: seq<Item>)
    ensures Spent(sorted, 0, 0) && SettledTo(w, first, limits, sorted, plan, 0)
  {
  }

  /** A check is about files present on both sides with the size listed on both. */
  lemma ItsCheck(w: World, first: seq<Item>, checks: seq<Check>, sorted: seq<Check>, k: nat)
    requires ChecksFit(w, first, checks) && multiset(sorted) == multiset(checks) && k < |sorted|
    ensures CheckFits(w, first, sorted[k]) && w.L(sorted[k].path).Some? && w.R(sorted[k].path).Some?
    ensures w.L(sorted[k].path).value.size == w.R(sorted[k].path).value.size == sorted[k].size
    ensures TrueSizes(w.local) ==> |w.L(sorted[k].path).value.content| == sorted[k].size
    ensures TrueSizes(w.remote) ==> |w.R(sorted[k].path).value.content| == sorted[k].size
  {
    hide FileAt;
    assert sorted[k] in multiset(checks);
    CheckedFiles(w, sorted[k].path);
  }

  /** The plan before and after the verdict of a check. */
  ghost predicate Writes(w: World, before: seq<Item>, plan: seq<Item>, c: Check, verdict: ContentCheck) {
    && IsChecked(w, c.path) && c.ifDiffers == w.Planned(c.path).value.ifDiffers && c.index < |before|
    && (verdict.Equal? ==> SameBytes(w.L(c.path).value, w.R(c.path).value))
    && (verdict.Differs? ==> !SameBytes(w.L(c.path).value, w.R(c.path).value))
    && plan == if verdict.Unverified? then before
               else before[c.index := before[c.index].(action := if verdict.Equal? then Identical else c.ifDiffers)]
  }

  lemma Written(w: World, first: seq<Item>, before: seq<Item>, plan: seq<Item>, c: Check, verdict: ContentCheck)
    requires AllStand(w, first, before) && CheckFits(w, first, c) && Writes(w, before, plan, c, verdict)
    ensures AllStand(w, first, plan)
    ensures !verdict.Unverified? ==> Some(plan[c.index].action) == w.Outcome(c.path)
  {
  }

  lemma WrittenSettles(w: World, first: seq<Item>, limits: Limits, sorted: seq<Check>, before: seq<Item>,
      plan: seq<Item>, k: nat, verdict: ContentCheck)
    requires k < |sorted| && SettledTo(w, first, limits, sorted, before, k)
    requires AllStand(w, first, before) && AllStand(w, first, plan) && forall j :: 0 <= j < |sorted| ==>
      CheckFits(w, first, sorted[j])
    requires Writes(w, before, plan, sorted[k], verdict)
    requires !verdict.Unverified? ==> Some(plan[sorted[k].index].action) == w.Outcome(sorted[k].path)
    requires Affordable(w, first, limits, sorted[k].path) ==> !verdict.Unverified?
    ensures SettledTo(w, first, limits, sorted, plan, k + 1)
  {
    hide FileAt, SameBytes, Decide, Stands, Affordable, IsChecked;
    forall j | 0 <= j < k + 1 && Affordable(w, first, limits, sorted[j].path)
      ensures sorted[j].index < |plan| && Some(plan[sorted[j].index].action) == w.Outcome(sorted[j].path)
    {
      assert CheckFits(w, first, sorted[j]) && CheckFits(w, first, sorted[k]);
      if sorted[j].index == sorted[k].index {
        assert sorted[j].path == sorted[k].path;
      }
    }
  }

  /** What the checks so far have read is covered by their sizes. */
  ghost predicate Spent(sorted: seq<Check>, k: nat, spent: nat)
    requires k <= |sorted|
  {
    forall n: nat :: (forall j :: 0 <= j < k ==> sorted[j].size <= n) ==> spent <= Total(sorted[..k], SizeUpTo(n))
  }

  ghost predicate SettledTo(w: World, first: seq<Item>, limits: Limits, sorted: seq<Check>, plan: seq<Item>, k: nat)
    requires k <= |sorted|
  {
    forall j :: 0 <= j < k && Affordable(w, first, limits, sorted[j].path) ==>
      sorted[j].index < |plan| && Some(plan[sorted[j].index].action) == w.Outcome(sorted[j].path)
  }

  lemma CheckedFiles(w: World, p: Path)
    requires IsChecked(w, p)
    ensures w.L(p).Some? && w.R(p).Some? && w.L(p).value.size == w.R(p).value.size
    ensures w.Outcome(p) ==
      Some(if SameBytes(w.L(p).value, w.R(p).value) then Identical else w.Planned(p).value.ifDiffers)
  {
  }

  lemma Spending(sorted: seq<Check>, k: nat, spent: nat, more: nat)
    requires k < |sorted| && Spent(sorted, k, spent) && more <= spent + sorted[k].size
    ensures Spent(sorted, k + 1, more)
  {
    assert sorted[..k + 1][..k] == sorted[..k];
    forall n: nat | forall j :: 0 <= j < k + 1 ==> sorted[j].size <= n
      ensures more <= Total(sorted[..k + 1], SizeUpTo(n))
    {
      assert sorted[k].size <= n;
      assert spent <= Total(sorted[..k], SizeUpTo(n));
    }
  }

  /** The budget left always covers the next affordable check. */
  lemma Enough(w: World, first: seq<Item>, checks: seq<Check>, sorted: seq<Check>, k: nat, limits: Limits, spent: nat)
    requires ChecksFit(w, first, checks) && multiset(sorted) == multiset(checks) && Sorted(sorted, BySize)
    requires k < |sorted| && Spent(sorted, k, spent) && CheckFits(w, first, sorted[k])
    ensures Affordable(w, first, limits, sorted[k].path) ==>
      sorted[k].size <= limits.maxFile && spent + sorted[k].size <= limits.budget
  {
    hide FileAt, Decide;
    var n := sorted[k].size;
    assert forall j :: 0 <= j < k ==> sorted[j].size <= n by {
      forall j | 0 <= j < k ensures sorted[j].size <= n { assert BySize(sorted[j], sorted[k]); }
    }
    assert sorted[..k + 1][..k] == sorted[..k];
    assert sorted == sorted[..k + 1] + sorted[k + 1..];
    TotalAppend(sorted[..k + 1], sorted[k + 1..], SizeUpTo(n));
    TotalPermuted(sorted, checks, SizeUpTo(n));
  }

  lemma AllSettled(w: World, first: seq<Item>, checks: seq<Check>, sorted: seq<Check>, limits: Limits, plan: seq<Item>)
    requires ChecksFit(w, first, checks) && multiset(sorted) == multiset(checks)
    requires SettledTo(w, first, limits, sorted, plan, |sorted|)
    requires AllStand(w, first, plan)
    ensures Exact(w, first, limits, plan)
  {
    hide FileAt, PlanBothPresent;
    forall i | 0 <= i < |plan| && Affordable(w, first, limits, plan[i].path)
      ensures Some(plan[i].action) == w.Outcome(plan[i].path)
    {
      if IsChecked(w, plan[i].path) {
        var k :| 0 <= k < |checks| && checks[k].index == i;
        assert checks[k] in multiset(sorted);
        var j :| 0 <= j < |sorted| && sorted[j] == checks[k];
        assert CheckFits(w, first, checks[k]);
      }
    }
  }

  /** Reordering a plan keeps what it lists. */
  lemma SamePaths(a: seq<Item>, b: seq<Item>)
    requires multiset(a) == multiset(b) && Distinct(a)
    ensures Distinct(b) && Paths(a) == Paths(b)
  {
    Permuted(a, b);
    assert forall i :: 0 <= i < |b| ==> b[i] in a;
    forall i, j | 0 <= i < j < |b| ensures b[i].path != b[j].path { assert b[i] != b[j]; }
    forall p ensures p in Paths(a) <==> p in Paths(b) {
      if i :| 0 <= i < |a| && a[i].path == p { assert a[i] in b; }
      if i :| 0 <= i < |b| && b[i].path == p { assert b[i] in a; }
    }
  }

  /** `compare_directories_with_limits`: fails exactly when a folder within the depth limit
      cannot be read; else lists every path that calls for an action once, in order, each item
      standing for its own path and respecting the direction, settled or not, reading at most the
      budget from each side; and when reads succeed, every item the limits allow is settled by
      its own contents. */
  method Compare(local: Side, remote: Side, o: Options, limits: Limits) returns (r: Result<seq<Item>, ListError>)
    requires local != remote
    modifies local`requested, remote`requested
    ensures var w := World(o, local.root, remote.root);
      && (r.Ok? <==> AllReadable(w))
      && (r.Ok? ==>
        && Complete(w, r.value) && Sorted(r.value, ByPath) && AllStand(w, r.value, r.value)
        && AllTell(w, r.value)
        && (local.reliable && remote.reliable && TrueSizes(local.root) && TrueSizes(remote.root) ==>
          Exact(w, r.value, limits, r.value) && AllSettle(w, r.value, limits)))
    ensures local.requested <= old(local.requested) + limits.budget
    ensures remote.requested <= old(remote.requested) + limits.budget
  {
    hide AllReadable, Complete, Planned, FolderAt, FileAt, Decide, ChecksFit, Exact, AllStand, Sorted, TrueSizes;
    hide AllTell, AllSettle;
    ghost var w := World(o, local.root, remote.root);
    var walked :- Walk(local, remote, o);
    FirstStand(w, walked.plan);
    var plan := Settle(local, remote, w, walked.plan, walked.checks, limits);
    Orders();
    SortByIsSorted(plan, ByPath);
    Reordered(w, walked.plan, plan, SortBy(plan, ByPath), limits);
    AllRespect(w, SortBy(plan, ByPath));
    if Exact(w, walked.plan, limits, plan) && TrueSizes(local.root) && TrueSizes(remote.root) {
      ExactSettles(w, SortBy(plan, ByPath), limits);
    }
    r := Ok(SortBy(plan, ByPath));
  }

  /** What a comparison's item says, by what both sides hold at its path: where only the bytes
      tell, copies are called identical only if they are, and a download only where they differ. */
  ghost predicate Tells(w: World, i: Item) {
    var l, r := w.L(i.path), w.R(i.path);
    && i == ItemOf(i.path, i.action, l, r) && Respects(w.o, i) && KeepsLater(w.o, i)
    && (IsChecked(w, i.path) <==> NeedsContents(w.o, i))
    && (NeedsContents(w.o, i) && i.action == Identical ==> SameBytes(l.value, r.value))
    && (NeedsContents(w.o, i) && i.action == Download ==> !SameBytes(l.value, r.value))
  }

  lemma ItemRespects(w: World, i: Item)
    requires Stands(w, i)
    ensures Tells(w, i)
  {
    hide FileAt, NewerSide, SameBytes;
    NewerMeaning(i.localModified, i.remoteModified);
  }

  /** Every listed item tells what its path calls for, and exactly what is left alone is not listed. */
  ghost predicate AllTell(w: World, plan: seq<Item>) {
    && (forall i :: 0 <= i < |plan| ==> InDepth(w, plan[i].path) && Tells(w, plan[i]))
    && (forall p: Path :: InDepth(w, p) ==> (p in Paths(plan) <==> !LeftAlone(w.o, w.L(p), w.R(p))))
  }

  lemma AllRespect(w: World, plan: seq<Item>)
    requires Complete(w, plan) && AllStand(w, plan, plan)
    ensures AllTell(w, plan)
  {
    hide FileAt, Tells, Respects, KeepsLater, NewerSide, PlanBothPresent;
    forall i | 0 <= i < |plan| ensures Tells(w, plan[i]) { ItemRespects(w, plan[i]); }
  }

  /** With true sizes, an item settled by its contents is identical exactly if both files are. */
  ghost predicate Settles(w: World, i: Item) {
    var l, r := w.L(i.path), w.R(i.path);
    NeedsContents(w.o, i) ==>
      && l.Some? && r.Some?
      && (i.action == Identical <==> l.value.content == r.value.content)
      && i.action != Conflict
  }

  /** Every item whose check the limits allow is settled by its contents. */
  ghost predicate AllSettle(w: World, plan: seq<Item>, limits: Limits) {
    forall i :: 0 <= i < |plan| && Affordable(w, plan, limits, plan[i].path) ==> Settles(w, plan[i])
  }

  lemma ExactSettles(w: World, plan: seq<Item>, limits: Limits)
    requires AllStand(w, plan, plan) && Exact(w, plan, limits, plan) && TrueSizes(w.local) && TrueSizes(w.remote)
    ensures AllSettle(w, plan, limits)
  {
    hide FileAt, Affordable, Stands, Decide;
    forall i | 0 <= i < |plan| && Affordable(w, plan, limits, plan[i].path) ensures Settles(w, plan[i]) {
      ItemSettles(w, plan[i]);
    }
  }

  lemma ItemSettles(w: World, i: Item)
    requires Stands(w, i) && Some(i.action) == w.Outcome(i.path) && TrueSizes(w.local) && TrueSizes(w.remote)
    ensures Settles(w, i)
  {
    hide FileAt, NewerSide;
    NewerMeaning(i.localModified, i.remoteModified);
  }

  lemma FirstStand(w: World, plan: seq<Item>)
    requires Planned(w, [], plan)
    ensures AllStand(w, plan, plan)
  {
  }

  /** Putting the settled plan in order changes nothing else about it. */
  lemma Reordered(w: World, first: seq<Item>, plan: seq<Item>, sorted: seq<Item>, limits: Limits)
    requires Complete(w, first) && AllStand(w, first, plan) && multiset(sorted) == multiset(plan)
    ensures Complete(w, sorted) && AllStand(w, sorted, sorted)
    ensures Exact(w, first, limits, plan) ==> Exact(w, sorted, limits, sorted)
  {
    hide FileAt, Decide, Stands, NeedUpTo, Complete;
    assert Distinct(plan) by { Apart(w, first); }
    SamePaths(plan, sorted);
    SameComplete(w, first, plan, sorted);
    forall i | 0 <= i < |sorted|
      ensures exists j :: 0 <= j < |plan| && plan[j] == sorted[i]
    {
      assert sorted[i] in multiset(plan);
    }
    forall n: nat ensures Total(sorted, NeedUpTo(w, n)) == Total(first, NeedUpTo(w, n)) {
      NeedsNothingElse(w, first, plan, n);
      TotalPermuted(sorted, plan, NeedUpTo(w, n));
    }
    forall p ensures Affordable(w, sorted, limits, p) <==> Affordable(w, first, limits, p) {
      if IsChecked(w, p) { CheckedFiles(w, p); }
    }
  }

  lemma Apart(w: World, plan: seq<Item>)
    requires Complete(w, plan)
    ensures Distinct(plan)
  {
  }

  lemma SameComplete(w: World, first: seq<Item>, plan: seq<Item>, sorted: seq<Item>)
    requires Complete(w, first) && |plan| == |first| && forall i :: 0 <= i < |plan| ==> plan[i].path == first[i].path
    requires Distinct(sorted) && Paths(plan) == Paths(sorted)
    ensures Complete(w, sorted)
  {
  }

  lemma NeedsNothingElse(w: World, a: seq<Item>, b: seq<Item>, n: nat)
    requires |a| == |b| && forall i :: 0 <= i < |a| ==> a[i].path == b[i].path
    ensures Total(a, NeedUpTo(w, n)) == Total(b, NeedUpTo(w, n))
  {
  }

  /** A comparison whose every check is affordable and whose reads succeed is fully verified,
      as convergence asks. */
  lemma AllAffordable(w: World, plan: seq<Item>, limits: Limits)
    requires AllStand(w, plan, plan) && Exact(w, plan, limits, plan)
    requires forall i :: 0 <= i < |plan| ==> Affordable(w, plan, limits, plan[i].path)
    ensures Verified(w, plan)
  {
  }

  /** Every content check a plan needs is within the limits. */
  ghost predicate WithinLimits(w: World, plan: seq<Item>, limits: Limits) {
    forall i :: 0 <= i < |plan| ==> Affordable(w, plan, limits, plan[i].path)
  }

  /** The larger size listed for an item. */
  function Larger(): Item -> nat { (i: Item) => Max(Or(i.localSize, 0), Or(i.remoteSize, 0)) }

  /** Small enough for any content check to be done: no listed file is above the limit for one,
      and all together are within the budget. */
  ghost predicate Small(plan: seq<Item>, limits: Limits) {
    Total(plan, Larger()) <= limits.budget && forall i :: 0 <= i < |plan| ==> Larger()(plan[i]) <= limits.maxFile
  }

  lemma SmallFits(w: World, plan: seq<Item>, limits: Limits)
    requires AllStand(w, plan, plan) && Small(plan, limits)
    ensures WithinLimits(w, plan, limits)
  {
    hide FileAt, Decide;
    forall i | 0 <= i < |plan| ensures Affordable(w, plan, limits, plan[i].path) {
      if IsChecked(w, plan[i].path) {
        CheckedFiles(w, plan[i].path);
        var n := w.L(plan[i].path).value.size;
        forall j | 0 <= j < |plan| ensures NeedUpTo(w, n)(plan[j]) <= Larger()(plan[j]) { NeedIsListed(w, n, plan[j]); }
        NeedIsListed(w, n, plan[i]);
        TotalSame(plan, plan, NeedUpTo(w, n), Larger());
      }
    }
  }

  lemma NeedIsListed(w: World, n: nat, i: Item)
    requires Stands(w, i)
    ensures NeedUpTo(w, n)(i) <= Larger()(i) == Max(Or(SizeOf(w.L(i.path)), 0), Or(SizeOf(w.R(i.path)), 0))
  {
    hide FileAt, Decide;
    if IsChecked(w, i.path) { CheckedFiles(w, i.path); }
  }

  /** What a plan's transfers leave at a path is no larger than what was listed there. */
  lemma NoLarger(w: World, after: World, n: nat, p: Path)
    requires CarriedAt(w.Outcome(p), w.L(p), w.R(p), after.L(p), after.R(p))
    requires IsChecked(after, p)
    ensures after.L(p).value.size <= Max(Or(SizeOf(w.L(p)), 0), Or(SizeOf(w.R(p)), 0))
  {
    CheckedFiles(after, p);
    hide FileAt, Decide;
  }

  /** The other plan has an item for the same path that weighs no less. */
  ghost predicate Outweighed(i: Item, b: seq<Item>, v: Item -> nat, w: Item -> nat) {
    exists j :: 0 <= j < |b| && b[j].path == i.path && v(i) <= w(b[j])
  }

  /** Totals over plans with the same paths. */
  lemma {:induction false} TotalsByPath(a: seq<Item>, b: seq<Item>, v: Item -> nat, w: Item -> nat)
    requires Distinct(a) && forall i :: 0 <= i < |a| ==> Outweighed(a[i], b, v, w)
    ensures Total(a, v) <= Total(b, w)
  {
    if a != [] {
      var n := |a| - 1;
      assert Outweighed(a[n], b, v, w);
      var j :| 0 <= j < |b| && b[j].path == a[n].path && v(a[n]) <= w(b[j]);
      var rest := b[..j] + b[j + 1..];
      forall i | 0 <= i < n ensures Outweighed(a[..n][i], rest, v, w) { OtherOne(a[i], b, v, w, j); }
      TotalsByPath(a[..n], rest, v, w);
      TotalWithout(b, j, w);
    }
  }

  lemma OtherOne(i: Item, b: seq<Item>, v: Item -> nat, w: Item -> nat, j: nat)
    requires Outweighed(i, b, v, w) && j < |b| && b[j].path != i.path
    ensures Outweighed(i, b[..j] + b[j + 1..], v, w)
  {
    var k :| 0 <= k < |b| && b[k].path == i.path && v(i) <= w(b[k]);
    var m := if k < j then k else k - 1;
    assert (b[..j] + b[j + 1..])[m] == b[k];
  }

  /** The second comparison of a small plan is within the limits too. */
  lemma SmallAgain(w: World, plan: seq<Item>, after: World, second: seq<Item>, limits: Limits)
    requires Small(plan, limits) && AllStand(w, plan, plan) && Complete(w, plan)
    requires AllStand(after, second, second) && Complete(after, second) && after.o == w.o
    requires w.o.direction.Both? && !w.o.sizeOnly && !w.o.mtimesPreserved
    requires forall p: Path :: InDepth(w, p) ==> CarriedAt(w.Outcome(p), w.L(p), w.R(p), after.L(p), after.R(p))
    ensures WithinLimits(after, second, limits)
  {
    hide FileAt, FolderAt, Decide, Settled, CarriedAt, NeedUpTo, Larger, IsChecked, Affordable, Complete;
    forall i | 0 <= i < |second| ensures Affordable(after, second, limits, second[i].path) {
      if IsChecked(after, second[i].path) {
        CheckedFiles(after, second[i].path);
        var n := after.L(second[i].path).value.size;
        forall j | 0 <= j < |second| ensures Outweighed(second[j], plan, NeedUpTo(after, n), Larger()) {
          var k := Counterpart(w, plan, after, second, j, n);
        }
        var k := Counterpart(w, plan, after, second, i, n);
        Apart(after, second);
        TotalsByPath(second, plan, NeedUpTo(after, n), Larger());
        OwnNeed(after, n, second[i]);
      }
      WhenChecked(after, second, limits, second[i].path);
    }
  }

  lemma OwnNeed(w: World, n: nat, i: Item)
    requires IsChecked(w, i.path) && w.L(i.path).Some? && n == w.L(i.path).value.size
    ensures NeedUpTo(w, n)(i) == n
  {
  }

  lemma WhenChecked(w: World, plan: seq<Item>, limits: Limits, p: Path)
    requires IsChecked(w, p) ==>
      && w.L(p).Some?
      && w.L(p).value.size <= limits.maxFile && Total(plan, NeedUpTo(w, w.L(p).value.size)) <= limits.budget
    ensures Affordable(w, plan, limits, p)
  {
  }

  /** The item of the first plan for a path of the second; it lists no smaller size. */
  lemma Counterpart(w: World, plan: seq<Item>, after: World, second: seq<Item>, j: nat, n: nat) returns (k: nat)
    requires AllStand(w, plan, plan) && Complete(w, plan) && AllStand(after, second, second) && after.o == w.o
    requires w.o.direction.Both? && !w.o.sizeOnly && !w.o.mtimesPreserved && j < |second|
    requires CarriedAt(w.Outcome(second[j].path), w.L(second[j].path), w.R(second[j].path),
                       after.L(second[j].path), after.R(second[j].path))
    ensures k < |plan| && plan[k].path == second[j].path && NeedUpTo(after, n)(second[j]) <= Larger()(plan[k])
  {
    hide FileAt, FolderAt, Decide, CarriedAt, Larger, Settled;
    var p := second[j].path;
    assert Stands(after, second[j]);
    PlannedBefore(w, after, p);
    assert p in Paths(plan);
    k :| 0 <= k < |plan| && plan[k].path == p;
    assert Stands(w, plan[k]);
    NeedIsListed(w, 0, plan[k]);
    if IsChecked(after, p) { NoLarger(w, after, n, p); }
  }

  lemma PlannedBefore(w: World, after: World, p: Path)
    requires CarriedAt(w.Outcome(p), w.L(p), w.R(p), after.L(p), after.R(p)) && after.o == w.o
    requires w.o.direction.Both? && !w.o.sizeOnly && !w.o.mtimesPreserved && after.Planned(p).Some?
    ensures w.Planned(p).Some?
  {
    hide FileAt;
    CarriedSettles(w.o, w.L(p), w.R(p), after.L(p), after.R(p));
  }

  ghost predicate Trusted(side: Side) { side.reliable && TrueSizes(side.root) }

  /** `compare_directories`: the comparison with the limits of a normal run. */
  method CompareDirectories(local: Side, remote: Side, o: Options) returns (r: Result<seq<Item>, ListError>)
    requires local != remote
    modifies local`requested, remote`requested
    ensures var w := World(o, local.root, remote.root);
      && (r.Ok? <==> AllReadable(w))
      && (r.Ok? ==>
        && Complete(w, r.value) && Sorted(r.value, ByPath) && AllStand(w, r.value, r.value) && AllTell(w, r.value)
        && (Trusted(local) && Trusted(remote) && Small(r.value, Limits(33_554_432, 268_435_456, 4_194_304)) ==>
          Verified(w, r.value)))
    ensures local.requested <= old(local.requested) + 268_435_456
    ensures remote.requested <= old(remote.requested) + 268_435_456
  {
    hide AllReadable, Complete, FolderAt, FileAt, Decide, Exact, AllStand, Sorted, Small, Affordable, Verified;
    hide AllTell, AllSettle;
    ghost var w := World(o, local.root, remote.root);
    r := Compare(local, remote, o, DEFAULT_LIMITS);
    if r.Ok? && Small(r.value, DEFAULT_LIMITS) {
      SmallFits(w, r.value, DEFAULT_LIMITS);
      if Exact(w, r.value, DEFAULT_LIMITS, r.value) { AllAffordable(w, r.value, DEFAULT_LIMITS); }
    }
  }

  /** Comparing in both directions, carrying the plan out, and comparing again: the second
      comparison succeeds too, and asks for no transfer. Small trees need nothing more; for
      others the content checks of both plans have to be within the limits. */
  method SyncTwice(local: Side, remote: Side, o: Options, limits: Limits, stamp: Path -> Option<int>)
    returns (first: Result<seq<Item>, ListError>, second: Result<seq<Item>, ListError>)
    requires local != remote && local.reliable && remote.reliable && TrueSizes(local.root) && TrueSizes(remote.root)
    requires o.direction.Both? && !o.sizeOnly && !o.mtimesPreserved
    modifies local`requested, remote`requested
    // Both results are comparisons: of the two trees, and of what the first plan's transfers make of them.
    ensures var w := World(o, local.root, remote.root);
      && (first.Ok? <==> AllReadable(w))
      && (first.Ok? ==> Complete(w, first.value) && AllStand(w, first.value, first.value))
    ensures first.Ok? ==>
      var after := CarriedOut(World(o, local.root, remote.root), first.value, stamp);
      && (second.Ok? <==> AllReadable(after))
      && (second.Ok? ==> Complete(after, second.value) && AllStand(after, second.value, second.value))
    ensures first.Ok? && Small(first.value, limits) ==> second.Ok? && Quiet(first.value, second.value)
    ensures var w := World(o, local.root, remote.root);
      first.Ok? && WithinLimits(w, first.value, limits) ==>
        && second.Ok?
        && (WithinLimits(CarriedOut(w, first.value, stamp), second.value, limits) ==> Quiet(first.value, second.value))
  {
    hide FolderAt, FileAt, Decide, Readable, TrueSizes, Complete, Verified, Exact, AllStand, Affordable, Received;
    hide Quiet, Small, AllTell, AllSettle, AllReadable;
    var w := World(o, local.root, remote.root);
    first := Compare(local, remote, o, limits);
    if first.Err? { return first, first; }
    var after := CarriedOut(w, first.value, stamp);
    ReadableSides(w);
    ReadableSides(after);
    var newLocal := new Side(after.local, true);
    var newRemote := new Side(after.remote, true);
    second := Compare(newLocal, newRemote, o, limits);
    if Small(first.value, limits) { SmallFits(w, first.value, limits); }
    if WithinLimits(w, first.value, limits) {
      AllAffordable(w, first.value, limits);
      SizesStayTrue(w, first.value, stamp);
      CarryingOut(w, first.value, stamp);
      if Small(first.value, limits) { SmallAgain(w, first.value, after, second.value, limits); }
      if second.Ok? && WithinLimits(after, second.value, limits) {
        AllAffordable(after, second.value, limits);
        SecondSyncIsQuiet(w, first.value, stamp, second.value);
      }
    }
  }
}
