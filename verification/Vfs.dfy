/** The filesystem operations, each specified on the flat map from locations to entries. */
module VfsOps {
  import opened Paths
  import opened VfsTree
  import M = Mounts
  import Names

  // ---------------------------------------------------------------- specifications on the flat map

  function Up(p: Path): Path
    requires p != []
  {
    p[..|p| - 1]
  }

  function Last(p: Path): string
    requires p != []
  {
    p[|p| - 1]
  }

  ghost const EmptyDir: Flat := imap[[] := DirE]

  /** The entry of the parent directory, as every operation that needs one looks it up. */
  ghost function ParentDir(m: Flat, p: Path): Result<()>
    requires p != []
  {
    match Lookup(m, Up(p), Render(Up(p)))
    case Err(e) => Err(e)
    case Ok(DirE) => Ok(())
    case Ok(_) => Err(NotADir(Render(Up(p))))
  }

  /** Placing a whole tree at `p`: the parent must be a directory, what stood at `p` is replaced. */
  ghost function SetSpec(m: Flat, p: Path, sub: Flat): (Result<()>, Flat) {
    if p == [] then (Err(InvalidPath("cannot overwrite root")), m)
    else
      match ParentDir(m, p)
      case Err(e) => (Err(e), m)
      case Ok(_) => (Ok(()), Graft(m, p, sub))
  }

  /** Taking away `p` with everything below it. */
  ghost function DetachSpec(m: Flat, p: Path): (Result<()>, Flat) {
    if p == [] then (Err(InvalidPath("no parent of root")), m)
    else
      match ParentDir(m, p)
      case Err(e) => (Err(e), m)
      case Ok(_) => if p in m then (Ok(()), Prune(m, p)) else (Err(NotFound(Render(p))), m)
  }

  ghost function MkdirSpec(m: Flat, p: Path): (Result<()>, Flat) {
    if p == [] then (Ok(()), m)
    else
      match ParentDir(m, p)
      case Err(e) => (Err(e), m)
      case Ok(_) => if p in m then (Err(AlreadyExists(Render(p))), m) else (Ok(()), m[p := DirE])
  }

  /** A device swallows the data, a directory refuses it, a file is replaced; a missing file is
      created when its parent is a directory. */
  ghost function WriteSpec(m: Flat, p: Path, data: seq<byte>): (Result<()>, Flat) {
    match Lookup(m, p, Render(p))
    case Ok(DeviceE(_)) => (Ok(()), m)
    case Ok(DirE) => (Err(IsADir(Render(p))), m)
    case Ok(FileE(_)) => (Ok(()), m[p := FileE(data)])
    case Err(NotFound(_)) =>
      if p == [] then (Err(InvalidPath("cannot overwrite root")), m)
      else
        (match ParentDir(m, p)
         case Err(e) => (Err(e), m)
         case Ok(_) => (Ok(()), m[p := FileE(data)]))
    case Err(e) => (Err(e), m)
  }

  ghost function ReadSpec(m: Flat, p: Path): Result<seq<byte>> {
    match Lookup(m, p, Render(p))
    case Err(e) => Err(e)
    case Ok(FileE(data)) => Ok(data)
    case Ok(DirE) => Err(IsADir(Render(p)))
    case Ok(DeviceE(kind)) => if kind.Null? then Ok([]) else Err(PermissionDenied(Render(p)))
  }

  ghost predicate HasChild(m: Flat, p: Path) {
    exists name: string :: p + [name] in m
  }

  ghost function RemoveSpec(m: Flat, p: Path, recursive: bool): (Result<()>, Flat) {
    if !recursive && p in m && m[p].DirE? && HasChild(m, p) then (Err(NotEmpty(Render(p))), m)
    else DetachSpec(m, p)
  }

  /** The source is detached first; only then is the destination tried, on what is left. */
  ghost function RenameSpec(m: Flat, from: Path, to: Path): (Result<()>, Flat) {
    var (r, rest) := DetachSpec(m, from);
    if r.Err? then (r, m) else SetSpec(rest, to, Subtree(m, from))
  }

  /** The first location on the way to `p` that holds something other than a directory. */
  ghost predicate Blocked(m: Flat, p: Path, i: nat) {
    1 <= i <= |p| && p[..i] in m && !m[p[..i]].DirE?
  }

  /** `m` with every location on the way to `p` made a directory. */
  ghost function WithDirs(m: Flat, p: Path): Flat {
    imap q: Path | q in m || q <= p :: if q in m then m[q] else DirE
  }

  // ---------------------------------------------------------------- flat-map facts

  /** Nothing stands below a location that holds no directory. */
  lemma BelowALeaf(m: Flat, p: Path, q: Path)
    requires TreeShaped(m) && (p in m ==> !m[p].DirE?)
    ensures p < q ==> q !in m
    ensures p <= q ==> (q[|p|..] == [] <==> q == p)
  {
    if p <= q { assert q == p + q[|p|..]; }
  }

  /** Where nothing lies below `p`, grafting a single entry is a plain map update. */
  lemma GraftOfLeaf(m: Flat, p: Path, e: Entry)
    requires TreeShaped(m) && (p in m ==> !m[p].DirE?)
    ensures Graft(m, p, imap[[] := e]) == m[p := e]
  {
    var a, b := Graft(m, p, imap[[] := e]), m[p := e];
    forall q: Path ensures (q in a <==> q in b) && (q in a ==> a[q] == b[q]) {
      BelowALeaf(m, p, q);
    }
    assert a == b;
  }

  lemma FlattenLeaf(n: Node)
    requires n.Dir? ==> n.entries == map[]
    ensures Flatten(n) == imap[[] := EntryOf(n)]
  {
    assert forall q: Path :: q in Flatten(n) <==> q == [];
  }

  lemma DirHasChild(root: Node, p: Path)
    requires HasDir(root, p)
    ensures forall name: string ::
              name in NodeAt(root, p, "").value.entries <==> p + [name] in Flatten(root)
  {
    forall name: string ensures name in NodeAt(root, p, "").value.entries <==> p + [name] in Flatten(root) {
      WalkConcat(root, p, [name]);
    }
  }

  /** The parts of a canonical location's path string, as the operations take it apart. */
  lemma PathParts(p: Path)
    requires Canonical(p) && p != []
    ensures Render(p) != "/"
    ensures SplitParent(Render(p)) == Parent(Render(Up(p)), Last(p))
    ensures Components(Render(Up(p))) == Up(p) && Components(Render(p)) == p
    ensures Up(p) + [Last(p)] == p
  {
    assert Up(p) + [Last(p)] == p;
    SplitParentOfRender(Up(p), Last(p));
    ComponentsOfRender(Up(p));
    ComponentsOfRender(p);
    if Render(p) == "/" {
      RenderIsInjective(p, []);
    }
  }

  // ---------------------------------------------------------------- the tree refines the specifications

  /** The walk to a location's parent, in the three ways it can end. */
  lemma ParentWalk(root: Node, p: Path)
    requires p != []
    ensures match NodeAt(root, Up(p), Render(Up(p)))
            case Err(e) => ParentDir(Flatten(root), p) == Err(e)
            case Ok(Dir(_)) => ParentDir(Flatten(root), p) == Ok(()) && HasDir(root, Up(p))
            case Ok(_) => ParentDir(Flatten(root), p) == Err(NotADir(Render(Up(p))))
  {
    WalkRefinesLookup(root, Up(p), Render(Up(p)));
  }

  lemma SetRefines(root: Node, p: Path, node: Node)
    requires p != [] && HasDir(root, Up(p))
    ensures var entries := NodeAt(root, Up(p), "").value.entries;
            SetSpec(Flatten(root), p, Flatten(node)) ==
            (Ok(()), Flatten(WithEntries(root, Up(p), entries[Last(p) := node])))
  {
    WalkIgnoresOrig(root, Up(p), Render(Up(p)));
    ParentWalk(root, p);
    InsertIsGraft(root, Up(p), Last(p), node);
    assert Up(p) + [Last(p)] == p;
  }

  lemma MkdirRefines(root: Node, p: Path)
    requires p != [] && HasDir(root, Up(p))
    ensures var entries := NodeAt(root, Up(p), "").value.entries;
            MkdirSpec(Flatten(root), p) ==
            if Last(p) in entries then (Err(AlreadyExists(Render(p))), Flatten(root))
            else (Ok(()), Flatten(WithEntries(root, Up(p), entries[Last(p) := Dir(map[])])))
  {
    WalkIgnoresOrig(root, Up(p), Render(Up(p)));
    ParentWalk(root, p);
    assert Up(p) + [Last(p)] == p;
    DirHasChild(root, Up(p));
    if p !in Flatten(root) {
      InsertIsGraft(root, Up(p), Last(p), Dir(map[]));
      FlattenLeaf(Dir(map[]));
      FlattenIsTreeShaped(root);
      GraftOfLeaf(Flatten(root), p, DirE);
    }
  }

  lemma DetachRefines(root: Node, p: Path)
    requires p != [] && HasDir(root, Up(p))
    ensures var entries := NodeAt(root, Up(p), "").value.entries;
            DetachSpec(Flatten(root), p) ==
            if Last(p) in entries then (Ok(()), Flatten(WithEntries(root, Up(p), entries - {Last(p)})))
            else (Err(NotFound(Render(p))), Flatten(root))
    ensures var entries := NodeAt(root, Up(p), "").value.entries;
            Last(p) in entries ==> Flatten(entries[Last(p)]) == Subtree(Flatten(root), p)
  {
    WalkIgnoresOrig(root, Up(p), Render(Up(p)));
    ParentWalk(root, p);
    assert Up(p) + [Last(p)] == p;
    DirHasChild(root, Up(p));
    WalkConcat(root, Up(p), [Last(p)]);
    if p in Flatten(root) {
      SubtreeOfNode(root, p);
      DropIsPrune(root, Up(p), Last(p));
    }
  }

  /** A write that reaches the tree is a plain update of one entry. */
  lemma WriteIsSet(root: Node, p: Path, data: seq<byte>)
    requires p in Flatten(root) ==> Flatten(root)[p].FileE?
    requires p !in Flatten(root) ==> Lookup(Flatten(root), p, Render(p)) == Err(NotFound(Render(p)))
    requires root.Dir?
    ensures WriteSpec(Flatten(root), p, data) == SetSpec(Flatten(root), p, Flatten(File(data)))
  {
    FlattenLeaf(File(data));
    FlattenIsTreeShaped(root);
    GraftOfLeaf(Flatten(root), p, FileE(data));
    assert Present(root, []);
    if p != [] && p in Flatten(root) {
      assert Up(p) < p;
    }
  }

  // ---------------------------------------------------------------- reads and writes as functions of the tree

  function SetNodeAt(root: Node, path0: string, node: Node): (r: (Result<()>, Node))
    ensures root.Dir? ==> r.1.Dir?
  {
    var path := Normalize(path0);
    CanonIsCanonical(path0);
    if path == "/" then (Err(InvalidPath("cannot overwrite root")), root)
    else
      var split := SplitParent(path);
      if split.NoParent? then (Err(InvalidPath("no parent of root")), root)
      else
        var comps := Components(split.parent);
        match NodeAt(root, comps, split.parent)
        case Err(e) => (Err(e), root)
        case Ok(Dir(entries)) =>
          WalkIgnoresOrig(root, comps, split.parent);
          (Ok(()), WithEntries(root, comps, entries[split.name := node]))
        case Ok(_) => (Err(NotADir(split.parent)), root)
  }

  /** `write_file` on an unmounted path: devices swallow, directories refuse. */
  function WriteAt(root: Node, path0: string, data: seq<byte>): (r: (Result<()>, Node))
    ensures root.Dir? ==> r.1.Dir?
  {
    var path := Normalize(path0);
    match NodeAt(root, Components(path), path)
    case Ok(Device(_)) => (Ok(()), root)
    case Ok(Dir(_)) => (Err(IsADir(path)), root)
    case Ok(File(_)) => SetNodeAt(root, path, File(data))
    case Err(NotFound(_)) => SetNodeAt(root, path, File(data))
    case Err(e) => (Err(e), root)
  }

  /** `read_file` on an unmounted path. */
  function ReadAt(root: Node, path0: string): Result<seq<byte>> {
    var path := Normalize(path0);
    match NodeAt(root, Components(path), path)
    case Err(e) => Err(e)
    case Ok(File(data)) => Ok(data)
    case Ok(Device(kind)) => if kind.Null? then Ok([]) else Err(PermissionDenied(path))
    case Ok(Dir(_)) => Err(IsADir(path))
  }

  /** Whether `stat` on an unmounted path finds something. */
  predicate IsThere(root: Node, path0: string) {
    NodeAt(root, Components(Normalize(path0)), Normalize(path0)).Ok?
  }

  // ---------------------------------------------------------------- mkdir -p

  /** `mkdir -p` succeeds exactly when no location on the way is something other than a directory;
      then the way is made of directories and nothing else changed. Otherwise nothing changed at all. */
  ghost predicate MkdirParentsDone(m: Flat, p: Path, r: Result<()>, m': Flat) {
    if exists i: nat :: Blocked(m, p, i)
    then m' == m && exists i: nat :: Blocked(m, p, i) && r == Err(NotADir(Render(p[..i])))
    else r == Ok(()) && m' == WithDirs(m, p)
  }

  lemma NextPath(p: Path, i: nat)
    requires Canonical(p) && i < |p|
    ensures var cur := Render(p[..i]);
            (if cur == "/" then "/" + p[i] else cur + "/" + p[i]) == Render(p[..i + 1])
  {
    assert p[..i + 1] == p[..i] + [p[i]];
    if i == 0 {
      assert p[..0] == [];
      assert p[..1] == [p[0]];
    } else {
      RenderConcat(p[..i], [p[i]]);
      PathParts(p[..i]);
    }
  }

  /** Where nothing on the way is missing, making the way changes nothing. */
  lemma WayIsThere(m: Flat, p: Path)
    requires forall q: Path :: q <= p ==> q in m
    ensures WithDirs(m, p) == m
  {
  }

  ghost predicate Clear(m: Flat, p: Path, i: nat) {
    i <= |p| && TreeShaped(m) && [] in m && m[[]].DirE? && forall j :: 0 <= j <= i ==> !Blocked(m, p, j)
  }

  /** With the first `i` components made, the next one is found exactly if it was there before. */
  lemma NextLookup(m: Flat, p: Path, i: nat, orig: string)
    requires Clear(m, p, i) && i < |p|
    ensures var w, q := WithDirs(m, p[..i]), p[..i + 1];
            && Lookup(w, q, orig) == (if q in m then Ok(m[q]) else Err(NotFound(orig)))
            && ParentDir(w, q) == Ok(())
  {
    var w, q := WithDirs(m, p[..i]), p[..i + 1];
    assert Up(q) == p[..i];
    forall u: Path | u < q ensures u in w && w[u].DirE? {
      assert u == p[..|u|] && u <= p[..i];
      assert !Blocked(m, p, |u|);
    }
    assert p[..i] < q;
    assert !(q <= p[..i]);
  }

  lemma NextDir(m: Flat, p: Path, i: nat)
    requires Clear(m, p, i) && i < |p|
    ensures var w, q := WithDirs(m, p[..i]), p[..i + 1];
            WithDirs(m, q) == if q in m then w else w[q := DirE]
  {
    var w, q := WithDirs(m, p[..i]), p[..i + 1];
    var a, b := WithDirs(m, q), if q in m then w else w[q := DirE];
    forall u: Path ensures (u in a <==> u in b) && (u in a ==> a[u] == b[u]) {
      assert u <= q <==> u <= p[..i] || u == q by {
        if u <= q && |u| <= i { assert u == p[..|u|]; }
        if u <= q && |u| > i { assert u == q; }
        if u <= p[..i] { assert p[..i] <= q; }
      }
    }
    assert a == b;
  }

  /** A location that exists has its whole way in place. */
  lemma PresentMeansWayIsThere(m: Flat, p: Path, i: nat)
    requires TreeShaped(m) && i < |p| && p[..i + 1] in m
    ensures WithDirs(m, p[..i]) == m
  {
    forall q: Path | q <= p[..i] ensures q in m {
      assert p[..i] < p[..i + 1];
      assert q < p[..i + 1];
    }
    WayIsThere(m, p[..i]);
  }

  /** One round of the loop, in the three ways the next location can be. */
  lemma NothingBlocksTheStart(root: Node, p: Path)
    requires root.Dir?
    ensures Clear(Flatten(root), p, 0)
  {
    FlattenIsTreeShaped(root);
    assert Present(root, []);
  }

  lemma NextRound(m: Flat, p: Path, i: nat)
    requires Clear(m, p, i) && i < |p|
    ensures var w, q := WithDirs(m, p[..i]), p[..i + 1];
            if q !in m then
              Clear(m, p, i + 1) && Lookup(w, q, Render(q)) == Err(NotFound(Render(q))) &&
              MkdirSpec(w, q) == (Ok(()), WithDirs(m, q))
            else if m[q].DirE? then
              Clear(m, p, i + 1) && Lookup(w, q, Render(q)) == Ok(DirE) && WithDirs(m, q) == w
            else
              Blocked(m, p, i + 1) && w == m && Lookup(w, q, Render(q)) == Ok(m[q])
  {
    NextLookup(m, p, i, Render(p[..i + 1]));
    NextDir(m, p, i);
    if p[..i + 1] in m { PresentMeansWayIsThere(m, p, i); }
  }

  lemma AllClear(m: Flat, p: Path)
    requires Clear(m, p, |p|)
    ensures MkdirParentsDone(m, p, Ok(()), WithDirs(m, p))
  {
  }

  // ---------------------------------------------------------------- the filesystem object

  datatype Stat = Stat(isFile: bool, isDir: bool, isDevice: bool, size: nat)

  function StatOf(e: Entry): Stat {
    match e
    case FileE(data) => Stat(true, false, false, |data|)
    case DirE => Stat(false, true, false, 0)
    case DeviceE(_) => Stat(false, false, true, 0)
  }

  /** A call either runs on the in-memory tree or is handed to a mount's own callback. */
  datatype Reply<+T> = Local(result: Result<T>) | Delegated(point: M.Point, rel: string)

  class Vfs {
    var root: Node
    var mounts: seq<M.MountEntry>

    ghost predicate Valid()
      reads this
    {
      root.Dir?
    }

    ghost function Tree(): (m: Flat)
      reads this
    {
      Flatten(root)
    }

    constructor ()
      ensures Valid() && Tree() == EmptyDir && mounts == []
    {
      root := Dir(map[]);
      mounts := [];
      new;
      FlattenLeaf(root);
    }

    method AddMount(path: string, point: M.Point)
      modifies this`mounts
      ensures mounts == M.WithMount(old(mounts), path, point)
    {
      var vpath := NormalizePath(path);
      mounts := M.Retain(mounts, vpath);
      mounts := mounts + [M.MountEntry(vpath, point)];
      mounts := M.SortByLength(mounts);
    }

    // -------------------------------------------------------------- private helpers

    method MemSetNode(path0: string, node: Node) returns (r: Result<()>)
      requires Valid()
      modifies this`root
      ensures Valid()
      ensures (r, Tree()) == SetSpec(old(Tree()), Canon(path0), Flatten(node))
      ensures (r, root) == SetNodeAt(old(root), path0, node)
    {
      var path := NormalizePath(path0);
      ghost var p := Canon(path0);
      CanonIsCanonical(path0);
      if path == "/" {
        RenderIsInjective(p, []);
        return Err(InvalidPath("cannot overwrite root"));
      }
      assert p != [];
      PathParts(p);
      var split := SplitParent(path);
      var comps := Components(split.parent);
      ParentWalk(root, p);
      WalkIgnoresOrig(root, comps, split.parent);
      var parent := NodeAt(root, comps, split.parent);
      match parent {
        case Err(e) => return Err(e);
        case Ok(Dir(entries)) =>
          SetRefines(root, p, node);
          root := WithEntries(root, comps, entries[split.name := node]);
          return Ok(());
        case Ok(_) => return Err(NotADir(split.parent));
      }
    }

    method MemMkdir(path0: string) returns (r: Result<()>)
      requires Valid()
      modifies this`root
      ensures Valid()
      ensures (r, Tree()) == MkdirSpec(old(Tree()), Canon(path0))
    {
      var path := NormalizePath(path0);
      ghost var p := Canon(path0);
      CanonIsCanonical(path0);
      if path == "/" {
        RenderIsInjective(p, []);
        return Ok(());
      }
      assert p != [];
      PathParts(p);
      var split := SplitParent(path);
      var comps := Components(split.parent);
      ParentWalk(root, p);
      WalkIgnoresOrig(root, comps, split.parent);
      var parent := NodeAt(root, comps, split.parent);
      match parent {
        case Err(e) => return Err(e);
        case Ok(Dir(entries)) =>
          MkdirRefines(root, p);
          if split.name in entries { return Err(AlreadyExists(path)); }
          root := WithEntries(root, comps, entries[split.name := Dir(map[])]);
          return Ok(());
        case Ok(_) => return Err(NotADir(split.parent));
      }
    }

    method MemRemoveNode(path: string) returns (r: Result<Node>)
      requires Valid() && path == Normalize(path)
      modifies this`root
      ensures Valid()
      ensures var (s, m) := DetachSpec(old(Tree()), Canon(path));
              && Tree() == m
              && (match s case Err(e) => r == Err(e) case Ok(_) => r.Ok?)
      ensures r.Ok? ==> Flatten(r.value) == Subtree(old(Tree()), Canon(path))
    {
      ghost var p := Canon(path);
      CanonIsCanonical(path);
      var split := SplitParent(path);
      if split.NoParent? {
        RenderIsInjective(p, []);
        return Err(InvalidPath("no parent of root"));
      }
      assert p != [];
      PathParts(p);
      var comps := Components(split.parent);
      ParentWalk(root, p);
      WalkIgnoresOrig(root, comps, split.parent);
      var parent := NodeAt(root, comps, split.parent);
      match parent {
        case Err(e) => return Err(e);
        case Ok(Dir(entries)) =>
          DetachRefines(root, p);
          if split.name !in entries { return Err(NotFound(path)); }
          root := WithEntries(root, comps, entries - {split.name});
          return Ok(entries[split.name]);
        case Ok(_) => return Err(NotADir(split.parent));
      }
    }

    method MemRead(path: string) returns (r: Result<seq<byte>>)
      requires Valid() && path == Normalize(path)
      ensures r == ReadSpec(Tree(), Canon(path)) == ReadAt(root, path)
    {
      CanonIsCanonical(path);
      ComponentsOfRender(Canon(path));
      var comps := Components(path);
      WalkRefinesLookup(root, comps, path);
      var n := NodeAt(root, comps, path);
      match n {
        case Err(e) => return Err(e);
        case Ok(File(data)) => return Ok(data);
        case Ok(Device(Null)) => return Ok([]);
        case Ok(Dir(_)) => return Err(IsADir(path));
        case Ok(Device(_)) => return Err(PermissionDenied(path));
      }
    }

    method MemList(path: string) returns (r: Result<seq<string>>)
      requires Valid() && path == Normalize(path)
      ensures match Lookup(Tree(), Canon(path), path)
              case Err(e) => r == Err(e)
              case Ok(DirE) =>
                && r.Ok? && Names.Increasing(r.value)
                && forall name: string :: name in r.value <==> Canon(path) + [name] in Tree()
              case Ok(_) => r == Err(NotADir(path))
    {
      CanonIsCanonical(path);
      ComponentsOfRender(Canon(path));
      var comps := Components(path);
      WalkRefinesLookup(root, comps, path);
      var n := NodeAt(root, comps, path);
      match n {
        case Err(e) => return Err(e);
        case Ok(Dir(entries)) =>
          DirHasChild(root, comps);
          var names := Names.Sorted(entries.Keys);
          return Ok(names);
        case Ok(_) => return Err(NotADir(path));
      }
    }

    method MemStat(path: string) returns (r: Result<Stat>)
      requires Valid() && path == Normalize(path)
      ensures match Lookup(Tree(), Canon(path), path)
              case Err(e) => r == Err(e)
              case Ok(e) => r == Ok(StatOf(e))
    {
      CanonIsCanonical(path);
      ComponentsOfRender(Canon(path));
      var comps := Components(path);
      WalkRefinesLookup(root, comps, path);
      var n := NodeAt(root, comps, path);
      match n {
        case Err(e) => return Err(e);
        case Ok(File(data)) => return Ok(Stat(true, false, false, |data|));
        case Ok(Dir(_)) => return Ok(Stat(false, true, false, 0));
        case Ok(Device(_)) => return Ok(Stat(false, false, true, 0));
      }
    }

    method MemRemove(path: string, recursive: bool) returns (r: Result<()>)
      requires Valid() && path == Normalize(path)
      modifies this`root
      ensures Valid()
      ensures (r, Tree()) == RemoveSpec(old(Tree()), Canon(path), recursive)
    {
      if !recursive {
        var entries := MemList(path);
        if entries.Ok? && entries.value != [] {
          ghost var name := entries.value[0];
          assert Canon(path) + [name] in Tree();
          return Err(NotEmpty(path));
        }
      }
      var n := MemRemoveNode(path);
      match n {
        case Err(e) => return Err(e);
        case Ok(_) => return Ok(());
      }
    }

    // -------------------------------------------------------------- the public interface

    method FindMount(path: string) returns (r: M.Option<(nat, string)>)
      ensures r == M.Route(mounts, path)
    {
      r := M.FindMount(mounts, path);
    }

    method ReadFile(path0: string) returns (r: Reply<seq<byte>>)
      requires Valid()
      ensures match M.Route(mounts, Normalize(path0))
              case Some((i, rel)) => r == Delegated(mounts[i].point, rel)
              case None => r == Local(ReadSpec(Tree(), Canon(path0))) == Local(ReadAt(root, path0))
    {
      var path := NormalizePath(path0);
      NormalizeIsIdempotent(path0);
      var mount := FindMount(path);
      if mount.Some? { return Delegated(mounts[mount.value.0].point, mount.value.1); }
      var v := MemRead(path);
      return Local(v);
    }

    method WriteFile(path0: string, data: seq<byte>) returns (r: Reply<()>)
      requires Valid()
      modifies this`root
      ensures Valid()
      ensures match M.Route(mounts, Normalize(path0))
              case Some((i, rel)) => r == Delegated(mounts[i].point, rel) && root == old(root)
              case None =>
                r.Local? && (r.result, Tree()) == WriteSpec(old(Tree()), Canon(path0), data) &&
                (r.result, root) == WriteAt(old(root), path0, data)
    {
      var path := NormalizePath(path0);
      ghost var p := Canon(path0);
      NormalizeIsIdempotent(path0);
      var mount := FindMount(path);
      if mount.Some? { return Delegated(mounts[mount.value.0].point, mount.value.1); }
      CanonIsCanonical(path);
      ComponentsOfRender(p);
      var comps := Components(path);
      WalkRefinesLookup(root, comps, path);
      var n := NodeAt(root, comps, path);
      match n {
        case Ok(Device(_)) => return Local(Ok(()));
        case Ok(Dir(_)) => return Local(Err(IsADir(path)));
        case Ok(File(_)) =>
        case Err(NotFound(_)) =>
        case Err(e) => return Local(Err(e));
      }
      WriteIsSet(root, p, data);
      var v := MemSetNode(path, File(data));
      return Local(v);
    }

    method ListDir(path0: string) returns (r: Reply<seq<string>>)
      requires Valid()
      ensures match M.Route(mounts, Normalize(path0))
              case Some((i, rel)) => r == Delegated(mounts[i].point, rel)
              case None =>
                match Lookup(Tree(), Canon(path0), Normalize(path0))
                case Err(e) => r == Local(Err(e))
                case Ok(DirE) =>
                  r.Local? && r.result.Ok? && Names.Increasing(r.result.value) &&
                  forall name: string :: name in r.result.value <==> Canon(path0) + [name] in Tree()
                case Ok(_) => r == Local(Err(NotADir(Normalize(path0))))
    {
      var path := NormalizePath(path0);
      NormalizeIsIdempotent(path0);
      var mount := FindMount(path);
      if mount.Some? { return Delegated(mounts[mount.value.0].point, mount.value.1); }
      var v := MemList(path);
      return Local(v);
    }

    method StatPath(path0: string) returns (r: Reply<Stat>)
      requires Valid()
      ensures match M.Route(mounts, Normalize(path0))
              case Some((i, rel)) => r == Delegated(mounts[i].point, rel)
              case None =>
                match Lookup(Tree(), Canon(path0), Normalize(path0))
                case Err(e) => r == Local(Err(e))
                case Ok(e) => r == Local(Ok(StatOf(e)))
      ensures M.Route(mounts, Normalize(path0)).None? ==> r.Local? && (r.result.Ok? <==> IsThere(root, path0))
    {
      var path := NormalizePath(path0);
      NormalizeIsIdempotent(path0);
      CanonIsCanonical(path0);
      ComponentsOfRender(Canon(path0));
      WalkRefinesLookup(root, Components(path), path);
      var mount := FindMount(path);
      if mount.Some? { return Delegated(mounts[mount.value.0].point, mount.value.1); }
      var v := MemStat(path);
      return Local(v);
    }

    method Remove(path0: string, recursive: bool) returns (r: Reply<()>)
      requires Valid()
      modifies this`root
      ensures Valid()
      ensures match M.Route(mounts, Normalize(path0))
              case Some((i, rel)) => r == Delegated(mounts[i].point, rel) && Tree() == old(Tree())
              case None => r.Local? && (r.result, Tree()) == RemoveSpec(old(Tree()), Canon(path0), recursive)
    {
      var path := NormalizePath(path0);
      NormalizeIsIdempotent(path0);
      var mount := FindMount(path);
      if mount.Some? { return Delegated(mounts[mount.value.0].point, mount.value.1); }
      var v := MemRemove(path, recursive);
      return Local(v);
    }

    method Rename(from0: string, to0: string) returns (r: Result<()>)
      requires Valid()
      modifies this`root
      ensures Valid()
      ensures if M.Route(mounts, Normalize(from0)).Some? || M.Route(mounts, Normalize(to0)).Some?
              then r == Err(MountError("rename across mount points not supported")) && Tree() == old(Tree())
              else (r, Tree()) == RenameSpec(old(Tree()), Canon(from0), Canon(to0))
    {
      var from := NormalizePath(from0);
      var to := NormalizePath(to0);
      NormalizeIsIdempotent(from0);
      NormalizeIsIdempotent(to0);
      var m1 := FindMount(from);
      var m2 := FindMount(to);
      if m1.Some? || m2.Some? { return Err(MountError("rename across mount points not supported")); }
      var node := MemRemoveNode(from);
      if node.Err? { return Err(node.error); }
      r := MemSetNode(to, node.value);
    }

    /** `mkdir` and `mkdir -p`; neither asks the mount table. */
    method Mkdir(path0: string, parents: bool) returns (r: Result<()>)
      requires Valid()
      modifies this`root
      ensures Valid()
      ensures !parents ==> (r, Tree()) == MkdirSpec(old(Tree()), Canon(path0))
      ensures parents ==> MkdirParentsDone(old(Tree()), Canon(path0), r, Tree())
    {
      var path := NormalizePath(path0);
      NormalizeIsIdempotent(path0);
      if parents {
        r := MemMkdirParents(path);
      } else {
        r := MemMkdir(path);
      }
    }

    method MemMkdirParents(path: string) returns (r: Result<()>)
      requires Valid() && path == Normalize(path)
      modifies this`root
      ensures Valid()
      ensures MkdirParentsDone(old(Tree()), Canon(path), r, Tree())
    {
      hide Clear;
      hide MkdirSpec;
      hide Lookup;
      hide Flatten;
      ghost var p, m0 := Canon(path), Tree();
      CanonIsCanonical(path);
      ComponentsOfRender(p);
      var comps := Components(path);
      var cur := "/";
      var i := 0;
      assert p[..0] == [];
      NothingBlocksTheStart(root, p);
      WayIsThere(m0, []);
      while i < |comps|
        invariant 0 <= i <= |comps| && Valid()
        invariant cur == Render(p[..i])
        invariant Clear(m0, p, i)
        invariant Tree() == WithDirs(m0, p[..i])
      {
        var next := if cur == "/" then "/" + comps[i] else cur + "/" + comps[i];
        NextPath(p, i);
        NextRound(m0, p, i);
        CanonRender(p[..i + 1]);
        var s := MemStat(next);
        match s {
          case Ok(st) =>
            if !st.isDir { return Err(NotADir(next)); }
          case Err(NotFound(_)) =>
            r := MemMkdir(next);
            if r.Err? { return; }
          case Err(e) => return Err(e);
        }
        cur := next;
        i := i + 1;
      }
      assert p[..i] == p;
      AllClear(m0, p);
      return Ok(());
    }
  }
}
