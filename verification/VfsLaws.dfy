/** Laws of the filesystem operations, on the flat maps of trees. */
module VfsLaws {
  import opened Paths
  import opened VfsTree
  import opened VfsOps

  /** Is there a directory to put `p` into? */
  ghost predicate ParentIsDir(m: Flat, p: Path) {
    p != [] && Up(p) in m && m[Up(p)].DirE?
  }

  /** `rename` succeeds exactly when the source exists, neither end is the root, and the
      destination's parent is a directory once the source is gone. A failure leaves the map as it
      was exactly when there was no source to detach. */
  lemma RenameLaw(root: Node, from: Path, to: Path)
    ensures var m := Flatten(root);
            var (r, m') := RenameSpec(m, from, to);
            && (r.Ok? <==> from in m && from != [] && ParentIsDir(Prune(m, from), to))
            && (r.Ok? ==> m' == Graft(Prune(m, from), to, Subtree(m, from)))
            && (r.Err? ==> m' == if from in m && from != [] then Prune(m, from) else m)
            && (r.Err? ==> (m' == m <==> !(from in m && from != [])))
  {
    var m := Flatten(root);
    FlattenIsTreeShaped(root);
    if from in m && from != [] {
      assert Up(from) < from;
      assert from !in Prune(m, from);
    }
  }

  /** Moving a directory into itself fails, and the directory is gone. */
  lemma RenameIntoItselfLosesIt(root: Node, from: Path, to: Path)
    requires from in Flatten(root) && from != [] && from < to
    ensures RenameSpec(Flatten(root), from, to).0.Err?
    ensures RenameSpec(Flatten(root), from, to).1 == Prune(Flatten(root), from)
  {
    RenameLaw(root, from, to);
    assert from <= Up(to);
  }

  /** After a successful rename everything that was below the source is below the destination,
      and nothing outside the two subtrees changed. */
  lemma RenameMovesTheSubtree(root: Node, from: Path, to: Path, q: Path)
    requires RenameSpec(Flatten(root), from, to).0.Ok?
    ensures var m, m' := Flatten(root), RenameSpec(Flatten(root), from, to).1;
            && (to + q in m' <==> from + q in m)
            && (to + q in m' ==> m'[to + q] == m[from + q])
            && (!(from <= q) && !(to <= q) ==> (q in m' <==> q in m) && (q in m ==> m'[q] == m[q]))
            && (from <= q && !(to <= q) ==> q !in m')
  {
    RenameLaw(root, from, to);
    assert (to + q)[|to|..] == q;
  }

  /** Every failing operation other than `rename` leaves the map as it was, and every succeeding
      one leaves everything outside the named subtree as it was. */
  lemma OnlyTheNamedSubtree(root: Node, p: Path, data: seq<byte>, recursive: bool, q: Path)
    requires !(p <= q)
    ensures forall o :: o in {WriteSpec(Flatten(root), p, data), MkdirSpec(Flatten(root), p),
                              RemoveSpec(Flatten(root), p, recursive)} ==>
              && (o.0.Err? ==> o.1 == Flatten(root))
              && (q in o.1 <==> q in Flatten(root)) && (q in o.1 ==> o.1[q] == Flatten(root)[q])
  {
  }

  /** What was written is what is read, unless a device swallowed it. */
  lemma WriteThenRead(root: Node, p: Path, data: seq<byte>)
    requires WriteSpec(Flatten(root), p, data).0.Ok?
    ensures var m, m' := Flatten(root), WriteSpec(Flatten(root), p, data).1;
            if p in m && m[p].DeviceE? then m' == m else ReadSpec(m', p) == Ok(data)
  {
  }

  /** `write_file` succeeds exactly on a file, on a device, or on a free name in a directory. */
  lemma WriteSucceeds(root: Node, p: Path, data: seq<byte>)
    requires root.Dir?
    ensures WriteSpec(Flatten(root), p, data).0.Ok? <==>
            if p in Flatten(root) then !Flatten(root)[p].DirE? else ParentIsDir(Flatten(root), p)
  {
    var m := Flatten(root);
    FlattenIsTreeShaped(root);
    assert Present(root, []);
    if p !in m && ParentIsDir(m, p) {
      forall q: Path | q < p && q in m ensures m[q].DirE? {
        assert q == Up(p) || q < Up(p);
      }
    }
  }

  /** `remove` succeeds exactly on an existing location other than the root, and without the
      recursive flag only where nothing lies below; then the location and everything below is gone. */
  lemma RemoveSucceeds(root: Node, p: Path, recursive: bool)
    ensures var m := Flatten(root);
            var (r, m') := RemoveSpec(m, p, recursive);
            && (r.Ok? <==> p in m && p != [] && (recursive || forall q: Path :: p < q ==> q !in m))
            && (r.Ok? ==> forall q: Path :: q in m' <==> q in m && !(p <= q))
  {
    var m := Flatten(root);
    FlattenIsTreeShaped(root);
    if p != [] && p in m {
      assert Up(p) < p;
      if HasChild(m, p) {
        var name: string :| p + [name] in m;
        assert p < p + [name];
        assert m[p].DirE?;
      }
      forall q: Path | p < q && q in m ensures HasChild(m, p) && m[p].DirE? {
        var c := p + [q[|p|]];
        assert c == q || c < q;
        assert c in m;
      }
    }
  }

  // ---------------------------------------------------------------- why an operation fails

  /** Something other than a directory stands at `p` or above it. */
  ghost predicate InTheWay(m: Flat, p: Path) {
    exists q: Path :: q <= p && q in m && !m[q].DirE?
  }

  lemma Above(m: Flat, p: Path)
    requires p != []
    ensures InTheWay(m, Up(p)) <==> exists q: Path :: q < p && q in m && !m[q].DirE?
  {
    if InTheWay(m, Up(p)) {
      var q: Path :| q <= Up(p) && q in m && !m[q].DirE?;
      assert q < p;
    }
    if exists q: Path :: q < p && q in m && !m[q].DirE? {
      var q: Path :| q < p && q in m && !m[q].DirE?;
      assert q <= Up(p);
    }
  }

  lemma ProperPrefix(q: Path, p: Path)
    requires q <= p && q != p
    ensures q < p
  {
    assert q == p[..|q|] && p == p[..|p|];
  }

  /** What a missing or wrong parent is answered with. */
  lemma ParentFails(root: Node, p: Path)
    requires p != []
    ensures var m := Flatten(root);
            && (ParentDir(m, p).Ok? <==> ParentIsDir(m, p))
            && (InTheWay(m, Up(p)) <==> ParentDir(m, p) == Err(NotADir(Render(Up(p)))))
            && (!InTheWay(m, Up(p)) && Up(p) !in m <==> ParentDir(m, p) == Err(NotFound(Render(Up(p)))))
  {
    var m := Flatten(root);
    FlattenIsTreeShaped(root);
    if InTheWay(m, Up(p)) {
      var q: Path :| q <= Up(p) && q in m && !m[q].DirE?;
      if q != Up(p) { ProperPrefix(q, Up(p)); }
    }
  }

  /** `mkdir` makes exactly one directory, at a free name in a directory, and is content with the root;
      otherwise the answer tells what is wrong: the name is taken, something other than a directory
      stands on the way, or the parent is missing. */
  lemma MkdirLaw(root: Node, p: Path)
    ensures var m := Flatten(root);
            var (r, m') := MkdirSpec(m, p);
            && (r.Ok? <==> p == [] || (ParentIsDir(m, p) && p !in m))
            && (r.Ok? && p != [] ==> m' == m[p := DirE])
            && (r.Err? || p == [] ==> m' == m)
            && (p != [] ==>
                  && (r == Err(AlreadyExists(Render(p))) <==> ParentIsDir(m, p) && p in m)
                  && (r == Err(NotADir(Render(Up(p)))) <==> InTheWay(m, Up(p)))
                  && (r == Err(NotFound(Render(Up(p)))) <==> !InTheWay(m, Up(p)) && Up(p) !in m))
  {
    if p != [] { ParentFails(root, p); }
  }

  /** What a read answers in every case. */
  lemma ReadLaw(root: Node, p: Path)
    ensures var m := Flatten(root);
            var r := ReadSpec(m, p);
            && (p in m && m[p].FileE? ==> r == Ok(m[p].data))
            && (p in m && m[p].DirE? ==> r == Err(IsADir(Render(p))))
            && (p in m && m[p].DeviceE? ==> r == if m[p].kind.Null? then Ok([]) else Err(PermissionDenied(Render(p))))
            && (p !in m && InTheWay(m, p) ==> r == Err(NotADir(Render(p))))
            && (p !in m && !InTheWay(m, p) ==> r == Err(NotFound(Render(p))))
  {
    var m := Flatten(root);
    if p !in m && InTheWay(m, p) {
      var q: Path :| q <= p && q in m && !m[q].DirE?;
      ProperPrefix(q, p);
    }
  }

  /** Why a write fails. */
  lemma WriteFails(root: Node, p: Path, data: seq<byte>)
    requires root.Dir?
    ensures var m := Flatten(root);
            var r := WriteSpec(m, p, data).0;
            && (r == Err(IsADir(Render(p))) <==> p in m && m[p].DirE?)
            && (p !in m && InTheWay(m, p) ==> r == Err(NotADir(Render(p))))
            && (p !in m && !InTheWay(m, p) && Up0(p) !in m ==> p != [] && r == Err(NotFound(Render(Up(p)))))
  {
    var m := Flatten(root);
    FlattenIsTreeShaped(root);
    assert Present(root, []);
    ReadLaw(root, p);
    if p !in m && p != [] {
      ParentFails(root, p);
      Above(m, p);
      if InTheWay(m, Up(p)) {
        var q: Path :| q <= Up(p) && q in m && !m[q].DirE?;
        assert q <= p;
      }
    }
  }

  function Up0(p: Path): Path {
    if p == [] then [] else Up(p)
  }

  /** Why a remove fails. */
  lemma RemoveFails(root: Node, p: Path, recursive: bool)
    ensures var m := Flatten(root);
            var r, full := RemoveSpec(m, p, recursive).0, !recursive && p in m && exists q: Path :: p < q && q in m;
            && (full <==> r == Err(NotEmpty(Render(p))))
            && (!full && p == [] ==> r == Err(InvalidPath("no parent of root")))
            && (p != [] && ParentIsDir(m, p) && p !in m ==> r == Err(NotFound(Render(p))))
            && (p != [] && InTheWay(m, Up(p)) ==> r == Err(NotADir(Render(Up(p)))))
            && (p != [] && !InTheWay(m, Up(p)) && Up(p) !in m ==> r == Err(NotFound(Render(Up(p)))))
  {
    var m := Flatten(root);
    FlattenIsTreeShaped(root);
    RemoveSucceeds(root, p, recursive);
    if p in m {
      if HasChild(m, p) {
        var name: string :| p + [name] in m;
        assert p < p + [name];
        assert m[p].DirE?;
      }
      forall q: Path | p < q && q in m ensures HasChild(m, p) && m[p].DirE? {
        var c := p + [q[|p|]];
        assert c == q || c < q;
        assert c in m;
      }
    }
    if p != [] {
      ParentFails(root, p);
      if p in m {
        assert Up(p) < p;
        if InTheWay(m, Up(p)) {
          Above(m, p);
        }
      }
    }
  }

  // ---------------------------------------------------------------- reading back a written file

  lemma SetNodeAtRefines(root: Node, path: string, node: Node)
    requires root.Dir?
    ensures var (r, root') := SetNodeAt(root, path, node);
            (r, Flatten(root')) == SetSpec(Flatten(root), Canon(path), Flatten(node))
  {
    hide Normalize;
    var p := Canon(path);
    CanonIsCanonical(path);
    assert Normalize(path) == Render(p) by { NormalizeIsRender(path); }
    if Normalize(path) == "/" {
      RenderIsInjective(p, []);
    } else {
      assert p != [];
      PathParts(p);
      ParentWalk(root, p);
      WalkIgnoresOrig(root, Up(p), Render(Up(p)));
      if HasDir(root, Up(p)) { SetRefines(root, p, node); }
    }
  }

  lemma WriteAtRefines(root: Node, path: string, data: seq<byte>)
    requires root.Dir?
    ensures var (r, root') := WriteAt(root, path, data);
            (r, Flatten(root')) == WriteSpec(Flatten(root), Canon(path), data)
  {
    hide SetNodeAt;
    var p := Canon(path);
    CanonIsCanonical(path);
    NormalizeIsIdempotent(path);
    ComponentsOfRender(p);
    WalkRefinesLookup(root, p, Normalize(path));
    var n := NodeAt(root, p, Normalize(path));
    if (n.Ok? && n.value.File?) || (n.Err? && n.error.NotFound?) {
      WriteIsSet(root, p, data);
      SetNodeAtRefines(root, Normalize(path), File(data));
    }
  }

  lemma ReadAtRefines(root: Node, path: string)
    ensures ReadAt(root, path) == ReadSpec(Flatten(root), Canon(path))
  {
    CanonIsCanonical(path);
    ComponentsOfRender(Canon(path));
    WalkRefinesLookup(root, Canon(path), Normalize(path));
  }

  predicate IsDevice(root: Node, path: string) {
    var n := NodeAt(root, Components(Normalize(path)), Normalize(path));
    n.Ok? && n.value.Device?
  }

  /** The same for paths on trees: a write that succeeds is read back, unless a device swallowed it. */
  lemma WrittenIsRead(root: Node, path: string, data: seq<byte>)
    requires root.Dir? && WriteAt(root, path, data).0.Ok? && !IsDevice(root, path)
    ensures ReadAt(WriteAt(root, path, data).1, path) == Ok(data)
  {
    hide WriteAt;
    hide ReadAt;
    CanonIsCanonical(path);
    ComponentsOfRender(Canon(path));
    WalkRefinesLookup(root, Canon(path), Normalize(path));
    WriteAtRefines(root, path, data);
    WriteThenRead(root, Canon(path), data);
    ReadAtRefines(WriteAt(root, path, data).1, path);
  }
}
