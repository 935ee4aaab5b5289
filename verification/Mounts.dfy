/** Mount registration and longest-prefix routing. */
module Mounts {
  import opened Paths

  /** A host's mount object, known only by its identity. */
  datatype Point = Point(id: nat)

  datatype MountEntry = MountEntry(vpath: string, point: Point)

  datatype Option<+T> = None | Some(value: T)

  // ---------------------------------------------------------------- registration

  function Retain(ms: seq<MountEntry>, vpath: string): (r: seq<MountEntry>)
    ensures forall e :: e in r <==> e in ms && e.vpath != vpath
  {
    if ms == [] then [] else (if ms[0].vpath != vpath then [ms[0]] else []) + Retain(ms[1..], vpath)
  }

  /** Where a stable sort by descending length puts a new element: behind everything at least as long. */
  function Slot(ms: seq<MountEntry>, e: MountEntry): (i: nat)
    ensures i <= |ms| && forall k :: 0 <= k < i ==> |ms[k].vpath| >= |e.vpath|
    ensures i < |ms| ==> |ms[i].vpath| < |e.vpath|
  {
    if ms == [] || |ms[0].vpath| < |e.vpath| then 0 else 1 + Slot(ms[1..], e)
  }

  function Insert(s: seq<MountEntry>, i: nat, e: MountEntry): (r: seq<MountEntry>)
    requires i <= |s|
    ensures |r| == |s| + 1 && r[i] == e
    ensures forall k :: 0 <= k < i ==> r[k] == s[k]
    ensures forall k :: i < k < |r| ==> r[k] == s[k - 1]
  {
    s[..i] + [e] + s[i..]
  }

  /** A stable sort, longest path first. */
  function SortByLength(ms: seq<MountEntry>): seq<MountEntry> {
    if ms == [] then []
    else
      var s, e := SortByLength(ms[..|ms| - 1]), ms[|ms| - 1];
      Insert(s, Slot(s, e), e)
  }

  function WithMount(ms: seq<MountEntry>, path: string, point: Point): seq<MountEntry> {
    var vpath := Normalize(path);
    SortByLength(Retain(ms, vpath) + [MountEntry(vpath, point)])
  }

  predicate LongestFirst(ms: seq<MountEntry>) {
    forall i, j :: 0 <= i < j < |ms| ==> |ms[i].vpath| >= |ms[j].vpath|
  }

  predicate Distinct(ms: seq<MountEntry>) {
    forall i, j :: 0 <= i < j < |ms| ==> ms[i].vpath != ms[j].vpath
  }

  lemma {:induction false} RetainKeepsDistinct(ms: seq<MountEntry>, vpath: string)
    requires Distinct(ms)
    ensures Distinct(Retain(ms, vpath))
  {
    if ms != [] {
      RetainKeepsDistinct(ms[1..], vpath);
      forall e | e in Retain(ms[1..], vpath) ensures e.vpath != ms[0].vpath {
        var k :| 0 <= k < |ms[1..]| && ms[1..][k] == e;
        assert ms[k + 1] == e;
      }
      var r := Retain(ms[1..], vpath);
      assert forall k :: 0 <= k < |r| ==> r[k] in r;
    }
  }

  lemma AppendKeepsDistinct(ms: seq<MountEntry>, e: MountEntry)
    requires Distinct(ms) && forall x :: x in ms ==> x.vpath != e.vpath
    ensures Distinct(ms + [e])
  {
  }

  lemma {:induction false} SortIsASort(ms: seq<MountEntry>)
    ensures LongestFirst(SortByLength(ms))
    ensures forall e :: e in SortByLength(ms) <==> e in ms
    ensures Distinct(ms) ==> Distinct(SortByLength(ms))
  {
    if ms != [] {
      var front, e := ms[..|ms| - 1], ms[|ms| - 1];
      assert ms == front + [e];
      SortIsASort(front);
      var s := SortByLength(front);
      InsertKeepsOrder(s, e);
      InsertKeepsElements(s, Slot(s, e), e);
      if Distinct(ms) {
        forall k | 0 <= k < |s| ensures s[k].vpath != e.vpath {
          assert s[k] in front;
        }
        InsertKeepsDistinct(s, Slot(s, e), e);
      }
    }
  }

  lemma InsertKeepsOrder(s: seq<MountEntry>, e: MountEntry)
    requires LongestFirst(s)
    ensures LongestFirst(Insert(s, Slot(s, e), e))
  {
    var i := Slot(s, e);
    var r := Insert(s, i, e);
    forall j, k | 0 <= j < k < |r| ensures |r[j].vpath| >= |r[k].vpath| {
      if k == i {
      } else if j == i {
        assert |s[i].vpath| >= |s[k - 1].vpath|;
      }
    }
  }

  lemma InsertKeepsElements(s: seq<MountEntry>, i: nat, e: MountEntry)
    requires i <= |s|
    ensures forall x :: x in Insert(s, i, e) <==> x in s || x == e
  {
    assert s == s[..i] + s[i..];
  }

  lemma InsertKeepsDistinct(s: seq<MountEntry>, i: nat, e: MountEntry)
    requires i <= |s| && Distinct(s) && forall k :: 0 <= k < |s| ==> s[k].vpath != e.vpath
    ensures Distinct(Insert(s, i, e))
  {
  }

  // ---------------------------------------------------------------- lookup

  predicate Matches(e: MountEntry, path: string) {
    path == e.vpath || (e.vpath <= path && |path| > |e.vpath| && path[|e.vpath|] == '/')
  }

  /** The first matching mount, with the part of the path behind it. */
  method FindMount(ms: seq<MountEntry>, path: string) returns (r: Option<(nat, string)>)
    ensures r == Route(ms, path)
  {
    var i := 0;
    while i < |ms|
      invariant 0 <= i <= |ms|
      invariant forall k :: 0 <= k < i ==> !Matches(ms[k], path)
    {
      if path == ms[i].vpath {
        RouteIs(ms, path, i);
        assert path[|path|..] == "";
        return Some((i, ""));
      }
      if ms[i].vpath <= path && |path| > |ms[i].vpath| && path[|ms[i].vpath|] == '/' {
        RouteIs(ms, path, i);
        return Some((i, path[|ms[i].vpath|..]));
      }
      i := i + 1;
    }
    RouteIs(ms, path, i);
    return None;
  }

  function FirstMatch(ms: seq<MountEntry>, path: string): (i: nat)
    ensures i <= |ms| && (i < |ms| ==> Matches(ms[i], path))
    ensures forall k :: 0 <= k < i ==> !Matches(ms[k], path)
  {
    if ms == [] || Matches(ms[0], path) then 0 else 1 + FirstMatch(ms[1..], path)
  }

  function Route(ms: seq<MountEntry>, path: string): Option<(nat, string)> {
    var i := FirstMatch(ms, path);
    if i == |ms| then None else Some((i, path[|ms[i].vpath|..]))
  }

  lemma RouteIs(ms: seq<MountEntry>, path: string, i: nat)
    requires i <= |ms| && forall k :: 0 <= k < i ==> !Matches(ms[k], path)
    requires i < |ms| ==> Matches(ms[i], path)
    ensures FirstMatch(ms, path) == i
  {
  }

  // ---------------------------------------------------------------- routing over a whole history

  /** The mount table after registering a history of (path, point) pairs on an empty table. */
  function Table(h: seq<(string, Point)>): seq<MountEntry> {
    if h == [] then [] else WithMount(Table(h[..|h| - 1]), h[|h| - 1].0, h[|h| - 1].1)
  }

  /** The point most recently registered for a location. */
  function Latest(h: seq<(string, Point)>, v: seq<string>): Option<Point> {
    if h == [] then None
    else if Canon(h[|h| - 1].0) == v then Some(h[|h| - 1].1)
    else Latest(h[..|h| - 1], v)
  }

  predicate IsLatest(h: seq<(string, Point)>, e: MountEntry) {
    e.vpath == Normalize(e.vpath) && Latest(h, Canon(e.vpath)) == Some(e.point)
  }

  lemma {:induction false} TableIsLatest(h: seq<(string, Point)>)
    ensures LongestFirst(Table(h)) && Distinct(Table(h))
    ensures forall e :: e in Table(h) <==> IsLatest(h, e)
  {
    if h != [] {
      var older := h[..|h| - 1];
      var (path, point) := h[|h| - 1];
      TableIsLatest(older);
      var vpath := Normalize(path);
      var kept := Retain(Table(older), vpath);
      NormalizeIsIdempotent(path);
      SortIsASort(kept + [MountEntry(vpath, point)]);
      RetainKeepsDistinct(Table(older), vpath);
      AppendKeepsDistinct(kept, MountEntry(vpath, point));
      forall e ensures e in Table(h) <==> IsLatest(h, e) {
        NormalizeIsIdempotent(e.vpath);
        assert e.vpath == Normalize(e.vpath) && Canon(e.vpath) == Canon(path) ==> e.vpath == vpath;
      }
    }
  }

  /** A mount reaches a location: it is mounted exactly there, or, unless it is mounted at the
      root, above it. */
  predicate Covers(v: seq<string>, ps: seq<string>) {
    v == ps || (v != [] && v < ps)
  }

  lemma MatchesIsCovers(e: MountEntry, ps: seq<string>)
    requires Canonical(ps) && e.vpath == Normalize(e.vpath)
    ensures Matches(e, Render(ps)) <==> Covers(Canon(e.vpath), ps)
  {
    var v := Canon(e.vpath);
    CanonIsCanonical(e.vpath);
    if e.vpath == Render(ps) { RenderIsInjective(v, ps); }
    if v != [] {
      PrefixIsComponentwise(v, ps);
      assert e.vpath <= Render(ps) && |Render(ps)| > |e.vpath| && Render(ps)[|e.vpath|] == '/' <==>
             e.vpath + "/" <= Render(ps);
    } else if ps != [] {
      assert Render(ps)[1] == ps[0][0] && ps[0][0] in ps[0] by { assert Join(ps)[0] == ps[0][0]; }
    }
  }

  lemma LongerCoverIsLongerPath(v: seq<string>, w: seq<string>)
    requires Canonical(v) && Canonical(w) && v < w
    ensures |Render(v)| < |Render(w)|
  {
    if v == [] {
      assert w[0] != "";
      assert |Join(w)| >= |w[0]|;
    } else {
      PrefixIsComponentwise(v, w);
    }
  }

  /** Routing a canonical path picks the most recent registration of the longest covering mount,
      and nothing exactly when no registered mount covers the path. */
  lemma RoutingIsLongestPrefix(h: seq<(string, Point)>, ps: seq<string>)
    requires Canonical(ps)
    ensures match Route(Table(h), Render(ps))
            case None => forall v :: Canonical(v) && Covers(v, ps) ==> Latest(h, v).None?
            case Some((i, rel)) =>
              && i < |Table(h)|
              && var e := Table(h)[i];
              && Covers(Canon(e.vpath), ps) && Latest(h, Canon(e.vpath)) == Some(e.point)
              && e.vpath + rel == Render(ps)
              && forall w :: Canonical(w) && Covers(w, ps) && Latest(h, w).Some? ==> |w| <= |Canon(e.vpath)|
  {
    FoundMountCovers(h, ps);
    forall w | Canonical(w) && Covers(w, ps) && Latest(h, w).Some?
      ensures var i := FirstMatch(Table(h), Render(ps)); i < |Table(h)| && |w| <= |Canon(Table(h)[i].vpath)|
    {
      NoLongerCover(h, ps, w);
    }
  }

  lemma MatchIsPrefix(e: MountEntry, path: string)
    requires Matches(e, path)
    ensures e.vpath <= path && e.vpath + path[|e.vpath|..] == path
  {
  }

  lemma FoundMountCovers(h: seq<(string, Point)>, ps: seq<string>)
    requires Canonical(ps)
    ensures var i := FirstMatch(Table(h), Render(ps));
            i < |Table(h)| ==>
              var e := Table(h)[i];
              && Covers(Canon(e.vpath), ps) && Latest(h, Canon(e.vpath)) == Some(e.point)
              && e.vpath + Render(ps)[|e.vpath|..] == Render(ps)
  {
    hide Table;
    hide Latest;
    hide Render;
    hide Covers;
    hide Canon;
    hide Normalize;
    hide FirstMatch;
    var ms, i := Table(h), FirstMatch(Table(h), Render(ps));
    TableIsLatest(h);
    if i < |ms| {
      assert ms[i] in ms && IsLatest(h, ms[i]);
      MatchesIsCovers(ms[i], ps);
      MatchIsPrefix(ms[i], Render(ps));
    }
  }

  lemma NoLongerCover(h: seq<(string, Point)>, ps: seq<string>, w: seq<string>)
    requires Canonical(ps) && Canonical(w) && Covers(w, ps) && Latest(h, w).Some?
    ensures var i := FirstMatch(Table(h), Render(ps)); i < |Table(h)| && |w| <= |Canon(Table(h)[i].vpath)|
  {
    hide Table;
    hide Latest;
    hide Render;
    hide Canon;
    hide FirstMatch;
    hide Matches;
    var ms, i := Table(h), FirstMatch(Table(h), Render(ps));
    TableIsLatest(h);
    var e := MountEntry(Render(w), Latest(h, w).value);
    CanonRender(w);
    NormalizeIsRender(Render(w));
    MatchesIsCovers(e, ps);
    assert IsLatest(h, e);
    var j :| 0 <= j < |ms| && ms[j] == e;
    assert i <= j;
    assert |ms[i].vpath| >= |ms[j].vpath|;
    FoundMountCovers(h, ps);
    var v := Canon(ms[i].vpath);
    CanonIsCanonical(ms[i].vpath);
    assert ms[i] in ms;
    assert v <= ps && w <= ps;
    if |w| > |v| {
      assert v < w;
      LongerCoverIsLongerPath(v, w);
    }
  }

  /** A mount registered at `/` is never used for anything below it. */
  lemma RootMountCoversOnlyRoot(point: Point, ps: seq<string>)
    requires Canonical(ps)
    ensures Route(Table([("/", point)]), Render(ps)).Some? <==> ps == []
  {
    var h := [("/", point)];
    RoutingIsLongestPrefix(h, ps);
    CanonRender([]);
    assert Render([]) == "/";
    assert h[..|h| - 1] == [];
    assert forall v :: Latest(h, v).Some? <==> v == [];
    if ps == [] { assert Covers([], ps) && Canonical([]); }
  }
}
