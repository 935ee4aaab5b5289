/** Path strings of the virtual filesystem: normalisation, resolution against a working
    directory, components and parents. */
module Paths {

  // ---------------------------------------------------------------- splitting and joining

  /** The segments between slashes; a string without a slash is one segment. */
  function Split(s: string): (r: seq<string>)
    ensures r != []
  {
    if s == "" then [""]
    else if s[0] == '/' then [""] + Split(s[1..])
    else
      var r := Split(s[1..]);
      [[s[0]] + r[0]] + r[1..]
  }

  function Join(parts: seq<string>): string {
    if parts == [] then "" else if |parts| == 1 then parts[0] else parts[0] + "/" + Join(parts[1..])
  }

  predicate NoSlash(seg: string) {
    '/' !in seg
  }

  lemma {:induction false} SplitConcat(x: string, y: string)
    ensures Split(x + "/" + y) == Split(x) + Split(y)
  {
    var s := x + "/" + y;
    if x == "" {
      assert s[0] == '/' && s[1..] == y;
    } else {
      assert s[0] == x[0] && s[1..] == x[1..] + "/" + y;
      SplitConcat(x[1..], y);
    }
  }

  lemma {:induction false} SplitOne(seg: string)
    requires NoSlash(seg)
    ensures Split(seg) == [seg]
  {
    if seg != "" {
      SplitOne(seg[1..]);
      assert [seg[0]] + seg[1..] == seg;
    }
  }

  lemma {:induction false} SplitHasNoSlash(s: string)
    ensures forall i :: 0 <= i < |Split(s)| ==> NoSlash(Split(s)[i])
  {
    if s != "" { SplitHasNoSlash(s[1..]); }
  }

  lemma {:induction false} SplitJoin(parts: seq<string>)
    requires parts != [] && forall i :: 0 <= i < |parts| ==> NoSlash(parts[i])
    ensures Split(Join(parts)) == parts
  {
    SplitOne(parts[0]);
    if |parts| > 1 {
      SplitJoin(parts[1..]);
      SplitConcat(parts[0], Join(parts[1..]));
    }
  }

  lemma {:induction false} JoinConcat(a: seq<string>, b: seq<string>)
    requires a != [] && b != []
    ensures Join(a + b) == Join(a) + "/" + Join(b)
  {
    var c := a + b;
    if |a| == 1 {
      assert c[1..] == b;
    } else {
      assert c[1..] == a[1..] + b;
      JoinConcat(a[1..], b);
    }
  }

  // ---------------------------------------------------------------- normalisation

  /** A path component that can stand in a canonical path. */
  predicate Plain(seg: string) {
    seg != "" && seg != "." && seg != ".." && NoSlash(seg)
  }

  predicate Canonical(parts: seq<string>) {
    forall i :: 0 <= i < |parts| ==> Plain(parts[i])
  }

  function Step(stack: seq<string>, seg: string): seq<string> {
    if seg == "" || seg == "." then stack
    else if seg == ".." then (if stack == [] then [] else stack[..|stack| - 1])
    else stack + [seg]
  }

  function Fold(stack: seq<string>, segs: seq<string>): seq<string>
    decreases |segs|
  {
    if segs == [] then stack else Fold(Step(stack, segs[0]), segs[1..])
  }

  /** The components a path comes to once `.`, `..` and empty segments are gone. */
  function Canon(path: string): seq<string> {
    Fold([], Split(path))
  }

  /** The absolute path string with the given components. */
  function Render(parts: seq<string>): string {
    "/" + Join(parts)
  }

  function Normalize(path: string): string {
    Render(Canon(path))
  }

  method NormalizePath(path: string) returns (r: string)
    ensures r == Normalize(path)
  {
    var segs := Split(path);
    var parts: seq<string> := [];
    var i := 0;
    while i < |segs|
      invariant 0 <= i <= |segs|
      invariant Fold([], segs) == Fold(parts, segs[i..])
    {
      assert segs[i..][1..] == segs[i + 1..];
      if segs[i] == "" || segs[i] == "." {
      } else if segs[i] == ".." {
        if parts != [] { parts := parts[..|parts| - 1]; }
      } else {
        parts := parts + [segs[i]];
      }
      i := i + 1;
    }
    r := if parts == [] then "/" else "/" + Join(parts);
  }

  lemma {:induction false} FoldConcat(stack: seq<string>, a: seq<string>, b: seq<string>)
    ensures Fold(stack, a + b) == Fold(Fold(stack, a), b)
    decreases |a|
  {
    if a == [] {
      assert a + b == b;
    } else {
      assert (a + b)[1..] == a[1..] + b;
      FoldConcat(Step(stack, a[0]), a[1..], b);
    }
  }

  lemma {:induction false} FoldPlain(stack: seq<string>, parts: seq<string>)
    requires Canonical(parts)
    ensures Fold(stack, parts) == stack + parts
    decreases |parts|
  {
    if parts != [] {
      FoldPlain(stack + [parts[0]], parts[1..]);
      assert stack + [parts[0]] + parts[1..] == stack + parts;
    }
  }

  lemma {:induction false} FoldIsCanonical(stack: seq<string>, segs: seq<string>)
    requires Canonical(stack) && forall i :: 0 <= i < |segs| ==> NoSlash(segs[i])
    ensures Canonical(Fold(stack, segs))
    decreases |segs|
  {
    if segs != [] { FoldIsCanonical(Step(stack, segs[0]), segs[1..]); }
  }

  /** Normalising always ends in a canonical component list. */
  lemma CanonIsCanonical(path: string)
    ensures Canonical(Canon(path))
  {
    SplitHasNoSlash(path);
    FoldIsCanonical([], Split(path));
  }

  lemma SplitRender(parts: seq<string>)
    requires Canonical(parts)
    ensures Split(Render(parts)) == [""] + if parts == [] then [""] else parts
  {
    SplitConcat("", Join(parts));
    assert "" + "/" + Join(parts) == Render(parts);
    if parts != [] { SplitJoin(parts); }
  }

  lemma NormalizeIsRender(path: string)
    ensures Normalize(path) == Render(Canon(path))
  {
  }

  lemma CanonRender(parts: seq<string>)
    requires Canonical(parts)
    ensures Canon(Render(parts)) == parts
  {
    SplitRender(parts);
    var tail := if parts == [] then [""] else parts;
    FoldConcat([], [""], tail);
    assert Fold([], [""]) == [];
    if parts != [] {
      FoldPlain([], parts);
      assert [] + parts == parts;
    }
  }

  lemma RenderIsInjective(a: seq<string>, b: seq<string>)
    requires Canonical(a) && Canonical(b) && Render(a) == Render(b)
    ensures a == b
  {
    CanonRender(a);
    CanonRender(b);
  }

  lemma NormalizeIsIdempotent(path: string)
    ensures Normalize(Normalize(path)) == Normalize(path)
    ensures Canon(Normalize(path)) == Canon(path)
  {
    CanonIsCanonical(path);
    CanonRender(Canon(path));
  }

  /** A prefix may be normalised early. */
  lemma NormalizeAbsorbs(x: string, y: string)
    ensures Normalize(Normalize(x) + "/" + y) == Normalize(x + "/" + y)
  {
    NormalizeIsIdempotent(x);
    SplitConcat(Normalize(x), y);
    SplitConcat(x, y);
    FoldConcat([], Split(Normalize(x)), Split(y));
    FoldConcat([], Split(x), Split(y));
  }

  /** What the last segment of a path does: nothing if it is empty or a dot, one level up for two dots
      and never above the root, and a name goes one level down. */
  lemma LastSegment(x: string, seg: string)
    requires NoSlash(seg)
    ensures seg == "" || seg == "." ==> Canon(x + "/" + seg) == Canon(x)
    ensures seg == ".." ==> Canon(x + "/" + seg) == if Canon(x) == [] then [] else Canon(x)[..|Canon(x)| - 1]
    ensures Plain(seg) ==> Canon(x + "/" + seg) == Canon(x) + [seg]
    ensures Canon(seg) == if Plain(seg) then [seg] else []
  {
    CanonOfJoined(x, seg);
    SplitOne(seg);
    OneStep(Canon(x), seg);
    OneStep([], seg);
    assert [] + [seg] == [seg];
  }

  lemma OneStep(stack: seq<string>, seg: string)
    ensures Fold(stack, [seg]) == Step(stack, seg)
  {
    hide Step;
    assert [seg][1..] == [] && Fold(Step(stack, seg), []) == Step(stack, seg);
  }

  // ---------------------------------------------------------------- resolution

  predicate IsAbsolute(path: string) {
    path != "" && path[0] == '/'
  }

  function Resolve(cwd: string, path: string): string {
    if IsAbsolute(path) then Normalize(path) else Normalize(cwd + "/" + path)
  }

  /** Changing directory to `a` and then resolving the relative `b` is resolving `a/b`, unless `a`
      is empty: then `a/b` has become absolute. */
  lemma ResolveComposes(c: string, a: string, b: string)
    requires !IsAbsolute(b)
    requires a != ""
    ensures Resolve(Resolve(c, a), b) == Resolve(c, a + "/" + b)
  {
    var ab := a + "/" + b;
    assert ab[0] == a[0];
    if IsAbsolute(a) {
      NormalizeAbsorbs(a, b);
    } else {
      NormalizeAbsorbs(c + "/" + a, b);
      assert c + "/" + a + "/" + b == c + "/" + ab;
    }
  }

  /** An absolute path ignores the directory it is resolved against, any other starts there. */
  lemma ResolveStarts(cwd: string, path: string)
    ensures path != "" && path[0] == '/' ==> Canon(Resolve(cwd, path)) == Canon(path)
    ensures path == "" || path[0] != '/' ==> Canon(Resolve(cwd, path)) == Canon(cwd + "/" + path)
    ensures Resolve(cwd, path) == Render(Canon(Resolve(cwd, path)))
  {
    hide Canon;
    NormalizeIsIdempotent(path);
    NormalizeIsIdempotent(cwd + "/" + path);
    NormalizeIsRender(path);
    NormalizeIsRender(cwd + "/" + path);
  }

  /** How many levels above its start a relative path climbs at its highest, from `depth` below it. */
  function Climb(segs: seq<string>, depth: nat): nat {
    if segs == [] then 0
    else if segs[0] == "" || segs[0] == "." then Climb(segs[1..], depth)
    else if segs[0] != ".." then Climb(segs[1..], depth + 1)
    else if depth == 0 then 1 + Climb(segs[1..], 0)
    else Climb(segs[1..], depth - 1)
  }

  function Kept(stack: seq<string>, n: nat): seq<string> {
    if n <= |stack| then stack[..|stack| - n] else []
  }

  lemma {:induction false} FoldAbove(stack: seq<string>, t: seq<string>, segs: seq<string>)
    ensures Fold(stack + t, segs) == Kept(stack, Climb(segs, |t|)) + Fold(t, segs)
    decreases |segs|
  {
    if segs == [] {
      assert Kept(stack, 0) == stack;
    } else {
      var rest := segs[1..];
      if segs[0] == "" || segs[0] == "." {
        FoldAbove(stack, t, rest);
      } else if segs[0] != ".." {
        assert stack + t + [segs[0]] == stack + (t + [segs[0]]);
        FoldAbove(stack, t + [segs[0]], rest);
      } else if t == [] {
        var up := if stack == [] then [] else stack[..|stack| - 1];
        assert stack + t == stack && up + [] == up;
        FoldAbove(up, [], rest);
        assert Kept(up, Climb(rest, 0)) == Kept(stack, 1 + Climb(rest, 0));
      } else {
        assert (stack + t)[..|stack + t| - 1] == stack + t[..|t| - 1];
        FoldAbove(stack, t[..|t| - 1], rest);
      }
    }
  }

  lemma CanonOfJoined(x: string, y: string)
    ensures Canon(x + "/" + y) == Fold(Canon(x), Split(y))
  {
    SplitConcat(x, y);
    FoldConcat([], Split(x), Split(y));
  }

  lemma TrailingSlash(x: string)
    ensures Canon(x + "/" + "") == Canon(x) && Canon("") == []
  {
    CanonOfJoined(x, "");
    assert Split("") == [""];
  }

  /** With an empty `a` the two agree exactly when `b` climbs out of the whole directory anyway. */
  lemma ResolveOfEmpty(c: string, b: string)
    requires !IsAbsolute(b)
    ensures Resolve(Resolve(c, ""), b) == Resolve(c, "" + "/" + b) <==> Climb(Split(b), 0) >= |Canon(c)|
  {
    hide Canon;
    hide Fold;
    hide Climb;
    hide Split;
    hide Render;
    var d := Canon(c);
    var x := c + "/" + "";
    TrailingSlash(c);
    NormalizeAbsorbs(x, b);
    NormalizeIsRender(x + "/" + b);
    NormalizeIsRender("" + "/" + b);
    CanonOfJoined(x, b);
    CanonOfJoined("", b);
    FoldAbove(d, [], Split(b));
    assert d + [] == d;
    var k, t := Kept(d, Climb(Split(b), 0)), Fold([], Split(b));
    assert |k + t| == |k| + |t| && (k == [] ==> k + t == t);
    CanonIsCanonical(x + "/" + b);
    CanonIsCanonical("" + "/" + b);
    if Resolve(Resolve(c, ""), b) == Resolve(c, "" + "/" + b) {
      RenderIsInjective(Canon(x + "/" + b), Canon("" + "/" + b));
    }
  }

  // ---------------------------------------------------------------- components and parents

  function TrimSlashes(s: string): string {
    if s != "" && s[0] == '/' then TrimSlashes(s[1..]) else s
  }

  function NonEmpty(segs: seq<string>): seq<string> {
    if segs == [] then [] else if segs[0] == "" then NonEmpty(segs[1..]) else [segs[0]] + NonEmpty(segs[1..])
  }

  function Components(path: string): seq<string> {
    NonEmpty(Split(TrimSlashes(path)))
  }

  lemma {:induction false} NonEmptyOfPlain(parts: seq<string>)
    requires Canonical(parts)
    ensures NonEmpty(parts) == parts
  {
    if parts != [] { NonEmptyOfPlain(parts[1..]); }
  }

  /** `path_components` inverts joining on canonical paths. */
  lemma ComponentsOfRender(parts: seq<string>)
    requires Canonical(parts)
    ensures Components(Render(parts)) == parts
  {
    var j := Join(parts);
    assert Render(parts)[1..] == j;
    if parts == [] {
      assert TrimSlashes(Render(parts)) == "";
      assert Split("") == [""] && [""][1..] == [];
    } else {
      assert j[0] == parts[0][0] && parts[0][0] in parts[0];
      assert TrimSlashes(Render(parts)) == j;
      SplitJoin(parts);
      NonEmptyOfPlain(parts);
    }
  }

  /** The index of the last slash, for a path that has one. */
  function LastSlash(path: string): (i: nat)
    requires '/' in path
    ensures i < |path| && path[i] == '/' && '/' !in path[i + 1..]
  {
    if path[|path| - 1] == '/' then |path| - 1 else LastSlash(path[..|path| - 1])
  }

  lemma LastSlashBound(path: string, i: nat, j: nat)
    requires i < |path| && '/' !in path[i + 1..]
    requires j < |path| && path[j] == '/'
    ensures j <= i
  {
    assert forall k :: i < k < |path| ==> path[k] == path[i + 1..][k - i - 1];
  }

  datatype Parent = NoParent | Parent(parent: string, name: string)

  /** Splits an absolute path at its last slash; the root has no parent. */
  function SplitParent(path: string): Parent
    requires IsAbsolute(path)
  {
    if path == "/" then NoParent
    else
      var i := LastSlash(path);
      Parent(if i == 0 then "/" else path[..i], path[i + 1..])
  }

  lemma SlashThenName(head: string, name: string)
    requires NoSlash(name)
    ensures var path := head + "/" + name;
            LastSlash(path) == |head| && path[..|head|] == head && path[|head| + 1..] == name
  {
    hide LastSlash;
    var path := head + "/" + name;
    assert path[|head|] == '/' && path[|head| + 1..] == name;
    var i := LastSlash(path);
    LastSlashBound(path, i, |head|);
    LastSlashBound(path, |head|, i);
  }

  /** `split_parent` inverts adding a component to a canonical path. */
  lemma SplitParentOfRender(parts: seq<string>, name: string)
    requires Canonical(parts) && Plain(name)
    ensures SplitParent(Render(parts + [name])) == Parent(Render(parts), name)
  {
    hide LastSlash;
    var path := Render(parts + [name]);
    if parts == [] {
      assert parts + [name] == [name];
      assert path == "" + "/" + name;
      SlashThenName("", name);
    } else {
      JoinConcat(parts, [name]);
      assert path == Render(parts) + "/" + name;
      SlashThenName(Render(parts), name);
    }
  }

  lemma RenderConcat(vs: seq<string>, qs: seq<string>)
    requires vs != [] && qs != []
    ensures Render(vs + qs) == Render(vs) + "/" + Join(qs)
  {
    JoinConcat(vs, qs);
  }

  lemma ConsInjective(x: string, a: seq<string>, b: seq<string>, c: seq<string>)
    requires [x] + a == [x] + b + c
    ensures a == b + c
  {
    assert a == ([x] + a)[1..];
    assert b + c == ([x] + b + c)[1..];
  }

  lemma StringPrefixIsComponentwise(vs: seq<string>, ps: seq<string>, rest: string)
    requires Canonical(vs) && Canonical(ps) && vs != [] && ps != []
    requires Render(ps) == Render(vs) + "/" + rest
    ensures ps == vs + Split(rest)
  {
    SplitConcat(Render(vs), rest);
    SplitRender(vs);
    SplitRender(ps);
    ConsInjective("", ps, vs, Split(rest));
  }

  /** Component-wise prefixes are exactly the string prefixes that end at a slash. */
  lemma PrefixIsComponentwise(vs: seq<string>, ps: seq<string>)
    requires Canonical(vs) && Canonical(ps) && vs != []
    ensures (Render(vs) + "/" <= Render(ps)) <==> vs < ps
  {
    var v, p := Render(vs), Render(ps);
    if v + "/" <= p {
      assert ps != [] by { assert |v| >= 1; }
      var rest := p[|v| + 1..];
      assert p == v + "/" + rest;
      StringPrefixIsComponentwise(vs, ps, rest);
    }
    if vs < ps {
      assert ps == vs + ps[|vs|..];
      RenderConcat(vs, ps[|vs|..]);
    }
  }
}
