/** POSIX path handling as Node's `path` module does it for the sync engine.
    An absolute, normalised path is the sequence of its segments. */
module Paths {
  import opened Strings

  type Path = seq<string>

  /** A segment a normalised path may hold. */
  predicate IsSegment(x: string) {
    x != "" && x != "." && x != ".." && '/' !in x
  }

  predicate Clean(p: seq<string>) {
    forall i :: 0 <= i < |p| ==> IsSegment(p[i])
  }

  predicate NoSlash(p: seq<string>) {
    forall i :: 0 <= i < |p| ==> '/' !in p[i]
  }

  /** One step of normalisation: '' and '.' vanish, '..' climbs (never above
      the root), anything else descends. */
  function Step(acc: Path, seg: string): Path {
    if seg == "" || seg == "." then acc
    else if seg == ".." then (if |acc| == 0 then acc else acc[..|acc| - 1])
    else acc + [seg]
  }

  /** Normalising the segments `segs` below the directory `acc`. */
  function Fold(acc: Path, segs: seq<string>): (r: Path)
    ensures Clean(acc) && NoSlash(segs) ==> Clean(r)
    decreases |segs|
  {
    if segs == [] then acc else Fold(Step(acc, segs[0]), segs[1..])
  }

  /** `path.resolve(cwd, s)`: an absolute string ignores `cwd`. */
  function Resolve(cwd: Path, s: string): Path {
    if StartsWith(s, "/") then Fold([], Split(s, '/')) else Fold(cwd, Split(s, '/'))
  }

  /** `path.join(base, rel)` for an absolute normalised `base`. */
  function JoinPath(base: Path, rel: string): Path {
    Fold(base, Split(rel, '/'))
  }

  /** The string Node prints for an absolute normalised path. */
  function Render(p: Path): string {
    "/" + Join(p, '/')
  }

  /** `path.dirname` of an absolute normalised path (the root is its own). */
  function Dirname(p: Path): Path {
    if |p| == 0 then [] else p[..|p| - 1]
  }

  function Basename(p: Path): string {
    if |p| == 0 then "" else p[|p| - 1]
  }

  function CommonPrefix(a: Path, b: Path): (k: nat)
    ensures k <= |a| && k <= |b| && a[..k] == b[..k]
    ensures k < |a| && k < |b| ==> a[k] != b[k]
    decreases |a|
  {
    if |a| == 0 || |b| == 0 || a[0] != b[0] then 0
    else 1 + CommonPrefix(a[1..], b[1..])
  }

  function Ups(n: nat): seq<string> {
    seq(n, _ => "..")
  }

  /** `path.relative(from, to)` for two absolute normalised paths. */
  function Relative(from: Path, to: Path): string {
    var k := CommonPrefix(from, to);
    Join(Ups(|from| - k) + to[k..], '/')
  }

  /** `s.replace(/\/+/g, '/')`: every run of '/' becomes one '/'. */
  function Collapse(s: string): string
    decreases |s|
  {
    if |s| < 2 then s
    else if s[0] == '/' && s[1] == '/' then Collapse(s[1..])
    else [s[0]] + Collapse(s[1..])
  }

  /** A manifest entry already written as a normalised relative path. */
  predicate NormalisedRelative(e: string) {
    e != "" && Clean(Split(e, '/'))
  }

  // ---------------------------------------------------------------------
  // Facts about normalisation

  lemma {:induction false} FoldAppend(acc: Path, x: seq<string>, y: seq<string>)
    ensures Fold(acc, x + y) == Fold(Fold(acc, x), y)
    decreases |x|
  {
    if x == [] {
      assert x + y == y;
    } else {
      assert (x + y)[0] == x[0] && (x + y)[1..] == x[1..] + y;
      FoldAppend(Step(acc, x[0]), x[1..], y);
      assert Fold(acc, x + y) == Fold(Step(acc, x[0]), x[1..] + y);
    }
  }

  lemma {:induction false} FoldClean(acc: Path, x: seq<string>)
    requires Clean(x)
    ensures Fold(acc, x) == acc + x
    decreases |x|
  {
    if x != [] {
      FoldClean(acc + [x[0]], x[1..]);
      assert acc + [x[0]] + x[1..] == acc + x;
    }
  }

  lemma RenderSplit(p: Path)
    requires Clean(p) && |p| >= 1
    ensures Split(Render(p), '/') == [""] + p
  {
    assert Render(p) == [] + ['/'] + Join(p, '/');
    SplitConcatSep([], Join(p, '/'), '/');
    SplitJoin(p, '/');
  }

  /** A normalised absolute path resolves to itself. */
  lemma ResolveRender(cwd: Path, p: Path)
    requires Clean(p)
    ensures Resolve(cwd, Render(p)) == p
  {
    assert StartsWith(Render(p), "/");
    if |p| == 0 {
      assert Render(p) == "/";
      assert "/"[1..] == [];
      assert Split(Render(p), '/') == [[], []];
      assert Fold([], [[], []]) == Fold([], [[]]) == Fold([], []);
    } else {
      RenderSplit(p);
      FoldClean([], p);
      assert Fold([], [""] + p) == Fold([], p);
    }
  }

  /** Collapsing runs of '/' keeps the first segment and does not change
      what the remaining segments normalise to. */
  lemma {:induction false} CollapseSplit(s: string, acc: Path)
    ensures Split(Collapse(s), '/')[0] == Split(s, '/')[0]
    ensures Fold(acc, Split(Collapse(s), '/')[1..]) == Fold(acc, Split(s, '/')[1..])
    decreases |s|
  {
    if |s| < 2 {
    } else {
      var r := s[1..];
      assert Split(s, '/') == (if s[0] == '/' then [[]] + Split(r, '/')
                               else [[s[0]] + Split(r, '/')[0]] + Split(r, '/')[1..]);
      if s[0] == '/' && s[1] == '/' {
        assert Collapse(s) == Collapse(r);
        CollapseSplit(r, acc);
        assert Split(r, '/') == [[]] + Split(r[1..], '/');
        assert Split(s, '/')[1..] == [""] + Split(r, '/')[1..];
      } else if s[0] == '/' {
        var c := Collapse(r);
        assert Collapse(s) == ['/'] + c;
        assert (['/'] + c)[1..] == c;
        assert Split(Collapse(s), '/') == [[]] + Split(c, '/');
        var h := Split(r, '/')[0];
        CollapseSplit(r, Step(acc, h));
        assert Split(c, '/') == [h] + Split(c, '/')[1..];
        assert Split(r, '/') == [h] + Split(r, '/')[1..];
      } else {
        var c := Collapse(r);
        assert Collapse(s) == [s[0]] + c;
        assert ([s[0]] + c)[1..] == c;
        CollapseSplit(r, acc);
      }
    }
  }

  lemma {:induction false} CollapseHead(s: string)
    requires s != []
    ensures Collapse(s) != [] && Collapse(s)[0] == s[0]
    decreases |s|
  {
    if |s| >= 2 && s[0] == '/' && s[1] == '/' {
      CollapseHead(s[1..]);
    }
  }

  /** Collapsing runs of '/' never changes the file a path names. */
  lemma ResolveCollapse(cwd: Path, s: string)
    ensures Resolve(cwd, Collapse(s)) == Resolve(cwd, s)
  {
    if s != [] {
      CollapseHead(s);
      var acc := if s[0] == '/' then [] else cwd;
      var a := Split(s, '/');
      var b := Split(Collapse(s), '/');
      CollapseSplit(s, Step(acc, a[0]));
      assert a == [a[0]] + a[1..];
      assert b == [b[0]] + b[1..];
    }
  }

  lemma RelativeBelow(a: Path, b: seq<string>)
    requires |b| >= 1
    ensures Relative(a, a + b) == Join(b, '/')
  {
    var k := CommonPrefix(a, a + b);
    assert k == |a|;
    assert (a + b)[k..] == b;
    assert Ups(0) + b == b;
  }
}
