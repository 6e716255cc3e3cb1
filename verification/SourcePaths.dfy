/**
 Paths as the builder computes them: absolute paths are lists of segments, extensions follow Node's
 `path.extname`, and `resolve` walks "." and ".." and never climbs above the file-system root.
 */
module SourcePaths {
  import opened Wrappers

  type Path = seq<string>

  // ---------------------------------------------------------------- names and extensions

  function LastDot(name: string): (i: int)
    ensures -1 <= i < |name|
    ensures i >= 0 ==> name[i] == '.'
    ensures forall j :: i < j < |name| ==> name[j] != '.'
  {
    if name == "" then -1
    else if name[|name| - 1] == '.' then |name| - 1
    else LastDot(name[..|name| - 1])
  }

  /** A name that starts with its only dot has no extension, and neither has "..". */
  function ExtAt(name: string): (i: nat)
    ensures i <= |name|
  {
    var dot := LastDot(name);
    if dot <= 0 || name == ".." then |name| else dot
  }

  function Ext(name: string): string {
    name[ExtAt(name)..]
  }

  function Stem(name: string): string {
    name[..ExtAt(name)]
  }

  /** The source extensions in the order in which the builder tries them. */
  const SOURCE_EXTENSIONS: seq<string> := [".ts", ".tsx", ".mts", ".cts"]

  predicate IsSourceExt(ext: string) {
    ext == ".ts" || ext == ".tsx" || ext == ".mts" || ext == ".cts"
  }

  predicate IsRuntimeExt(ext: string) {
    ext == ".cjs" || ext == ".js" || ext == ".json" || ext == ".mjs"
  }

  function JsExt(ext: string): string {
    if ext == ".cts" then ".cjs" else if ext == ".mts" then ".mjs" else ".js"
  }

  /** The file name under which a source with this name is emitted. */
  function OutputName(name: string): string {
    Stem(name) + JsExt(Ext(name))
  }

  lemma AppendedExt(base: string, ext: string)
    requires base != "" && |ext| >= 2 && ext[0] == '.' && forall i :: 0 < i < |ext| ==> ext[i] != '.'
    ensures Ext(base + ext) == ext && Stem(base + ext) == base
  {
    var name := base + ext;
    assert name[|base|] == '.';
    assert forall j :: |base| < j < |name| ==> name[j] == ext[j - |base|];
    assert LastDot(name) == |base|;
  }

  lemma SplitName(name: string)
    ensures Stem(name) + Ext(name) == name
    ensures Ext(name) != "" ==> Stem(name) != "" && Ext(name)[0] == '.' && name != "." && name != ".."
  {
  }

  lemma JsSuffixes(a: string, b: string, x: string, y: string)
    ensures a + JsExt(x) == b + JsExt(y) <==> a == b && JsExt(x) == JsExt(y)
  {
    var s, t := a + JsExt(x), b + JsExt(y);
    if s == t {
      assert s[|s| - 3] == t[|t| - 3];
      assert JsExt(x) == JsExt(y) by {
        assert s[|a|] == '.' && t[|b|] == '.';
        assert s[|s| - |JsExt(x)|..] == JsExt(x) && t[|t| - |JsExt(y)|..] == JsExt(y);
      }
      assert a == s[..|s| - |JsExt(x)|] && b == t[..|t| - |JsExt(y)|];
    }
  }

  /** The names under which sources and other files are emitted. */
  lemma OutputNames(stem: string)
    requires stem != ""
    ensures OutputName(stem + ".ts") == stem + ".js" && OutputName(stem + ".tsx") == stem + ".js"
    ensures OutputName(stem + ".mts") == stem + ".mjs" && OutputName(stem + ".cts") == stem + ".cjs"
    ensures OutputName(stem + ".js") == stem + ".js"
  {
    AppendedExt(stem, ".ts");
    AppendedExt(stem, ".tsx");
    AppendedExt(stem, ".mts");
    AppendedExt(stem, ".cts");
    AppendedExt(stem, ".js");
  }

  /** What counts as an extension: from the last dot on, except in names that have no other than a leading dot. */
  lemma Extensions(stem: string, ext: string)
    requires forall i :: 0 <= i < |ext| ==> ext[i] != '.'
    ensures stem != "" && ext != "" ==> Ext(stem + "." + ext) == "." + ext && Stem(stem + "." + ext) == stem
    ensures Ext("." + ext) == "" && Ext(ext) == "" && Ext("..") == ""
  {
    if stem != "" && ext != "" {
      AppendedExt(stem, "." + ext);
      assert stem + "." + ext == stem + ("." + ext);
    }
    var hidden := "." + ext;
    assert hidden[0] == '.' && forall j :: 0 < j < |hidden| ==> hidden[j] == ext[j - 1];
    assert LastDot(hidden) == 0 && LastDot(ext) == -1;
  }

  predicate OnlyTsAgainstTsx(x: string, y: string) {
    (x == ".ts" && y == ".tsx") || (x == ".tsx" && y == ".ts")
  }

  /** Two sources in one directory are emitted to the same file exactly when they differ in ".ts" against ".tsx"
      only. */
  lemma SameOutputName(a: string, b: string)
    requires IsSourceExt(Ext(a)) && IsSourceExt(Ext(b))
    ensures OutputName(a) == OutputName(b) <==>
      a == b || (Stem(a) == Stem(b) && OnlyTsAgainstTsx(Ext(a), Ext(b)))
  {
    SplitName(a);
    SplitName(b);
    JsSuffixes(Stem(a), Stem(b), Ext(a), Ext(b));
  }

  // ---------------------------------------------------------------- resolving

  function Step(dir: Path, segment: string): Path {
    if segment == "" || segment == "." then dir
    else if segment == ".." then (if dir == [] then [] else dir[..|dir| - 1])
    else dir + [segment]
  }

  function Resolve(dir: Path, segments: seq<string>): Path {
    if segments == [] then dir
    else Step(Resolve(dir, segments[..|segments| - 1]), segments[|segments| - 1])
  }

  lemma {:induction false} ResolveAppend(dir: Path, a: seq<string>, b: seq<string>)
    ensures Resolve(dir, a + b) == Resolve(Resolve(dir, a), b)
  {
    if b == [] {
      assert a + b == a;
    } else {
      assert (a + b)[..|a + b| - 1] == a + b[..|b| - 1];
      ResolveAppend(dir, a, b[..|b| - 1]);
    }
  }

  lemma ResolveOne(dir: Path, segment: string)
    ensures Resolve(dir, [segment]) == Step(dir, segment)
  {
    assert [segment][..0] == [] && Resolve(dir, []) == dir;
  }

  /** Resolving names goes down by them. */
  lemma {:induction false} NamesGoDown(dir: Path, names: seq<string>)
    requires forall i :: 0 <= i < |names| ==> names[i] !in {"", ".", ".."}
    ensures Resolve(dir, names) == dir + names
  {
    if names != [] {
      NamesGoDown(dir, names[..|names| - 1]);
    }
  }

  /** As many parent segments come back up, further ones stop at the file-system root, and a dot goes nowhere. */
  lemma {:induction false} ParentsGoUp(dir: Path, names: Path, ups: seq<string>)
    requires |ups| == |names| && forall i :: 0 <= i < |ups| ==> ups[i] == ".."
    ensures Resolve(dir + names, ups) == dir
    ensures Resolve([], [".."]) == [] && Resolve(dir, ["."]) == dir && Resolve(dir, [""]) == dir
  {
    ResolveOne([], "..");
    ResolveOne(dir, ".");
    ResolveOne(dir, "");
    if names == [] {
      assert dir + names == dir;
    } else {
      ParentsGoUp(dir, names[..|names| - 1], ups[1..]);
      ResolveOne(dir + names, "..");
      assert (dir + names)[..|dir + names| - 1] == dir + names[..|names| - 1];
      ResolveAppend(dir + names, [".."], ups[1..]);
      assert ups == [".."] + ups[1..];
    }
  }

  /** The effect of a list of segments on any directory: climb `ups` levels, then descend `names`. */
  datatype Walk = Walk(ups: nat, names: seq<string>)

  function WalkOf(segments: seq<string>): Walk {
    if segments == [] then Walk(0, [])
    else
      var w, s := WalkOf(segments[..|segments| - 1]), segments[|segments| - 1];
      if s == "" || s == "." then w
      else if s != ".." then w.(names := w.names + [s])
      else if w.names == [] then w.(ups := w.ups + 1)
      else w.(names := w.names[..|w.names| - 1])
  }

  function Climb(dir: Path, ups: nat): Path {
    dir[..if ups <= |dir| then |dir| - ups else 0]
  }

  lemma {:induction false} ResolveIsWalk(dir: Path, segments: seq<string>)
    ensures Resolve(dir, segments) == Climb(dir, WalkOf(segments).ups) + WalkOf(segments).names
  {
    if segments != [] {
      var init := segments[..|segments| - 1];
      ResolveIsWalk(dir, init);
      var w := WalkOf(init);
      if segments[|segments| - 1] == ".." && w.names == [] {
        assert Climb(dir, w.ups) + [] == Climb(dir, w.ups);
      }
    }
  }

  /** The part of `root` that a walk from `root + d` leaves and names again. */
  function Reentered(root: Path, d: Path, segments: seq<string>): Path
    requires WalkOf(segments).ups > |d|
  {
    root[|Climb(root, WalkOf(segments).ups - |d|)|..]
  }

  /** Moving a tree from `root` to `app` keeps the meaning of a relative path that ends inside the tree,
      if the path stays inside, or if climbing out of `app` and descending the same names leads back to `app`. */
  predicate SurvivesMove(root: Path, app: Path, d: Path, segments: seq<string>) {
    WalkOf(segments).ups > |d| ==>
      Climb(app, WalkOf(segments).ups - |d|) + Reentered(root, d, segments) == app
  }

  lemma Cancel(a: Path, b: Path, c: Path)
    requires a + b == a + c
    ensures b == c
  {
    assert (a + b)[|a|..] == b && (a + c)[|a|..] == c;
  }

  lemma MovedPath(root: Path, app: Path, d: Path, segments: seq<string>, target: Path)
    requires Resolve(root + d, segments) == root + target
    ensures Resolve(app + d, segments) == app + target <==> SurvivesMove(root, app, d, segments)
  {
    ResolveIsWalk(root + d, segments);
    ResolveIsWalk(app + d, segments);
    if WalkOf(segments).ups <= |d| {
      MovedInside(root, app, d, WalkOf(segments), target);
    } else {
      MovedOutside(root, app, WalkOf(segments).ups - |d|, WalkOf(segments).names, target);
      assert Climb(root + d, WalkOf(segments).ups) == Climb(root, WalkOf(segments).ups - |d|);
      assert Climb(app + d, WalkOf(segments).ups) == Climb(app, WalkOf(segments).ups - |d|);
    }
  }

  lemma MovedInside(root: Path, app: Path, d: Path, w: Walk, target: Path)
    requires w.ups <= |d| && Climb(root + d, w.ups) + w.names == root + target
    ensures Climb(app + d, w.ups) + w.names == app + target
  {
    assert Climb(root + d, w.ups) == root + Climb(d, w.ups);
    assert Climb(app + d, w.ups) == app + Climb(d, w.ups);
    assert root + (Climb(d, w.ups) + w.names) == root + target;
    Cancel(root, Climb(d, w.ups) + w.names, target);
  }

  lemma MovedOutside(root: Path, app: Path, k: nat, names: seq<string>, target: Path)
    requires Climb(root, k) + names == root + target
    ensures Climb(app, k) + names == app + target <==> Climb(app, k) + root[|Climb(root, k)|..] == app
  {
    var again := root[|Climb(root, k)|..];
    assert root == Climb(root, k) + again;
    assert Climb(root, k) + names == Climb(root, k) + (again + target);
    Cancel(Climb(root, k), names, again + target);
    var back := Climb(app, k) + again;
    assert Climb(app, k) + names == back + target;
    if back + target == app + target {
      assert |back| == |app| && (back + target)[..|back|] == back && (app + target)[..|app|] == app;
    }
  }
}
