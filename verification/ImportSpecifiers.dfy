/**
 Rewriting of relative import specifiers in emitted files, and what it preserves.

 A specifier is the list of its slash-separated segments, none of them empty. `files` are the paths that exist
 when the importing file is emitted.
 */
module ImportSpecifiers {
  import opened Wrappers
  import opened SourcePaths

  type Specifier = s: seq<string> | s != [] && forall i :: 0 <= i < |s| ==> s[i] != "" witness ["."]

  function Last(s: seq<string>): string
    requires s != []
  {
    s[|s| - 1]
  }

  function Init(s: seq<string>): seq<string>
    requires s != []
  {
    s[..|s| - 1]
  }

  // ---------------------------------------------------------------- candidates on disk

  /** String concatenation of an extension to a path lands on its last segment. */
  function FileCandidate(base: Path, ext: string): Path {
    if base == [] then [ext] else Init(base) + [Last(base) + ext]
  }

  function IndexCandidate(base: Path, ext: string): Path {
    base + ["index" + ext]
  }

  /** The candidate with extension number `k` exists. */
  predicate IsFile(base: Path, files: set<Path>, k: nat) {
    k < |SOURCE_EXTENSIONS| && FileCandidate(base, SOURCE_EXTENSIONS[k]) in files
  }

  predicate IsIndex(base: Path, files: set<Path>, k: nat) {
    k < |SOURCE_EXTENSIONS| && IndexCandidate(base, SOURCE_EXTENSIONS[k]) in files
  }

  /** The first source extension at or after position `i` whose file candidate exists. */
  function FirstFile(base: Path, files: set<Path>, i: nat): Option<string>
    decreases |SOURCE_EXTENSIONS| - i
  {
    if i >= |SOURCE_EXTENSIONS| then None
    else if IsFile(base, files, i) then Some(SOURCE_EXTENSIONS[i])
    else FirstFile(base, files, i + 1)
  }

  /** The first source extension at or after position `i` whose index candidate exists. */
  function FirstIndex(base: Path, files: set<Path>, i: nat): Option<string>
    decreases |SOURCE_EXTENSIONS| - i
  {
    if i >= |SOURCE_EXTENSIONS| then None
    else if IsIndex(base, files, i) then Some(SOURCE_EXTENSIONS[i])
    else FirstIndex(base, files, i + 1)
  }

  // ---------------------------------------------------------------- rewriting

  function AppendToLast(s: Specifier, suffix: string): (r: Specifier) {
    Init(s) + [Last(s) + suffix]
  }

  function FromDisk(base: Path, s: Specifier, files: set<Path>): Specifier {
    match FirstFile(base, files, 0)
    case Some(ext) => AppendToLast(s, JsExt(ext))
    case None => FromIndex(base, s, files)
  }

  function FromIndex(base: Path, s: Specifier, files: set<Path>): Specifier {
    match FirstIndex(base, files, 0)
    case Some(ext) => s + ["index" + JsExt(ext)]
    case None => s
  }

  function Rewrite(dir: Path, s: Specifier, files: set<Path>): Specifier {
    if s[0][0] != '.' || IsRuntimeExt(Ext(Last(s))) then s
    else if IsSourceExt(Ext(Last(s))) then
      SplitName(Last(s));
      Init(s) + [Stem(Last(s)) + JsExt(Ext(Last(s)))]
    else FromDisk(Resolve(dir, s), s, files)
  }

  method ResolveFileImportSpecifier(dir: Path, s: Specifier, files: set<Path>) returns (r: Option<Specifier>)
    ensures r == match FirstFile(Resolve(dir, s), files, 0)
                 case Some(ext) => Some(AppendToLast(s, JsExt(ext)))
                 case None => None
    ensures r.None? <==> forall k :: 0 <= k < |SOURCE_EXTENSIONS| ==> !IsFile(Resolve(dir, s), files, k)
    ensures r.Some? ==> exists k ::
      && 0 <= k < |SOURCE_EXTENSIONS| && IsFile(Resolve(dir, s), files, k)
      && (forall j :: 0 <= j < k ==> !IsFile(Resolve(dir, s), files, j))
      && r.value == AppendToLast(s, JsExt(SOURCE_EXTENSIONS[k]))
  {
    var base := Resolve(dir, s);
    for i := 0 to |SOURCE_EXTENSIONS|
      invariant FirstFile(base, files, 0) == FirstFile(base, files, i)
      invariant forall j :: 0 <= j < i ==> !IsFile(base, files, j)
    {
      if FileCandidate(base, SOURCE_EXTENSIONS[i]) in files {
        assert IsFile(base, files, i);
        return Some(AppendToLast(s, JsExt(SOURCE_EXTENSIONS[i])));
      }
    }
    return None;
  }

  method ResolveIndexImportSpecifier(dir: Path, s: Specifier, files: set<Path>) returns (r: Option<Specifier>)
    ensures r == match FirstIndex(Resolve(dir, s), files, 0)
                 case Some(ext) => Some(s + ["index" + JsExt(ext)])
                 case None => None
    ensures r.None? <==> forall k :: 0 <= k < |SOURCE_EXTENSIONS| ==> !IsIndex(Resolve(dir, s), files, k)
    ensures r.Some? ==> exists k ::
      && 0 <= k < |SOURCE_EXTENSIONS| && IsIndex(Resolve(dir, s), files, k)
      && (forall j :: 0 <= j < k ==> !IsIndex(Resolve(dir, s), files, j))
      && r.value == s + ["index" + JsExt(SOURCE_EXTENSIONS[k])]
  {
    var base := Resolve(dir, s);
    for i := 0 to |SOURCE_EXTENSIONS|
      invariant FirstIndex(base, files, 0) == FirstIndex(base, files, i)
      invariant forall j :: 0 <= j < i ==> !IsIndex(base, files, j)
    {
      if IndexCandidate(base, SOURCE_EXTENSIONS[i]) in files {
        assert IsIndex(base, files, i);
        return Some(s + ["index" + JsExt(SOURCE_EXTENSIONS[i])]);
      }
    }
    return None;
  }

  method ResolveRelativeRuntimeSpecifier(dir: Path, s: Specifier, files: set<Path>) returns (r: Specifier)
    ensures r == Rewrite(dir, s, files)
    ensures r == s <==>
      || s[0][0] != '.' || Ext(Last(s)) in {".cjs", ".js", ".json", ".mjs"}
      || (!IsSourceExt(Ext(Last(s))) && NamesNothing(dir, s, files))
  {
    KeptSpecifiers(dir, s, files);
    if s[0][0] != '.' { return s; }
    var extension := Ext(Last(s));
    if IsRuntimeExt(extension) { return s; }
    if IsSourceExt(extension) {
      SplitName(Last(s));
      return Init(s) + [Stem(Last(s)) + JsExt(extension)];
    }
    var file := ResolveFileImportSpecifier(dir, s, files);
    if file.Some? { return file.value; }
    var index := ResolveIndexImportSpecifier(dir, s, files);
    return index.GetOr(s);
  }

  // ---------------------------------------------------------------- rewriting is idempotent

  lemma JsExtIsRuntime(base: string, ext: string)
    requires base != ""
    ensures Ext(base + JsExt(ext)) == JsExt(ext) && IsRuntimeExt(JsExt(ext))
  {
    AppendedExt(base, JsExt(ext));
  }

  lemma RewrittenEndsInRuntimeExt(dir: Path, s: Specifier, files: set<Path>)
    ensures var r := Rewrite(dir, s, files); r == s || IsRuntimeExt(Ext(Last(r)))
  {
    SplitName(Last(s));
    if s[0][0] == '.' && !IsRuntimeExt(Ext(Last(s))) {
      if IsSourceExt(Ext(Last(s))) {
        JsExtIsRuntime(Stem(Last(s)), Ext(Last(s)));
      } else if FirstFile(Resolve(dir, s), files, 0).Some? {
        JsExtIsRuntime(Last(s), FirstFile(Resolve(dir, s), files, 0).value);
      } else if FirstIndex(Resolve(dir, s), files, 0).Some? {
        JsExtIsRuntime("index", FirstIndex(Resolve(dir, s), files, 0).value);
      }
    }
  }

  lemma RewriteTwice(dir: Path, s: Specifier, files: set<Path>)
    ensures Rewrite(dir, Rewrite(dir, s, files), files) == Rewrite(dir, s, files)
  {
    RewrittenEndsInRuntimeExt(dir, s, files);
  }

  // ---------------------------------------------------------------- what is left as it is

  lemma {:induction false} NoFileFound(base: Path, files: set<Path>, i: nat)
    requires i <= |SOURCE_EXTENSIONS|
    ensures FirstFile(base, files, i).None? <==> forall k :: i <= k < |SOURCE_EXTENSIONS| ==> !IsFile(base, files, k)
    decreases |SOURCE_EXTENSIONS| - i
  {
    if i < |SOURCE_EXTENSIONS| {
      NoFileFound(base, files, i + 1);
    }
  }

  lemma {:induction false} NoIndexFound(base: Path, files: set<Path>, i: nat)
    requires i <= |SOURCE_EXTENSIONS|
    ensures FirstIndex(base, files, i).None? <==> forall k :: i <= k < |SOURCE_EXTENSIONS| ==> !IsIndex(base, files, k)
    decreases |SOURCE_EXTENSIONS| - i
  {
    if i < |SOURCE_EXTENSIONS| {
      NoIndexFound(base, files, i + 1);
    }
  }

  /** Neither a source file nor a directory index is found for the specifier. */
  predicate NamesNothing(dir: Path, s: Specifier, files: set<Path>) {
    forall k :: 0 <= k < |SOURCE_EXTENSIONS| ==>
      !IsFile(Resolve(dir, s), files, k) && !IsIndex(Resolve(dir, s), files, k)
  }

  /** A specifier is left as it is exactly when it is not relative, has a runtime extension already, or has no source
      extension and names nothing that is there. */
  lemma KeptSpecifiers(dir: Path, s: Specifier, files: set<Path>)
    ensures Rewrite(dir, s, files) == s <==>
      || s[0][0] != '.'
      || Ext(Last(s)) in {".cjs", ".js", ".json", ".mjs"}
      || (!IsSourceExt(Ext(Last(s))) && NamesNothing(dir, s, files))
  {
    SplitName(Last(s));
    NoFileFound(Resolve(dir, s), files, 0);
    NoIndexFound(Resolve(dir, s), files, 0);
    if s[0][0] == '.' && !IsRuntimeExt(Ext(Last(s))) && (IsSourceExt(Ext(Last(s))) || !NamesNothing(dir, s, files)) {
      RewrittenDiffers(dir, s, files);
    }
  }

  /** What a relative specifier without an extension becomes, by what is on disk. */
  lemma ExtensionlessSpecifier(dir: Path, s: Specifier, files: set<Path>)
    requires s[0][0] == '.'
    requires !IsRuntimeExt(Ext(Last(s))) && !IsSourceExt(Ext(Last(s)))
    ensures var base, r := Resolve(dir, s), Rewrite(dir, s, files);
      if FileCandidate(base, ".ts") in files || FileCandidate(base, ".tsx") in files then
        r == Init(s) + [Last(s) + ".js"]
      else if FileCandidate(base, ".mts") in files then r == Init(s) + [Last(s) + ".mjs"]
      else if FileCandidate(base, ".cts") in files then r == Init(s) + [Last(s) + ".cjs"]
      else r == FromIndex(base, s, files)
  {
    FirstFileOfFour(Resolve(dir, s), files);
  }

  lemma IndexSpecifier(base: Path, s: Specifier, files: set<Path>)
    ensures var r := FromIndex(base, s, files);
      if base + ["index.ts"] in files || base + ["index.tsx"] in files then r == s + ["index.js"]
      else if base + ["index.mts"] in files then r == s + ["index.mjs"]
      else if base + ["index.cts"] in files then r == s + ["index.cjs"]
      else r == s
  {
    FirstIndexOfFour(base, files);
    assert "index" + ".js" == "index.js" && "index" + ".mjs" == "index.mjs" && "index" + ".cjs" == "index.cjs";
  }

  lemma FirstFileOfFour(base: Path, files: set<Path>)
    ensures FirstFile(base, files, 0) ==
      if FileCandidate(base, ".ts") in files then Some(".ts")
      else if FileCandidate(base, ".tsx") in files then Some(".tsx")
      else if FileCandidate(base, ".mts") in files then Some(".mts")
      else if FileCandidate(base, ".cts") in files then Some(".cts")
      else None
  {
    assert FirstFile(base, files, 2) ==
      if IsFile(base, files, 2) then Some(".mts") else if IsFile(base, files, 3) then Some(".cts") else None;
  }

  lemma FirstIndexOfFour(base: Path, files: set<Path>)
    ensures FirstIndex(base, files, 0) ==
      if base + ["index.ts"] in files then Some(".ts")
      else if base + ["index.tsx"] in files then Some(".tsx")
      else if base + ["index.mts"] in files then Some(".mts")
      else if base + ["index.cts"] in files then Some(".cts")
      else None
  {
    assert "index" + ".ts" == "index.ts" && "index" + ".tsx" == "index.tsx";
    assert "index" + ".mts" == "index.mts" && "index" + ".cts" == "index.cts";
    assert FirstIndex(base, files, 2) ==
      if IsIndex(base, files, 2) then Some(".mts") else if IsIndex(base, files, 3) then Some(".cts") else None;
  }

  lemma RewrittenDiffers(dir: Path, s: Specifier, files: set<Path>)
    requires s[0][0] == '.' && !IsRuntimeExt(Ext(Last(s)))
    requires || IsSourceExt(Ext(Last(s))) || FirstFile(Resolve(dir, s), files, 0).Some?
             || FirstIndex(Resolve(dir, s), files, 0).Some?
    ensures Rewrite(dir, s, files) != s
  {
    SplitName(Last(s));
    if IsSourceExt(Ext(Last(s))) {
      JsExtIsRuntime(Stem(Last(s)), Ext(Last(s)));
    }
  }

  // ---------------------------------------------------------------- what a specifier names

  datatype Form = WithExtension | WithoutExtension | DirectoryIndex

  predicate IsName(segment: string) {
    segment != "" && segment != "." && segment != ".."
  }

  /** `q` is the source that `s`, read from directory `dir`, names in the given form; `ext` is its extension. */
  predicate Names(form: Form, dir: Path, s: Specifier, q: Path, ext: string) {
    && s[0][0] == '.'
    && IsSourceExt(ext)
    && match form
       case WithExtension => Ext(Last(s)) == ext && q == Resolve(dir, s)
       case WithoutExtension => IsName(Last(s)) && q == Resolve(dir, Init(s)) + [Last(s) + ext]
       case DirectoryIndex => q == Resolve(dir, s) + ["index" + ext]
  }

  /** The segments that lead to the directory of the named source. */
  function DirectoryPart(form: Form, s: Specifier): seq<string> {
    if form == DirectoryIndex then s else Init(s)
  }

  function OutputPath(root: Path, app: Path, q: Path): Path
    requires |q| > |root|
  {
    app + q[|root|..|q| - 1] + [OutputName(Last(q))]
  }

  /** When the rewritten specifier finds the emitted file of the source that the specifier names. */
  predicate Links(form: Form, dir: Path, s: Specifier, ext: string, files: set<Path>) {
    match form
    case WithExtension => true
    case WithoutExtension =>
      && !IsRuntimeExt(Ext(Last(s))) && !IsSourceExt(Ext(Last(s)))
      && FirstFile(Resolve(dir, s), files, 0).Some?
      && JsExt(FirstFile(Resolve(dir, s), files, 0).value) == JsExt(ext)
    case DirectoryIndex =>
      && !IsRuntimeExt(Ext(Last(s))) && !IsSourceExt(Ext(Last(s)))
      && FirstFile(Resolve(dir, s), files, 0).None?
      && FirstIndex(Resolve(dir, s), files, 0).Some?
      && JsExt(FirstIndex(Resolve(dir, s), files, 0).value) == JsExt(ext)
  }

  lemma NameEnds(s: Specifier, dir: Path)
    requires IsName(Last(s))
    ensures Resolve(dir, s) == Resolve(dir, Init(s)) + [Last(s)]
  {
  }

  lemma Tail(a: Path, b: Path, x: string, y: string)
    ensures a + [x] == b + [y] <==> a == b && x == y
  {
    if a + [x] == b + [y] {
      assert (a + [x])[..|a|] == a && (b + [y])[..|b|] == b && (a + [x])[|a|] == x && (b + [y])[|b|] == y;
    }
  }

  /**
   For a source in directory `root + d` and a specifier that names the existing source `q` under `root`, emitted
   below `app`: the rewritten specifier, read from the output directory, is the output path of `q` exactly when
   `Links` holds. The other condition, on climbing above `root`, is exact as well (SourcePaths.MovedPath).
   */
  lemma RewrittenImportFindsOutput(
    form: Form, root: Path, app: Path, d: Path, s: Specifier, q: Path, ext: string, files: set<Path>)
    requires Names(form, root + d, s, q, ext)
    requires q in files && |q| > |root| && q[..|root|] == root
    requires SurvivesMove(root, app, d, DirectoryPart(form, s))
    ensures Resolve(app + d, Rewrite(root + d, s, files)) == OutputPath(root, app, q)
            <==> Links(form, root + d, s, ext, files)
  {
    var target := q[|root|..|q| - 1];
    SplitName(Last(s));
    match form
    case WithExtension =>
      NameEnds(s, root + d);
      Directory(form, root, app, d, s, q);
      ExplicitLinks(root, app, d, s, q, files);
    case WithoutExtension =>
      Directory(form, root, app, d, s, q);
      ExtensionlessLinks(root, app, d, s, q, ext, files);
    case DirectoryIndex =>
      Directory(form, root, app, d, s, q);
      IndexLinks(root, app, d, s, q, ext, files);
  }

  /** The directory of the named source moves along with the tree. */
  lemma Directory(form: Form, root: Path, app: Path, d: Path, s: Specifier, q: Path)
    requires |q| > |root| && q[..|root|] == root
    requires Init(q) == Resolve(root + d, DirectoryPart(form, s))
    requires SurvivesMove(root, app, d, DirectoryPart(form, s))
    ensures Resolve(app + d, DirectoryPart(form, s)) == app + q[|root|..|q| - 1]
  {
    assert Init(q) == root + q[|root|..|q| - 1];
    MovedPath(root, app, d, DirectoryPart(form, s), q[|root|..|q| - 1]);
  }

  lemma ReplacedLast(out: Path, s: Specifier, x: string)
    requires IsName(x)
    ensures Resolve(out, Init(s) + [x]) == Resolve(out, Init(s)) + [x]
  {
    assert Init(Init(s) + [x]) == Init(s);
  }

  lemma ExplicitLinks(root: Path, app: Path, d: Path, s: Specifier, q: Path, files: set<Path>)
    requires s[0][0] == '.' && IsSourceExt(Ext(Last(s))) && |q| > |root|
    requires q == Resolve(root + d, Init(s)) + [Last(s)]
    requires Resolve(app + d, Init(s)) == app + q[|root|..|q| - 1]
    ensures Resolve(app + d, Rewrite(root + d, s, files)) == OutputPath(root, app, q)
  {
    SplitName(Last(s));
    JsExtIsRuntime(Stem(Last(s)), Ext(Last(s)));
    ReplacedLast(app + d, s, OutputName(Last(s)));
  }

  lemma FirstFileExists(base: Path, files: set<Path>, i: nat, ext: string)
    requires ext in SOURCE_EXTENSIONS[if i <= |SOURCE_EXTENSIONS| then i else |SOURCE_EXTENSIONS|..]
    requires FileCandidate(base, ext) in files
    ensures FirstFile(base, files, i).Some? && IsSourceExt(FirstFile(base, files, i).value)
    decreases |SOURCE_EXTENSIONS| - i
  {
    if FileCandidate(base, SOURCE_EXTENSIONS[i]) !in files {
      FirstFileExists(base, files, i + 1, ext);
    }
  }

  lemma FirstIndexExists(base: Path, files: set<Path>, i: nat, ext: string)
    requires ext in SOURCE_EXTENSIONS[if i <= |SOURCE_EXTENSIONS| then i else |SOURCE_EXTENSIONS|..]
    requires IndexCandidate(base, ext) in files
    ensures FirstIndex(base, files, i).Some? && IsSourceExt(FirstIndex(base, files, i).value)
    decreases |SOURCE_EXTENSIONS| - i
  {
    if IndexCandidate(base, SOURCE_EXTENSIONS[i]) !in files {
      FirstIndexExists(base, files, i + 1, ext);
    }
  }

  /** What becomes of the last segment of a specifier for which a file candidate with extension `found` exists. */
  function RewrittenName(last: string, found: string): string {
    if IsRuntimeExt(Ext(last)) then last
    else if IsSourceExt(Ext(last)) then OutputName(last)
    else last + JsExt(found)
  }

  lemma OutputOfAppended(last: string, ext: string)
    requires IsName(last) && IsSourceExt(ext)
    ensures OutputName(last + ext) == last + JsExt(ext)
  {
    AppendedExt(last, ext);
  }

  lemma OutputNameIsShort(name: string)
    requires IsSourceExt(Ext(name))
    ensures |OutputName(name)| <= |name| + 1 && IsName(OutputName(name))
  {
    SplitName(name);
    assert |Stem(name)| + |Ext(name)| == |name|;
  }

  lemma RewrittenNameIsOutput(last: string, found: string, ext: string)
    requires IsName(last) && IsSourceExt(ext)
    ensures RewrittenName(last, found) == OutputName(last + ext) <==>
      !IsRuntimeExt(Ext(last)) && !IsSourceExt(Ext(last)) && JsExt(found) == JsExt(ext)
    ensures IsName(RewrittenName(last, found))
  {
    OutputOfAppended(last, ext);
    if IsSourceExt(Ext(last)) {
      OutputNameIsShort(last);
    }
    assert (last + JsExt(found))[|last|..] == JsExt(found) && (last + JsExt(ext))[|last|..] == JsExt(ext);
  }

  lemma RewrittenExtensionless(dir: Path, s: Specifier, q: Path, ext: string, files: set<Path>)
    requires s[0][0] == '.' && IsName(Last(s)) && IsSourceExt(ext) && q in files
    requires q == Resolve(dir, Init(s)) + [Last(s) + ext]
    ensures FirstFile(Resolve(dir, s), files, 0).Some?
    ensures Rewrite(dir, s, files) == Init(s) + [RewrittenName(Last(s), FirstFile(Resolve(dir, s), files, 0).value)]
  {
    NameEnds(s, dir);
    assert FileCandidate(Resolve(dir, s), ext) == q;
    FirstFileExists(Resolve(dir, s), files, 0, ext);
    RewrittenWhenFound(dir, s, FirstFile(Resolve(dir, s), files, 0).value, files);
  }

  lemma RewrittenWhenFound(dir: Path, s: Specifier, found: string, files: set<Path>)
    requires s[0][0] == '.' && FirstFile(Resolve(dir, s), files, 0) == Some(found)
    ensures Rewrite(dir, s, files) == Init(s) + [RewrittenName(Last(s), found)]
  {
    assert s == Init(s) + [Last(s)];
  }

  lemma ExtensionlessLinks(root: Path, app: Path, d: Path, s: Specifier, q: Path, ext: string, files: set<Path>)
    requires s[0][0] == '.' && IsName(Last(s)) && IsSourceExt(ext) && |q| > |root| && q in files
    requires q == Resolve(root + d, Init(s)) + [Last(s) + ext]
    requires Resolve(app + d, Init(s)) == app + q[|root|..|q| - 1]
    ensures Resolve(app + d, Rewrite(root + d, s, files)) == OutputPath(root, app, q)
            <==> Links(WithoutExtension, root + d, s, ext, files)
  {
    RewrittenExtensionless(root + d, s, q, ext, files);
    var name := RewrittenName(Last(s), FirstFile(Resolve(root + d, s), files, 0).value);
    RewrittenNameIsOutput(Last(s), FirstFile(Resolve(root + d, s), files, 0).value, ext);
    ReplacedLast(app + d, s, name);
    Tail(Resolve(app + d, Init(s)), app + q[|root|..|q| - 1], name, OutputName(Last(s) + ext));
  }

  /** A specifier of a directory whose last segment is taken for a file name does not reach the directory's index. */
  lemma FileFormMissesIndex(out: Path, s: Specifier, x: string, js: string)
    requires IsName(x) && (!IsName(Last(s)) ==> x[0] == '.')
    ensures Resolve(out, Init(s) + [x]) != Resolve(out, s) + ["index" + js]
  {
    ReplacedLast(out, s, x);
    Tail(Resolve(out, Init(s)), Resolve(out, s), x, "index" + js);
    if IsName(Last(s)) {
      NameEnds(s, out);
    } else {
      assert ("index" + js)[0] == 'i';
    }
  }

  lemma IndexMissed(dir: Path, out: Path, s: Specifier, js: string, files: set<Path>)
    requires s[0][0] == '.'
    requires IsRuntimeExt(Ext(Last(s))) || IsSourceExt(Ext(Last(s))) || FirstFile(Resolve(dir, s), files, 0).Some?
    ensures Resolve(out, Rewrite(dir, s, files)) != Resolve(out, s) + ["index" + js]
  {
    var last := Last(s);
    SplitName(last);
    if IsRuntimeExt(Ext(last)) {
      assert |Resolve(out, s)| < |Resolve(out, s) + ["index" + js]|;
    } else if IsSourceExt(Ext(last)) {
      OutputNameIsShort(last);
      FileFormMissesIndex(out, s, OutputName(last), js);
    } else {
      var x := last + JsExt(FirstFile(Resolve(dir, s), files, 0).value);
      assert x[0] == last[0] && |x| > 2;
      FileFormMissesIndex(out, s, x, js);
    }
  }

  lemma IndexLinks(root: Path, app: Path, d: Path, s: Specifier, q: Path, ext: string, files: set<Path>)
    requires s[0][0] == '.' && IsSourceExt(ext) && |q| > |root| && q in files
    requires q == Resolve(root + d, s) + ["index" + ext]
    requires Resolve(app + d, s) == app + q[|root|..|q| - 1]
    ensures Resolve(app + d, Rewrite(root + d, s, files)) == OutputPath(root, app, q)
            <==> Links(DirectoryIndex, root + d, s, ext, files)
  {
    var base, out := Resolve(root + d, s), app + d;
    OutputOfAppended("index", ext);
    FirstIndexExists(base, files, 0, ext);
    assert OutputPath(root, app, q) == Resolve(out, s) + ["index" + JsExt(ext)];
    if IsRuntimeExt(Ext(Last(s))) || IsSourceExt(Ext(Last(s))) || FirstFile(base, files, 0).Some? {
      IndexMissed(root + d, out, s, JsExt(ext), files);
    } else {
      IndexFound(out, s, JsExt(FirstIndex(base, files, 0).value), JsExt(ext));
    }
  }

  lemma IndexFound(out: Path, s: Specifier, x: string, y: string)
    ensures Resolve(out, s + ["index" + x]) == Resolve(out, s) + ["index" + y] <==> x == y
  {
    assert ("index" + x)[5..] == x && ("index" + y)[5..] == y;
    assert ("index" + x)[0] == 'i';
    assert Init(s + ["index" + x]) == s;
    Tail(Resolve(out, s), Resolve(out, s), "index" + x, "index" + y);
  }

  /** The specifier names the existing source `q`, and the rewritten one does not find the emitted file of `q`. */
  predicate Breaks(form: Form, root: Path, app: Path, d: Path, s: Specifier, q: Path, ext: string, files: set<Path>) {
    && Names(form, root + d, s, q, ext) && q in files && |q| > |root| && q[..|root|] == root
    && Resolve(app + d, Rewrite(root + d, s, files)) != OutputPath(root, app, q)
  }

  /** An import that loses its meaning: "./a.js" for the source a.js.ts, emitted as a.js.js. */
  lemma RuntimeLookalikeBreaks(app: Path)
    ensures Breaks(WithoutExtension, ["p"], app, [], [".", "a.js"], ["p", "a.js.ts"], ".ts", {["p", "a.js.ts"]})
  {
    var s: Specifier, q := [".", "a.js"], ["p", "a.js.ts"];
    assert s[..1] == ["."] && ["p"] + [] == ["p"];
    assert "a" + ".js" == "a.js" && "a.js" + ".ts" == "a.js.ts";
    AppendedExt("a", ".js");
    assert Resolve(["p"], Init(s)) == ["p"];
    assert q == Resolve(["p"], Init(s)) + [Last(s) + ".ts"];
    assert WalkOf(Init(s)).ups == 0;
    RewrittenImportFindsOutput(WithoutExtension, ["p"], app, [], s, q, ".ts", {q});
  }

  /** Another: "../.." for a directory with an index, next to a source file of the directory's name. */
  lemma ParentDirectoryBesideFileBreaks(app: Path)
    ensures Breaks(DirectoryIndex, ["p"], app, ["lib", "x", "y"], ["..", ".."], ["p", "lib", "index.ts"], ".ts",
                   {["p", "lib", "index.ts"], ["p", "lib.ts"]})
  {
    var d, s: Specifier, q := ["lib", "x", "y"], ["..", ".."], ["p", "lib", "index.ts"];
    var files := {q, ["p", "lib.ts"]};
    assert ["p"] + d == ["p", "lib", "x", "y"];
    assert s[..1] == [".."] && [".."][..0] == [];
    assert Resolve(["p"] + d, [".."]) == ["p", "lib", "x"];
    assert Resolve(["p"] + d, s) == ["p", "lib"];
    assert "index" + ".ts" == "index.ts" && "lib" + ".ts" == "lib.ts";
    assert FileCandidate(["p", "lib"], ".ts") == ["p", "lib.ts"];
    assert FirstFile(["p", "lib"], files, 0) == Some(".ts");
    assert WalkOf(s[..1]) == Walk(1, []);
    RewrittenImportFindsOutput(DirectoryIndex, ["p"], app, d, s, q, ".ts", files);
  }
}
