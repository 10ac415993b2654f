/** Turning a list of file paths into the list of values to merge: which
    paths are read, which reads are dropped, and which values are wrapped
    under a key derived from the path (`reduceFiles`, `namespaceFile`,
    `rename`, `requireData`). */
module Files {
  import opened JsValues
  import opened Env
  import opened Paths

  /** `/\.(js(?:on)?)/.test(fp)`: the path contains ".js" (every ".json"
      contains it too). */
  predicate IsScript(fp: string)
  {
    Contains(fp, ".js")
  }

  /** `/data\.json/.test(fp)`: the path contains "data.json". */
  predicate IsRootData(fp: string)
  {
    Contains(fp, "data.json")
  }

  /** Neither test is anchored: a path is a script path exactly when ".js"
      occurs at some index of it, and root data exactly when "data.json" does. */
  lemma PathTestsOccur(fp: string)
    ensures IsScript(fp) <==> exists i: nat :: OccursAt(fp, ".js", i)
    ensures IsRootData(fp) <==> exists i: nat :: OccursAt(fp, "data.json", i)
  {
    ContainsOccurs(fp, ".js");
    ContainsOccurs(fp, "data.json");
  }

  /** The script test matches anywhere in the path: a ".jsx" or ".json5"
      file, a ".jshintrc" and "notes.js.md" all pass. */
  lemma ScriptPathExamples()
    ensures IsScript("x.jsx") && IsScript("a.json5") && IsScript(".jshintrc") && IsScript("notes.js.md")
  {
    ContainsAt("x.jsx", ".js", 1);
    ContainsAt("a.json5", ".js", 1);
    ContainsAt(".jshintrc", ".js", 0);
    ContainsAt("notes.js.md", ".js", 5);
  }

  /** A path without ".js" in it is not read by the built-in loader. */
  lemma NotScriptExample()
    ensures !IsScript("a.yml")
  {
    PathTestsOccur("a.yml");
    forall i: nat | i + 3 <= |"a.yml"| ensures !OccursAt("a.yml", ".js", i) {
      assert "a.yml"[i..i + 3][1] == "a.yml"[i + 1];
    }
  }

  /** The root-data test matches anywhere too: "metadata.json" and
      "data.json.bak" land at the root of the cache. */
  lemma RootDataExamples()
    ensures IsRootData("metadata.json") && IsRootData("data.json.bak")
  {
    ContainsAt("metadata.json", "data.json", 4);
    ContainsAt("data.json.bak", "data.json", 0);
  }

  /** `opts.namespace || opts.renameKey`. */
  predicate Namespaced(opts: Options): (r: bool)
    ensures Lookup(opts, "namespace").Func? || Lookup(opts, "renameKey").Func? ==> r
    ensures Lookup(opts, "namespace") == Bool(true) ==> r
    ensures "namespace" !in opts && "renameKey" !in opts ==> !r
  {
    Truthy(Lookup(opts, "namespace")) || Truthy(Lookup(opts, "renameKey"))
  }

  /** `rename(fp, opts)`: starts from `name`, replaced by a `namespace`
      function, replaced in turn by a `renameKey` function. */
  function Rename(fp: string, opts: Options, w: World): (r: string)
    ensures Lookup(opts, "renameKey").Func? ==> r == w.call(Lookup(opts, "renameKey").id, fp)
    ensures !Lookup(opts, "renameKey").Func? && Lookup(opts, "namespace").Func?
      ==> r == w.call(Lookup(opts, "namespace").id, fp)
    ensures !Lookup(opts, "renameKey").Func? && !Lookup(opts, "namespace").Func? ==> r == Name(fp)
  {
    var ns := Lookup(opts, "namespace");
    var rk := Lookup(opts, "renameKey");
    assert TypeOf(ns) == "function" <==> ns.Func?;
    assert TypeOf(rk) == "function" <==> rk.Func?;
    var renameFn: Option<nat> := None;
    var renameFn := if TypeOf(ns) == "function" then Some(ns.id) else renameFn;
    var renameFn := if TypeOf(rk) == "function" then Some(rk.id) else renameFn;
    match renameFn
    case Some(f) => w.call(f, fp)
    case None => Name(fp)
  }

  /** `namespaceFile(fp, val, opts)`: `{[rename(fp, opts)]: val}`. */
  function NamespaceFile(fp: string, val: JsVal, opts: Options, w: World): (r: JsVal)
    ensures r.Obj? && r.fields.Keys == {Rename(fp, opts, w)}
    ensures r.fields[Rename(fp, opts, w)] == val
  {
    Obj(map[Rename(fp, opts, w) := val])
  }

  /** What one path adds to the result of `reduceFiles`: nothing, or one value. */
  function Contribution(fp: string, opts: Options, w: World): (r: seq<JsVal>)
    ensures |r| <= 1
    ensures r == [] <==> !IsScript(fp) || !Truthy(TryRequire(fp, w))
    ensures r != [] && IsRootData(fp) ==> r == [TryRequire(fp, w)]
    ensures r != [] && !IsRootData(fp) && Namespaced(opts) ==>
      r[0].Obj? && r[0].fields == map[Rename(fp, opts, w) := TryRequire(fp, w)]
    ensures r != [] && !IsRootData(fp) && !Namespaced(opts) ==> r == [TryRequire(fp, w)]
  {
    if !IsScript(fp) then []
    else
      var val := TryRequire(fp, w);
      if !Truthy(val) then []
      else if IsRootData(fp) then [val]
      else if Namespaced(opts) then [NamespaceFile(fp, val, opts, w)]
      else [val]
  }

  /** The values `reduceFiles` collects, path by path. */
  function Reduced(files: seq<string>, opts: Options, w: World): seq<JsVal>
    decreases |files|
  {
    if files == [] then []
    else Reduced(files[..|files| - 1], opts, w) + Contribution(files[|files| - 1], opts, w)
  }

  /** `reduceFiles(files, opts)`. */
  method ReduceFiles(files: seq<string>, opts: Options, w: World) returns (arr: seq<JsVal>)
    ensures arr == Reduced(files, opts, w)
  {
    arr := [];
    var i := 0;
    while i < |files|
      invariant 0 <= i <= |files|
      invariant arr == Reduced(files[..i], opts, w)
    {
      var fp := files[i];
      assert files[..i + 1][..i] == files[..i];
      i := i + 1;
      if IsScript(fp) {
        var val := TryRequire(fp, w);
        if !Truthy(val) {
          continue;
        }
        if IsRootData(fp) {
          arr := arr + [val];
          continue;
        }
        if Namespaced(opts) {
          arr := arr + [NamespaceFile(fp, val, opts, w)];
          continue;
        }
        arr := arr + [val];
      }
    }
    assert files[..i] == files;
  }

  /** The paths that are read successfully, in their original order. */
  function Kept(files: seq<string>, w: World): (r: seq<string>)
    decreases |files|
  {
    if files == [] then []
    else if IsScript(files[0]) && Truthy(TryRequire(files[0], w)) then [files[0]] + Kept(files[1..], w)
    else Kept(files[1..], w)
  }

  /** The value a kept path contributes. */
  function Shape(fp: string, opts: Options, w: World): JsVal
  {
    var val := TryRequire(fp, w);
    if !IsRootData(fp) && Namespaced(opts) then NamespaceFile(fp, val, opts, w) else val
  }

  function Shapes(fps: seq<string>, opts: Options, w: World): (r: seq<JsVal>)
    ensures |r| == |fps|
    ensures forall i :: 0 <= i < |fps| ==> r[i] == Shape(fps[i], opts, w)
    decreases |fps|
  {
    if fps == [] then [] else [Shape(fps[0], opts, w)] + Shapes(fps[1..], opts, w)
  }

  /** Reducing two lists one after the other is reducing their concatenation. */
  lemma {:induction false} ReducedAppend(a: seq<string>, b: seq<string>, opts: Options, w: World)
    ensures Reduced(a + b, opts, w) == Reduced(a, opts, w) + Reduced(b, opts, w)
    decreases |b|
  {
    if b == [] {
      assert a + b == a;
    } else {
      var b0, x := b[..|b| - 1], b[|b| - 1];
      assert (a + b)[..|a + b| - 1] == a + b0;
      assert (a + b)[|a + b| - 1] == x;
      ReducedAppend(a, b0, opts, w);
      assert Reduced(a + b, opts, w) == Reduced(a + b0, opts, w) + Contribution(x, opts, w);
      assert Reduced(b, opts, w) == Reduced(b0, opts, w) + Contribution(x, opts, w);
    }
  }

  /** `reduceFiles` keeps the input order and drops exactly the paths that
      do not look like scripts and those whose read is falsy. */
  lemma {:induction false} ReducedIsKeptShapes(files: seq<string>, opts: Options, w: World)
    ensures Reduced(files, opts, w) == Shapes(Kept(files, w), opts, w)
    decreases |files|
  {
    if files != [] {
      var fp := files[0];
      assert files == [fp] + files[1..];
      ReducedAppend([fp], files[1..], opts, w);
      assert [fp][..0] == [];
      assert Reduced([fp], opts, w) == Contribution(fp, opts, w);
      ReducedIsKeptShapes(files[1..], opts, w);
    }
  }

  /** `reduceFiles` returns at most one value per path. */
  lemma {:induction false} ReducedLength(files: seq<string>, opts: Options, w: World)
    ensures |Reduced(files, opts, w)| <= |files|
    decreases |files|
  {
    if files != [] {
      ReducedLength(files[..|files| - 1], opts, w);
    }
  }

  /** Every `data.json` path is also a script path, so it is never dropped for its name. */
  lemma RootDataIsScript(fp: string)
    requires IsRootData(fp)
    ensures IsScript(fp)
  {
    assert StartsWith("data.json", "data.js");
    ContainsPrefix(fp, "data.json", "data.js");
    ContainsByLastChars(fp, "data.js", ".js");
  }

  /** The paths `requireData` reduces: a pattern without glob characters
      is one path, a glob is expanded. */
  function Expansion(pattern: string, opts: Options, w: World): (r: seq<string>)
    ensures !w.hasGlob(pattern) ==> r == [pattern]
    ensures w.hasGlob(pattern) ==> r == w.expand(pattern, opts)
  {
    if w.hasGlob(pattern) then w.expand(pattern, opts) else [pattern]
  }

  /** What `requireData(patterns, opts)` returns. */
  function Required(pattern: string, opts: Options, w: World): seq<JsVal>
  {
    Reduced(Expansion(pattern, opts, w), opts, w)
  }

  /** `requireData(patterns, opts)`: in order, the shaped value of every
      readable script path the pattern names. */
  method RequireData(pattern: string, opts: Options, w: World) returns (arr: seq<JsVal>)
    ensures arr == Shapes(Kept(Expansion(pattern, opts, w), w), opts, w)
  {
    if !w.hasGlob(pattern) {
      arr := ReduceFiles([pattern], opts, w);
    } else {
      var files := w.expand(pattern, opts);
      arr := ReduceFiles(files, opts, w);
    }
    ReducedIsKeptShapes(Expansion(pattern, opts, w), opts, w);
  }

  /** A single path that is not a script, or cannot be read, loads nothing:
      `requireData` reports no error for it. */
  lemma RequiredMissing(pattern: string, opts: Options, w: World)
    requires !w.hasGlob(pattern)
    requires !IsScript(pattern) || !Truthy(TryRequire(pattern, w))
    ensures Required(pattern, opts, w) == []
  {
    assert [pattern][..0] == [];
    assert Reduced([pattern], opts, w) == Contribution(pattern, opts, w);
  }

  /** A glob that matches nothing loads nothing. */
  lemma RequiredEmptyGlob(pattern: string, opts: Options, w: World)
    requires w.hasGlob(pattern) && w.expand(pattern, opts) == []
    ensures Required(pattern, opts, w) == []
  {
  }

  /** A readable single path loads exactly its (possibly wrapped) value. */
  lemma RequiredSingle(pattern: string, opts: Options, w: World)
    requires !w.hasGlob(pattern)
    requires IsScript(pattern) && Truthy(TryRequire(pattern, w))
    ensures Required(pattern, opts, w) == [Shape(pattern, opts, w)]
  {
    assert [pattern][..0] == [];
    assert Reduced([pattern], opts, w) == Contribution(pattern, opts, w);
  }
}
