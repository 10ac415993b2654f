/** The plugin itself: the factory's arguments, what installing it does to
    the host, the `dataLoader` mixin, and the `data` mixin that dispatches
    on the shape of its arguments and merges into the host's cache. */
module Plugin {
  import opened JsValues
  import opened Env
  import opened Paths
  import opened Merge
  import opened Loaders
  import Files

  /** The cache property used when the factory is given no string. */
  const DefaultProp := "cache.data"

  /** The message of the `TypeError` thrown for a key of the wrong type. */
  const InvalidKeyMessage := "expected value to be a string, array or object."

  /** The factory's arguments `(prop, defaults)`: an object in first
      position is the defaults and selects the default property. */
  function Configure(prop: JsVal, defaults: JsVal): (r: (string, JsVal))
    requires prop.Str? || prop.Undefined? || TypeOf(prop) == "object"
    ensures prop.Str? ==> r == (prop.s, defaults)
    ensures prop.Undefined? ==> r == (DefaultProp, defaults)
    ensures !prop.Str? && !prop.Undefined? ==> r == (DefaultProp, prop)
  {
    var (p, d) := if TypeOf(prop) == "object" then (Undefined, prop) else (prop, defaults);
    if p.Undefined? then (DefaultProp, d) else (p.s, d)
  }

  lemma ConfigureExamples()
    ensures Configure(Undefined, Undefined) == ("cache.data", Undefined)
    ensures Configure(Str("foo.bar"), Obj(map["namespace" := Bool(true)])) == ("foo.bar", Obj(map["namespace" := Bool(true)]))
    ensures Configure(Obj(map["namespace" := Bool(true)]), Undefined) == ("cache.data", Obj(map["namespace" := Bool(true)]))
  {
  }

  /** `utils.has(obj, path)`: a value other than `undefined` or `null` is
      stored at the path. */
  predicate Has(tree: JsVal, path: seq<string>): (r: bool)
    ensures r ==> Get(tree, path).Some?
    ensures Get(tree, path).Some? && Get(tree, path).value.Obj? ==> r
  {
    Get(tree, path).Some? && !Get(tree, path).value.Undefined? && !Get(tree, path).value.Null?
  }

  /** What installing the plugin does to the host's properties: the cache
      path gets an empty object unless something is stored there already. */
  function Init(tree: JsVal, prop: string): (r: JsVal)
    ensures Has(tree, Split(prop)) ==> r == tree
    ensures !Has(tree, Split(prop)) ==> Get(r, Split(prop)) == Some(Obj(map[]))
    ensures tree.Obj? ==> r.Obj?
  {
    var path := Split(prop);
    if Has(tree, path) then tree else SetPath(tree, path, Obj(map[]))
  }

  /** After installation the cache path holds a value, so installing again
      leaves the properties alone. */
  lemma InitIdempotent(tree: JsVal, prop: string)
    ensures Has(Init(tree, prop), Split(prop))
    ensures Init(Init(tree, prop), prop) == Init(tree, prop)
  {
  }

  /** Installation touches nothing stored away from the cache path. */
  lemma InitElsewhere(tree: JsVal, prop: string, q: seq<string>)
    requires Diverge(Split(prop), q) && Get(tree, q).Some?
    ensures Get(Init(tree, prop), q) == Get(tree, q)
  {
    if !Has(tree, Split(prop)) {
      SetPathElsewhere(tree, Split(prop), Obj(map[]), q);
    }
  }

  /** `isGlob(key, val)`: a string key with no value, or a key with glob
      characters; glob detection is modelled on strings only. */
  predicate IsGlob(key: JsVal, val: JsVal, w: World): (r: bool)
    ensures r <==> key.Str? && (val.Undefined? || w.hasGlob(key.s))
  {
    (TypeOf(key) == "string" && TypeOf(val) == "undefined") || (key.Str? && w.hasGlob(key.s))
  }

  /** `utils.extend({}, defaults, this.options, val)`: the options handed to a loader. */
  function CallOptions(tree: JsVal, defaults: JsVal, val: JsVal): (r: Options)
    ensures val.Obj? ==> forall k :: k in val.fields ==> k in r && r[k] == val.fields[k]
    ensures var host := GetOr(tree, ["options"]);
      host.Obj? ==> forall k :: k in host.fields && !(val.Obj? && k in val.fields) ==> k in r && r[k] == host.fields[k]
    ensures var host := GetOr(tree, ["options"]);
      defaults.Obj? ==> forall k :: (k in defaults.fields && !(val.Obj? && k in val.fields) && !(host.Obj? && k in host.fields)
                                     ==> k in r && r[k] == defaults.fields[k])
  {
    ExtendPrecedenceAll(defaults, GetOr(tree, ["options"]), val);
    Extend([defaults, GetOr(tree, ["options"]), val])
  }

  /** A key is in the options handed to a loader exactly when the
      defaults, the host's `options` or the call site's options have it. */
  lemma CallOptionsKeys(tree: JsVal, defaults: JsVal, val: JsVal)
    ensures var host := GetOr(tree, ["options"]);
      forall k :: k in CallOptions(tree, defaults, val) <==>
        (defaults.Obj? && k in defaults.fields) || (host.Obj? && k in host.fields) || (val.Obj? && k in val.fields)
  {
    var objs := [defaults, GetOr(tree, ["options"]), val];
    forall k ensures k in Extend(objs) <==>
      (objs[0].Obj? && k in objs[0].fields) || (objs[1].Obj? && k in objs[1].fields) || (objs[2].Obj? && k in objs[2].fields)
    {
      if k in Extend(objs) {
        var i :| 0 <= i < |objs| && objs[i].Obj? && k in objs[i].fields;
      }
    }
  }

  /** What a loader function returns for `fn(key, opts)`. */
  function Load(fn: LoaderFn, key: string, opts: Options, w: World): (r: JsVal)
    ensures fn == RequireData ==> r.Arr? && |r.items| <= |Files.Expansion(key, opts, w)|
    ensures fn.Custom? ==> r == w.load(fn.id, key, opts)
  {
    Files.ReducedLength(Files.Expansion(key, opts, w), opts, w);
    match fn
    case RequireData => Arr(Files.Required(key, opts, w))
    case Custom(id) => w.load(id, key, opts)
  }

  /** The values the glob route merges, in order: the matched loader's
      result, as a list. */
  function Loaded(loaders: seq<Loader>, key: string, opts: Options, w: World): (r: seq<JsVal>)
    requires |loaders| > 0
    ensures Selected(loaders, ExtName(key), w) == RequireData ==>
      r == Files.Shapes(Files.Kept(Files.Expansion(key, opts, w), w), opts, w)
    ensures Selected(loaders, ExtName(key), w).Custom? ==>
      r == Arrayify(w.load(Selected(loaders, ExtName(key), w).id, key, opts))
  {
    Files.ReducedIsKeptShapes(Files.Expansion(key, opts, w), opts, w);
    Arrayify(Load(Selected(loaders, ExtName(key), w), key, opts, w))
  }

  /** The host's properties after `data(key, val)`, or the error it throws. */
  function DataResult(tree: JsVal, loaders: seq<Loader>, prop: string, defaults: JsVal,
                      key: JsVal, val: JsVal, w: World): (r: Result<JsVal>)
    requires |loaders| > 0
    ensures r.Err? <==> !key.Obj? && !key.Str?
    ensures r.Err? ==> r.error == TypeError(InvalidKeyMessage)
    ensures r.Ok? && tree.Obj? ==> r.value.Obj?
  {
    var root := Split(prop);
    if IsObject(key) then Ok(MergeAt(tree, root, key))
    else if IsGlob(key, val, w) then
      Ok(MergeAll(tree, root, Loaded(loaders, key.s, CallOptions(tree, defaults, val), w)))
    else if TypeOf(key) != "string" then Err(TypeError(InvalidKeyMessage))
    else Ok(MergeAt(tree, Split(prop + "." + key.s), val))
  }

  /** An object key is deep-merged into the cache: its non-object leaves
      land at their paths below the cache, and what the cache held where
      the key does not reach stays. */
  lemma DataObject(tree: JsVal, loaders: seq<Loader>, prop: string, defaults: JsVal,
                   key: JsVal, val: JsVal, w: World, q: seq<string>)
    requires |loaders| > 0 && key.Obj?
    ensures var r, root := DataResult(tree, loaders, prop, defaults, key, val, w), Split(prop);
      && r.Ok?
      && (Get(key, q).Some? && !Get(key, q).value.Obj? ==> Get(r.value, root + q) == Get(key, q))
      && (Get(GetOr(tree, root), q).Some? && Untouched(key, q) ==> Get(r.value, root + q) == Get(tree, root + q))
  {
    var root := Split(prop);
    var r := MergeAt(tree, root, key);
    var merged := MergeInto(GetOr(tree, root), key);
    GetAppend(r, root, q);
    GetAppend(tree, root, q);
    if Get(key, q).Some? && !Get(key, q).value.Obj? {
      MergeIntoTakes(GetOr(tree, root), key, q);
    }
    if Get(GetOr(tree, root), q).Some? && Untouched(key, q) {
      MergeIntoKeeps(GetOr(tree, root), key, q);
    }
  }

  /** A string key with a value, when the key is no glob, writes at the
      dotted path `prop.key`: the value itself when it is not an object
      (strings and arrays overwrite), the union of keys when an object
      meets an object. */
  lemma DataKeyValue(tree: JsVal, loaders: seq<Loader>, prop: string, defaults: JsVal,
                     key: JsVal, val: JsVal, w: World)
    requires |loaders| > 0 && key.Str? && !val.Undefined? && !w.hasGlob(key.s)
    ensures var r, path := DataResult(tree, loaders, prop, defaults, key, val, w), Split(prop) + Split(key.s);
      && r == Ok(MergeAt(tree, path, val))
      && (!val.Obj? ==> Get(r.value, path) == Some(val))
      && (val.Obj? && GetOr(tree, path).Obj? ==>
            Get(r.value, path).value.Obj? &&
            Get(r.value, path).value.fields.Keys == GetOr(tree, path).fields.Keys + val.fields.Keys)
  {
    SplitConcat(prop, key.s);
  }

  /** Every step of a path that holds a value holds an object. */
  lemma GetThroughObjects(t: JsVal, p: seq<string>, q: seq<string>)
    requires q != [] && Get(t, p + q).Some?
    ensures Get(t, p).Some? && Get(t, p).value.Obj?
  {
    GetAppend(t, p, q);
  }

  /** Writing `prop.a.b...` leaves an object at the cache and at every
      intermediate step of the key. */
  lemma DataKeyValueNests(tree: JsVal, loaders: seq<Loader>, prop: string, defaults: JsVal,
                          key: JsVal, val: JsVal, w: World, j: nat)
    requires |loaders| > 0 && key.Str? && !val.Undefined? && !w.hasGlob(key.s)
    requires j < |Split(key.s)|
    ensures var r, ks := DataResult(tree, loaders, prop, defaults, key, val, w), Split(key.s);
      && Get(r.value, Split(prop) + ks[..j]).Some?
      && Get(r.value, Split(prop) + ks[..j]).value.Obj?
  {
    DataKeyValue(tree, loaders, prop, defaults, key, val, w);
    var ks := Split(key.s);
    var path := Split(prop) + ks;
    var r := MergeAt(tree, path, val);
    assert path == (Split(prop) + ks[..j]) + ks[j..];
    GetThroughObjects(r, Split(prop) + ks[..j], ks[j..]);
  }

  /** Through the built-in loader, the glob route merges the readable
      script files of the expansion, in order, each wrapped as its options
      say. */
  lemma DataRequired(tree: JsVal, loaders: seq<Loader>, prop: string, defaults: JsVal,
                     key: JsVal, val: JsVal, w: World)
    requires |loaders| > 0 && IsGlob(key, val, w)
    requires Selected(loaders, ExtName(key.s), w) == RequireData
    ensures var opts := CallOptions(tree, defaults, val);
      var files := if w.hasGlob(key.s) then w.expand(key.s, opts) else [key.s];
      DataResult(tree, loaders, prop, defaults, key, val, w)
        == Ok(MergeAll(tree, Split(prop), Files.Shapes(Files.Kept(files, w), opts, w)))
  {
    var opts := CallOptions(tree, defaults, val);
    var files := if w.hasGlob(key.s) then w.expand(key.s, opts) else [key.s];
    Files.ReducedIsKeptShapes(files, opts, w);
  }

  /** A bare path that is not a script or cannot be read leaves the
      properties as they were, without an error. */
  lemma DataMissingFile(tree: JsVal, loaders: seq<Loader>, prop: string, defaults: JsVal,
                        key: JsVal, w: World)
    requires |loaders| > 0 && key.Str? && !w.hasGlob(key.s)
    requires Selected(loaders, ExtName(key.s), w) == RequireData
    requires !Files.IsScript(key.s) || !Truthy(TryRequire(key.s, w))
    ensures DataResult(tree, loaders, prop, defaults, key, Undefined, w) == Ok(tree)
  {
    Files.RequiredMissing(key.s, CallOptions(tree, defaults, Undefined), w);
  }

  /** A glob that matches nothing leaves the properties as they were. */
  lemma DataEmptyGlob(tree: JsVal, loaders: seq<Loader>, prop: string, defaults: JsVal,
                      key: JsVal, val: JsVal, w: World)
    requires |loaders| > 0 && key.Str? && w.hasGlob(key.s)
    requires Selected(loaders, ExtName(key.s), w) == RequireData
    requires w.expand(key.s, CallOptions(tree, defaults, val)) == []
    ensures DataResult(tree, loaders, prop, defaults, key, val, w) == Ok(tree)
  {
  }

  /** Through the built-in loader, a readable script path that is no glob
      loads exactly its own (possibly wrapped) value. */
  lemma LoadedSingle(loaders: seq<Loader>, key: string, opts: Options, w: World)
    requires |loaders| > 0 && !w.hasGlob(key)
    requires Selected(loaders, ExtName(key), w) == RequireData
    requires Files.IsScript(key) && Truthy(TryRequire(key, w))
    ensures Loaded(loaders, key, opts, w) == [Files.Shape(key, opts, w)]
  {
    Files.RequiredSingle(key, opts, w);
  }

  /** Merging a list of one value is merging that value. */
  lemma MergeAllSingle(t: JsVal, path: seq<string>, v: JsVal)
    ensures MergeAll(t, path, [v]) == MergeAt(t, path, v)
  {
    assert [v][..0] == [];
  }

  /** A readable `data.json` path is merged onto the cache itself, whatever
      the namespace options say. */
  lemma DataRootFile(tree: JsVal, loaders: seq<Loader>, prop: string, defaults: JsVal,
                     key: JsVal, w: World)
    requires |loaders| > 0 && key.Str? && !w.hasGlob(key.s)
    requires Selected(loaders, ExtName(key.s), w) == RequireData
    requires Files.IsRootData(key.s) && Truthy(TryRequire(key.s, w))
    ensures DataResult(tree, loaders, prop, defaults, key, Undefined, w)
      == Ok(MergeAt(tree, Split(prop), TryRequire(key.s, w)))
  {
    var opts := CallOptions(tree, defaults, Undefined);
    Files.RootDataIsScript(key.s);
    LoadedSingle(loaders, key.s, opts, w);
    MergeAllSingle(tree, Split(prop), TryRequire(key.s, w));
  }

  /** With `namespace` or `renameKey` set, a readable file other than
      `data.json` is merged under the key its rename gives, below the cache. */
  lemma DataNamespacedFile(tree: JsVal, loaders: seq<Loader>, prop: string, defaults: JsVal,
                           key: JsVal, w: World)
    requires |loaders| > 0 && key.Str? && !w.hasGlob(key.s)
    requires Selected(loaders, ExtName(key.s), w) == RequireData
    requires Files.IsScript(key.s) && !Files.IsRootData(key.s) && Truthy(TryRequire(key.s, w))
    requires Files.Namespaced(CallOptions(tree, defaults, Undefined))
    ensures var opts := CallOptions(tree, defaults, Undefined);
      var path := Split(prop) + [Files.Rename(key.s, opts, w)];
      var r := DataResult(tree, loaders, prop, defaults, key, Undefined, w);
      r.Ok? && Get(r.value, path) == Some(MergeInto(GetOr(tree, path), TryRequire(key.s, w)))
  {
    var opts := CallOptions(tree, defaults, Undefined);
    var k := Files.Rename(key.s, opts, w);
    var wrapped := Obj(map[k := TryRequire(key.s, w)]);
    LoadedSingle(loaders, key.s, opts, w);
    assert Files.Shape(key.s, opts, w) == wrapped;
    MergeAllSingle(tree, Split(prop), wrapped);
    NamespacedEntry(tree, Split(prop), k, TryRequire(key.s, w));
  }

  /** Merging `{k: v}` at a path merges `v` at the path's child `k`. */
  lemma NamespacedEntry(tree: JsVal, root: seq<string>, k: string, v: JsVal)
    ensures Get(MergeAt(tree, root, Obj(map[k := v])), root + [k]) == Some(MergeInto(GetOr(tree, root + [k]), v))
  {
    var r := MergeAt(tree, root, Obj(map[k := v]));
    GetAppend(r, root, [k]);
    GetAppend(tree, root, [k]);
    var prev := GetOr(tree, root);
    if prev.Obj? {
      assert GetOr(tree, root + [k]) == Lookup(prev.fields, k);
    } else {
      assert GetOr(tree, root + [k]) == Undefined;
    }
  }

  /** The host object the plugin is installed on, reduced to what the
      plugin reads and writes. */
  class App {
    /** The host's own properties; the cache sits at the path `prop`. */
    var tree: JsVal
    /** `dataLoaders`, in registration order. */
    var loaders: seq<Loader>
    /** The cache path and default options the host was configured with. */
    var prop: string
    var defaults: JsVal
    /** Whether the `data` and `dataLoader` mixins are present. */
    var installed: bool

    ghost predicate Valid()
      reads this
    {
      tree.Obj? && (installed ==> |loaders| > 0)
    }

    /** A host with the given own properties and no loaders. */
    constructor (props: map<string, JsVal>)
      ensures Valid() && !installed
      ensures tree == Obj(props) && loaders == []
    {
      tree := Obj(props);
      loaders := [];
      prop := DefaultProp;
      defaults := Undefined;
      installed := false;
    }

    /** `app.use(plugin(propArg, defaultsArg))`. */
    method Use(propArg: JsVal, defaultsArg: JsVal)
      requires Valid()
      requires propArg.Str? || propArg.Undefined? || TypeOf(propArg) == "object"
      modifies this
      ensures Valid() && installed
      ensures (prop, defaults) == Configure(propArg, defaultsArg)
      ensures tree == Init(old(tree), prop)
      ensures loaders == old(loaders) + [JsonLoader]
    {
      var c := Configure(propArg, defaultsArg);
      prop, defaults := c.0, c.1;
      var path := Split(prop);
      if !Has(tree, path) {
        tree := SetPath(tree, path, Obj(map[]));
      }
      var self := DataLoader(JsonLoader.name, JsonLoader.fn);
      installed := true;
    }

    /** `app.dataLoader(name, fn)`: registers a loader after all others. */
    method DataLoader(name: LoaderName, fn: LoaderFn) returns (self: App)
      requires Valid()
      modifies this`loaders
      ensures Valid() && self == this
      ensures loaders == old(loaders) + [Loader(name, fn)]
    {
      loaders := loaders + [Loader(name, fn)];
      self := this;
    }

    /** `app.data(key, val)`: returns the host, or the error it throws. */
    method Data(key: JsVal, val: JsVal, w: World) returns (r: Result<App>)
      requires Valid() && installed
      modifies this`tree
      ensures Valid()
      ensures match DataResult(old(tree), loaders, prop, defaults, key, val, w)
        case Ok(t) => tree == t && r == Ok(this)
        case Err(e) => tree == old(tree) && r == Err(e)
    {
      ghost var res := DataResult(tree, loaders, prop, defaults, key, val, w);
      if IsObject(key) {
        assert res == Ok(MergeAt(tree, Split(prop), key));
        tree := MergeAt(tree, Split(prop), key);
        return Ok(this);
      }
      if IsGlob(key, val, w) {
        assert res == Ok(MergeAll(tree, Split(prop), Loaded(loaders, key.s, CallOptions(tree, defaults, val), w)));
        var files := LoadFiles(key.s, val, w);
        MergeFiles(files);
        return Ok(this);
      }
      if TypeOf(key) != "string" {
        assert res == Err(TypeError(InvalidKeyMessage));
        return Err(TypeError(InvalidKeyMessage));
      }
      assert res == Ok(MergeAt(tree, Split(prop + "." + key.s), val));
      tree := MergeAt(tree, Split(prop + "." + key.s), val);
      return Ok(this);
    }

    /** The loading step of the glob route: the options merged from the
        defaults, the host's `options` and `val`, the matched loader, and
        its result as a list. */
    method LoadFiles(key: string, val: JsVal, w: World) returns (files: seq<JsVal>)
      requires |loaders| > 0
      ensures files == Loaded(loaders, key, CallOptions(tree, defaults, val), w)
      ensures var opts, fn := CallOptions(tree, defaults, val), Selected(loaders, ExtName(key), w);
        && (fn == RequireData ==> files == Files.Shapes(Files.Kept(Files.Expansion(key, opts, w), w), opts, w))
        && (fn.Custom? ==> files == Arrayify(w.load(fn.id, key, opts)))
    {
      var opts := CallOptions(tree, defaults, val);
      var fn := MatchLoader(loaders, key, w);
      var loaded: JsVal;
      match fn {
        case RequireData =>
          var arr := Files.RequireData(key, opts, w);
          loaded := Arr(arr);
        case Custom(id) =>
          loaded := w.load(id, key, opts);
      }
      files := Arrayify(loaded);
    }

    /** `files.forEach(file => utils.merge(this, prop, file))`. */
    method MergeFiles(files: seq<JsVal>)
      requires Valid()
      modifies this`tree
      ensures Valid()
      ensures tree == MergeAll(old(tree), Split(prop), files)
    {
      var root := Split(prop);
      for i := 0 to |files|
        invariant tree == MergeAll(old(tree), root, files[..i])
      {
        assert files[..i + 1][..i] == files[..i];
        tree := MergeAt(tree, root, files[i]);
      }
      assert files[..|files|] == files;
    }
  }
}
