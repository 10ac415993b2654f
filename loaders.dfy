/** The ordered registry of data loaders: `formatExt`, the matching rule
    of a loader's name against a file extension, and `matchLoader`, which
    picks the first loader that matches and otherwise the first one
    registered. */
module Loaders {
  import opened JsValues
  import opened Env
  import opened Paths

  /** A loader's `name`: a string extension, a `RegExp` (by identifier),
      or any other value, which never matches. */
  datatype LoaderName = Named(s: string) | Pattern(id: nat) | Neither

  /** A loader's `fn`: the built-in `requireData`, or a user function. */
  datatype LoaderFn = RequireData | Custom(id: nat)

  datatype Loader = Loader(name: LoaderName, fn: LoaderFn)

  /** The loader the plugin registers when it is installed. */
  const JsonLoader := Loader(Named("json"), RequireData)

  /** `formatExt`: the extension with a leading dot. */
  function FormatExt(ext: string): (r: string)
    ensures |r| > 0 && r[0] == '.'
    ensures |ext| > 0 && ext[0] == '.' ==> r == ext
    ensures r == ext || r == "." + ext
  {
    if |ext| > 0 && ext[0] == '.' then ext else "." + ext
  }

  /** Formatting an extension twice is formatting it once. */
  lemma FormatExtIdempotent(ext: string)
    ensures FormatExt(FormatExt(ext)) == FormatExt(ext)
  {
  }

  lemma FormatExtExamples()
    ensures FormatExt("foo") == ".foo"
    ensures FormatExt(".foo") == ".foo"
  {
  }

  /** Whether a loader's name claims a file extension. A string name only
      ever claims a dotted extension, so a key without an extension is
      claimed by a pattern or by nobody. */
  predicate Matches(name: LoaderName, ext: string, w: World): (r: bool)
    ensures r && name.Named? ==> |ext| > 0 && ext[0] == '.'
    ensures name.Neither? ==> !r
  {
    match name
    case Named(s) => ext == FormatExt(s)
    case Pattern(p) => w.test(p, ext)
    case Neither => false
  }

  /** The index of the first loader whose name matches, if any. */
  function FirstMatch(loaders: seq<Loader>, ext: string, w: World): (r: Option<nat>)
    ensures r.Some? ==> r.value < |loaders| && Matches(loaders[r.value].name, ext, w)
    ensures r.Some? ==> forall j :: 0 <= j < r.value ==> !Matches(loaders[j].name, ext, w)
    ensures r.None? <==> forall j :: 0 <= j < |loaders| ==> !Matches(loaders[j].name, ext, w)
    decreases |loaders|
  {
    if loaders == [] then None
    else if Matches(loaders[0].name, ext, w) then Some(0)
    else
      match FirstMatch(loaders[1..], ext, w)
      case None => None
      case Some(i) => Some(i + 1)
  }

  /** The loader function used for an extension: the first match's, or
      the first registered loader's when none matches. */
  function Selected(loaders: seq<Loader>, ext: string, w: World): (r: LoaderFn)
    requires |loaders| > 0
    ensures Matches(loaders[0].name, ext, w) ==> r == loaders[0].fn
  {
    match FirstMatch(loaders, ext, w)
    case Some(i) => loaders[i].fn
    case None => loaders[0].fn
  }

  /** The selected function is the first matching loader's, or the first
      registered loader's when no loader matches. */
  lemma SelectedIsFirst(loaders: seq<Loader>, ext: string, w: World)
    requires |loaders| > 0
    ensures (forall j :: 0 <= j < |loaders| ==> !Matches(loaders[j].name, ext, w)) ==>
      Selected(loaders, ext, w) == loaders[0].fn
    ensures forall i :: (0 <= i < |loaders| && Matches(loaders[i].name, ext, w) &&
      (forall j :: 0 <= j < i ==> !Matches(loaders[j].name, ext, w))) ==> Selected(loaders, ext, w) == loaders[i].fn
  {
    forall i | 0 <= i < |loaders| && Matches(loaders[i].name, ext, w) &&
      (forall j :: 0 <= j < i ==> !Matches(loaders[j].name, ext, w))
      ensures Selected(loaders, ext, w) == loaders[i].fn
    {
      FirstMatchUnique(loaders, ext, w, i);
    }
  }

  /** `matchLoader(arr, key)`. */
  method MatchLoader(loaders: seq<Loader>, key: string, w: World) returns (fn: LoaderFn)
    requires |loaders| > 0
    ensures fn == Selected(loaders, ExtName(key), w)
  {
    var ext := ExtName(key);
    var i := 0;
    while i < |loaders|
      invariant 0 <= i <= |loaders|
      invariant forall j :: 0 <= j < i ==> !Matches(loaders[j].name, ext, w)
    {
      var name := loaders[i].name;
      if name.Named? && ext == FormatExt(name.s) {
        FirstMatchUnique(loaders, ext, w, i);
        return loaders[i].fn;
      }
      if name.Pattern? && w.test(name.id, ext) {
        FirstMatchUnique(loaders, ext, w, i);
        return loaders[i].fn;
      }
      assert !Matches(name, ext, w);
      i := i + 1;
    }
    assert FirstMatch(loaders, ext, w).None?;
    return loaders[0].fn;
  }

  /** The first matching index is unique: any matching index with no match
      before it is the one `FirstMatch` finds. */
  lemma FirstMatchUnique(loaders: seq<Loader>, ext: string, w: World, i: nat)
    requires i < |loaders| && Matches(loaders[i].name, ext, w)
    requires forall j :: 0 <= j < i ==> !Matches(loaders[j].name, ext, w)
    ensures FirstMatch(loaders, ext, w) == Some(i)
  {
    var r := FirstMatch(loaders, ext, w);
    assert r.Some?;
  }

  /** Registering a loader at the end never changes which loader an
      extension already matched; an extension nobody matched goes to the
      new loader exactly when that one matches it. */
  lemma {:induction false} FirstMatchAppend(loaders: seq<Loader>, x: Loader, ext: string, w: World)
    ensures FirstMatch(loaders + [x], ext, w) ==
      match FirstMatch(loaders, ext, w)
      case Some(i) => Some(i)
      case None => if Matches(x.name, ext, w) then Some(|loaders|) else None
    decreases |loaders|
  {
    if loaders == [] {
      assert [] + [x] == [x];
    } else {
      assert (loaders + [x])[0] == loaders[0];
      assert (loaders + [x])[1..] == loaders[1..] + [x];
      FirstMatchAppend(loaders[1..], x, ext, w);
    }
  }

  /** An earlier-registered loader shadows a later one for the same
      extension; an extension no one claimed still falls back to the first
      loader unless the new one claims it. */
  lemma SelectedAfterRegister(loaders: seq<Loader>, x: Loader, ext: string, w: World)
    requires |loaders| > 0
    ensures FirstMatch(loaders, ext, w).Some? ==> Selected(loaders + [x], ext, w) == Selected(loaders, ext, w)
    ensures FirstMatch(loaders, ext, w).None? && Matches(x.name, ext, w) ==> Selected(loaders + [x], ext, w) == x.fn
    ensures FirstMatch(loaders, ext, w).None? && !Matches(x.name, ext, w) ==> Selected(loaders + [x], ext, w) == loaders[0].fn
  {
    FirstMatchAppend(loaders, x, ext, w);
    assert (loaders + [x])[0] == loaders[0];
    assert (loaders + [x])[|loaders|] == x;
  }

  /** A registry that starts with the built-in loader reads `.json` files
      with `requireData`, and so does every extension no loader claims. */
  lemma JsonLoaderFirst(loaders: seq<Loader>, ext: string, w: World)
    requires |loaders| > 0 && loaders[0] == JsonLoader
    ensures ext == ".json" ==> Selected(loaders, ext, w) == RequireData
    ensures FirstMatch(loaders, ext, w).None? ==> Selected(loaders, ext, w) == RequireData
  {
    if ext == ".json" {
      assert Matches(JsonLoader.name, ext, w);
      FirstMatchUnique(loaders, ext, w, 0);
    }
  }
}
