/** What the plugin obtains from outside its own code: file reads, glob
    tests and expansion, regular-expression tests, and calls of user
    functions. Each is a parameter of the model, fixed for one call. */
module Env {
  import opened JsValues

  /** An options bag: the merged `opts` object the loaders receive. */
  type Options = map<string, JsVal>

  datatype World = World(
    /** What `require` yields for each path that can be read; any other
        path fails to read, which `tryRequire` turns into `null`. */
    files: map<string, JsVal>,
    /** `utils.hasGlob` on a string. */
    hasGlob: string -> bool,
    /** `utils.resolve.sync(pattern, opts)`: the matching file paths, in order. */
    expand: (string, Options) -> seq<string>,
    /** `RegExp#test` of the pattern with the given identifier. */
    test: (nat, string) -> bool,
    /** Calling the user function `Func(id)` on a file path (a `namespace`
        or `renameKey` function); the key it yields. */
    call: (nat, string) -> string,
    /** Calling a user-registered loader function `Func(id)` as `fn(key, opts)`. */
    load: (nat, string, Options) -> JsVal)

  /** `tryRequire`: the module's value, or `null` when it cannot be read. */
  function TryRequire(fp: string, w: World): (r: JsVal)
    ensures fp in w.files ==> r == w.files[fp]
    ensures fp !in w.files ==> r == Null && !Truthy(r)
  {
    if fp in w.files then w.files[fp] else Null
  }
}
