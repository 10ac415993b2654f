# base-data, modelled in Dafny

base-data is a plugin for `base` applications. When it is installed, a
host object gets a nested data cache, by default at `cache.data`. It also
gets two methods:

- `dataLoader(name, fn)` registers a loader for a file extension.
- `data(key, val)` writes into the cache.

`data` chooses a route by the shape of its arguments:

- An object key is deep-merged into the cache.
- A string key with no value, or a glob pattern, is read through the
  first loader whose name matches the key's extension. When no loader
  claims the extension, the first registered loader reads it.
- A string key with a value is merged at the dotted path `prop.key`.
- Any other key throws a `TypeError`.

The built-in loader `requireData` reads every path that contains `.js`
anywhere. The test is an unanchored regular expression, so besides `.js`
and `.json` it also reads paths such as `x.jsx`, `a.json5`, `.jshintrc`
and `notes.js.md`. It drops reads that fail or give a falsy value. Every
path that contains `data.json` anywhere lands at the root of the cache.
That includes `metadata.json` and `data.json.bak`, and it applies even
when namespacing is on. When `namespace` or `renameKey` is set, every other
file is wrapped under a key derived from its name.

The model has seven modules, one file each:

- `JsValues` (`js_values.dfy`): JavaScript values (`JsVal`), `typeof`,
  truthiness, `isObject`, `arrayify`, and lookup along a property path.
- `Paths` (`paths.dfy`): stand-ins for `path.basename` and `path.extname`,
  the helper `name`, the substring tests the plugin's regular expressions
  perform, and splitting and joining of dot paths.
- `Env` (`env.dfy`): everything outside the plugin, as one `World` value.
  That covers file reads, glob tests and expansion, `RegExp` tests, and
  calls of user functions.
- `Merge` (`merge.dfy`): the deep merge the plugin relies on (objects
  merge key by key, any other value overwrites), the dot-path `set` that
  creates intermediate objects, and the shallow `extend` of options.
- `Loaders` (`loaders.dfy`): `formatExt`, loader matching, and
  `matchLoader` as a loop proved equal to "first match, else entry 0".
- `Files` (`files.dfy`): `rename`, `namespaceFile`, `reduceFiles` (a
  loop proved against a reference definition), and `requireData`.
- `Plugin` (`plugin.dfy`): the factory's arguments and a class `App`
  with fields for the host's properties, the loader list and the
  configuration. The class has `Use` (installation), `DataLoader` and
  `Data`. `Data` is proved against the function `DataResult`, and the
  lemmas about `DataResult` state what each route does to the cache.

An options object given beside a string key that is not a glob does not
reach any loader. `index.js` treats the pair as a key/value write, so
`data('fixtures/a.json', {namespace: true})` stores the object under the
path `fixtures/a` → `json`. The model follows the code (`DataKeyValue`),
even though `test.js:451-454` expects the options to take effect. The same
holds for `{namespace: 'abc'}` (`test.js:456-459`) and `{namespace: false}`
(`test.js:461-464`): each pair is a key/value write, and `rename` is never
reached. Where a loader does see a string `namespace`, `rename` ignores it
and uses the file's name, since only a function replaces `name`
(`index.js:181-183`).

## Model

| member | source | states |
|---|---|---|
| JsValues.Truthy | index.js:134 | a value is falsy exactly when it is `undefined`, `null`, `false`, `0` or `""`; every object, array and function is truthy |
| JsValues.IsObject | index.js:220-225 | exactly the plain objects pass: null, arrays, functions and scalars do not |
| JsValues.Arrayify | index.js:211-213 | an array gives its own items; any other value gives the one-element list holding it |
| JsValues.ArrayifyIdempotent | index.js:211-213 | casting an already cast list to an array changes nothing |
| Paths.AfterLastShape | index.js:194-196 | the text after the last separator is a separator-free suffix, preceded by the separator unless it is the whole string |
| Paths.BaseName | index.js:195 | the base name is a `/`-free suffix of the path |
| Paths.ExtName | index.js:88 | the extension is empty or a dot followed by dot-free text; it is a suffix of the base name and shorter than it when non-empty |
| Paths.BaseNameFollowsSlash | index.js:195 | the base name begins right after the last `/`: unless it is the whole path, a `/` precedes it |
| Paths.ExtShape | index.js:88 | an extension is empty or a dot followed by dot-free text, and a proper suffix of the base name |
| Paths.ExtEmptyWhen | index.js:88 | a base name has no extension exactly when no dot follows its first character, or it is `..` |
| Paths.ExtNameWhen | index.js:88 | `extname(p)` is empty exactly when the base name of `p` has no dot after its first character, or is `..` |
| Paths.Name | index.js:194-196 | `name(fp)` followed by `extname(fp)` is the base name, and a file with an extension has a non-empty name |
| Paths.BaseNameOfFixture | index.js:194-196 | the base name of `fixtures/a.json` is `a.json` |
| Paths.ExtOfFixture | index.js:88 | the extension of `a.json` is `.json` |
| Paths.NameOfFixture | index.js:194-196 | `fixtures/a.json` has extension `.json` and name `a` |
| Paths.ExtNameOfGlob | index.js:88 | the glob `*.json` has extension `.json`, so a glob selects a loader the way a file does |
| Paths.BaseNameOfDotFile | index.js:195 | the base name of `dir/.hidden` is `.hidden` |
| Paths.ExtNameOfDotFile | index.js:88 | a leading dot in the base name does not start an extension |
| Paths.ContainsOccurs | index.js:132-135 | the substring test used for the plugin's unanchored regular expressions holds exactly when the text occurs at some index |
| Paths.Split | index.js:73 | splitting a dot path yields at least one segment |
| Paths.JoinSplit | index.js:73 | joining the segments of a split path with dots gives back the path |
| Paths.SplitJoin | index.js:73 | splitting dot-free segments joined with dots gives back the segments |
| Paths.SplitConcat | index.js:73 | the path `prop + '.' + key` has the segments of `prop` followed by the segments of `key` |
| Merge.MergeInto | index.js:55 | a non-object on either side makes the source value win; two objects give an object with the keys of both |
| Merge.SetPath | index.js:39 | after `set`, the path holds the value, and the root is an object whenever the path is non-empty |
| Merge.MergeAt | index.js:55 | the value at the path becomes the new value merged onto what was there |
| Merge.MergeAll | index.js:63-65 | merging a list of values into an object at a non-empty path leaves an object |
| Merge.SetPathElsewhere | index.js:39 | a `set` leaves every value at a diverging path unchanged |
| Merge.MergeAtElsewhere | index.js:73 | a merge at one path leaves every value at a diverging path unchanged |
| Merge.MergeIntoKeeps | index.js:55 | a deep merge keeps every value of the target that the source does not reach |
| Merge.MergeIntoTakes | index.js:55 | a deep merge takes every non-object leaf of the source, at its path |
| Merge.MergeIntoSelf | index.js:55 | merging a value onto itself changes nothing |
| Merge.MergeIntoTwice | index.js:55 | merging the same value twice is the same as merging it once |
| Merge.MergeIntoDisjoint | index.js:55 | merging objects with disjoint keys gives their union |
| Merge.MergeAllAppend | index.js:63-65 | merging two batches of files one after the other equals merging their concatenation |
| Merge.MergeAllKeepsObject | index.js:63-65 | merging objects into an object keeps the cache an object |
| Merge.Extend | index.js:59 | a key is in the merged options exactly when some object argument has it |
| Merge.ExtendPrecedence | index.js:59 | for each key, the call-site value wins over the host's options, and those win over the defaults |
| Merge.ExtendPrecedenceAll | index.js:59 | the same precedence, for every key at once |
| Env.TryRequire | index.js:153-163 | a readable path gives the module's value; an unreadable one gives `null`, which is falsy, and no error |
| Loaders.FormatExt | index.js:79-84 | the result starts with a dot; a dotted extension is unchanged; otherwise a dot is prepended |
| Loaders.FormatExtIdempotent | index.js:79-84 | formatting twice is formatting once |
| Loaders.FormatExtExamples | index.js:79-84 | `foo` becomes `.foo` and `.foo` stays `.foo` |
| Loaders.Matches | index.js:93-97 | a `Named` loader only matches dotted extensions, since its name is formatted first; a name that is neither a string nor a `RegExp` never matches |
| Loaders.Selected | index.js:90-100 | a matching first loader is the one used |
| Loaders.SelectedIsFirst | index.js:90-100 | the function used is that of the first loader that matches, or entry 0's when none matches |
| Loaders.FirstMatch | index.js:90-99 | the index found matches and nothing before it does; there is no index exactly when no loader matches |
| Loaders.MatchLoader | index.js:86-101 | the loop returns the first matching loader's function, or entry 0's function when none match |
| Loaders.FirstMatchUnique | index.js:90-99 | a matching index with no match before it is the first match |
| Loaders.FirstMatchAppend | index.js:90-99 | appending a loader keeps any existing first match; otherwise the new loader is the match exactly when it matches |
| Loaders.SelectedAfterRegister | index.js:86-101 | an earlier loader shadows a later one for the same extension; an unclaimed extension goes to the new loader when it matches, else to entry 0 |
| Loaders.JsonLoaderFirst | index.js:51 | with the built-in loader first, `.json` and every unclaimed extension are read by `requireData` |
| Files.Rename | index.js:179-188 | a `renameKey` function wins over a `namespace` function, and without either the key is the file's name |
| Files.Namespaced | index.js:139 | a `namespace` or `renameKey` function, or `namespace: true`, turns namespacing on; options with neither key leave it off |
| Files.NamespaceFile | index.js:169-173 | the result is an object with exactly one key, the renamed path, holding the file's value |
| Files.PathTestsOccur | index.js:132-135 | a path passes the script test exactly when `.js` occurs in it at some index, and the root-data test exactly when `data.json` does |
| Files.ScriptPathExamples | index.js:132 | `x.jsx`, `a.json5`, `.jshintrc` and `notes.js.md` all pass the script test |
| Files.NotScriptExample | index.js:132 | `a.yml` does not pass the script test |
| Files.RootDataExamples | index.js:135 | `metadata.json` and `data.json.bak` pass the root-data test |
| Files.Contribution | index.js:129-145 | one path adds at most one value; nothing exactly when it is not a script path or its read is falsy; `data.json` unwrapped; with namespacing a single-key object; otherwise the read value |
| Files.ReduceFiles | index.js:124-147 | the loop returns the reduction of the path list |
| Files.ReducedAppend | index.js:124-147 | reducing a concatenation is concatenating the reductions |
| Files.ReducedIsKeptShapes | index.js:129-145 | the result is, in input order, the shaped value of each readable script path and nothing else |
| Files.ReducedLength | index.js:124-147 | there are never more values than paths |
| Files.RootDataIsScript | index.js:132-135 | every `data.json` path also passes the script-path test |
| Files.Expansion | index.js:109-112 | a pattern without glob characters is read as that one path, with no expansion; a glob is replaced by the paths it expands to |
| Files.RequireData | index.js:108-114 | returns, in order, the shaped value of each readable script path among the single path or the glob's expansion, and nothing else |
| Files.RequiredMissing | index.js:153-163 | a single path that is not a script or cannot be read loads nothing, and no error is raised |
| Files.RequiredEmptyGlob | index.js:111-113 | a glob that matches no file loads nothing |
| Files.RequiredSingle | index.js:109-110 | a readable single script path loads exactly its shaped value |
| Plugin.Configure | index.js:28-36 | a string selects the cache path; `undefined` selects `cache.data`; an object in first position becomes the defaults with `cache.data` |
| Plugin.ConfigureExamples | index.js:28-36 | `data()`, `data('foo.bar', opts)` and `data(opts)` configure the cache path and defaults as the tests use them |
| Plugin.Has | index.js:38 | a present path holds a value, and a path holding an object is present |
| Plugin.Init | index.js:38-40 | installation keeps anything already at the cache path and otherwise stores `{}` there; the host stays an object |
| Plugin.InitIdempotent | index.js:38-40 | after installation the cache path holds a value, so installing again changes nothing |
| Plugin.InitElsewhere | index.js:38-40 | installation leaves every property away from the cache path unchanged |
| Plugin.IsGlob | index.js:202-205 | a key takes the loader route exactly when it is a string and the value is `undefined` or the key is a glob; array keys are handled differently, see "Left out" |
| Plugin.CallOptions | index.js:59 | each key of the call-site options wins; else the host's `options` key; else the defaults key |
| Plugin.CallOptionsKeys | index.js:59 | a key is in the loader's options exactly when the defaults, the host's `options` or the call-site options have it |
| Plugin.Load | index.js:61 | `requireData` returns an array with no more values than the paths it was given; a custom loader returns its own result |
| Plugin.Loaded | index.js:60-61 | through `requireData` the loaded list is the shaped readable script paths of the expansion; through a custom loader it is that loader's result cast to an array |
| Plugin.DataResult | index.js:53-75 | an error happens exactly for keys that are neither objects nor strings, and it is the `TypeError` with the fixed message; otherwise the host stays an object |
| Plugin.DataObject | index.js:54-56 | an object key's non-object leaves appear at their paths below the cache, and what the cache held where the key does not reach is unchanged |
| Plugin.DataKeyValue | index.js:69-74 | a string key and a value merge at `prop` + `key` split on dots; non-object values (strings, arrays) overwrite; an object onto an object gives the union of their keys |
| Plugin.DataKeyValueNests | index.js:73 | after a dotted write, the cache and every intermediate step of the key hold objects |
| Plugin.DataRequired | index.js:58-66 | through `requireData`, the glob route merges, in order, the shaped value of each readable script path the pattern names |
| Plugin.LoadedSingle | index.js:108-110 | a readable script path that is no glob loads exactly its own shaped value |
| Plugin.DataMissingFile | index.js:153-163 | a bare path that cannot be read leaves the host unchanged, with no error |
| Plugin.DataEmptyGlob | index.js:111-113 | a glob with no matches leaves the host unchanged |
| Plugin.DataRootFile | index.js:135-138 | a readable `data.json` is merged onto the cache itself, whatever the namespace options say |
| Plugin.DataNamespacedFile | index.js:139-141 | with `namespace` or `renameKey` set, a readable file's value is merged under its renamed key below the cache |
| Plugin.App.constructor | index.js:42-44 | a new host holds its own properties and no loaders |
| Plugin.App.Use | index.js:37-51 | installation configures the cache path and defaults, creates the cache only when it is absent, and appends the `json` loader |
| Plugin.App.DataLoader | index.js:46-49 | exactly one loader is appended at the end, and the earlier ones keep their order |
| Plugin.App.Data | index.js:53-75 | the new host properties, and the error or the host returned, are those `DataResult` gives |
| Plugin.App.LoadFiles | index.js:58-61 | the glob route's values are the matched loader's result on the merged options, as a list: the shaped readable script paths through `requireData`, a custom loader's result cast to an array otherwise |
| Plugin.App.MergeFiles | index.js:63-65 | each loaded value is merged into the cache in list order |

## Left out

- File reading with `require` and `path.resolve` (`tryRequire`), glob
  expansion with `resolve-glob`, glob detection with `has-glob`, `RegExp`
  tests, and calls of user functions (`namespace`, `renameKey`, custom
  loaders). These are I/O or foreign code. They are the fields of
  `Env.World`, fixed for one call.
- The host framework's `mixin`, `define` and `set`, and the rest of
  `base`. The host is the class `Plugin.App`. Its `installed` flag stands
  for the presence of the mixins.
- Plugin.Has: only `undefined` and `null` at the path count as absent.
  The `has-value` package, whose source is not part of this model, also
  counts an empty object, an empty array or an empty string as absent;
  the model counts them as present.
- Plugin.Init: `has-value` also treats empty objects, empty arrays and
  similar values as absent. The model only treats `undefined` and `null`
  as absent. So installing over such a value keeps it, where the source
  would reset it to `{}`.
- Merge.MergeInto: the deep-merge rule is the one the plugin relies on.
  The full behaviour of `merge-value`, including its special cases for
  `null` and `undefined` values, is not modelled: a `null` or
  `undefined` value overwrites.
- Merge.MergeInto, Merge.MergeAt, Plugin.App.Data: the model works on
  values, so aliasing and in-place sharing are not captured. In the source,
  `set-value` and `merge-value` change objects in place. They store
  references to the caller's objects (`index.js:55`, `index.js:73`) and to
  `require`-cached module objects (`index.js:136`, `index.js:143`). A later
  deep merge into the cache can therefore change a caller's object or a
  cached module, and a second read of the same file returns that changed
  module. In the model every merge builds a new value, and the files of
  `Env.World` are fixed for one call.
- Merge.Extend: only plain-object arguments contribute keys. The source's
  `extend-shallow` would also copy the indices of an array argument.
- Plugin.IsGlob: glob detection is modelled on string keys only. The
  source's `has-glob` (`index.js:204`) is true for an array holding a
  glob; the model's `IsGlob` is false for every array key.
- Plugin.DataResult: a key is routed to a loader only when it is a
  string. In the source, an array key holding a glob also passes
  `isGlob` and then fails inside `path.extname` with that function's own
  error. In the model it gets the plugin's `TypeError`. Either way the
  call throws.
- Plugin.Configure: the cache path must be a string, `undefined` or of
  type "object". Numbers, booleans and functions in that position are
  excluded.
- Numbers are unbounded integers. Floating point, `NaN` and `-0` are not
  modelled, and they would only change truthiness.
- `path.basename` and `path.extname` are modelled for `/`-separated
  paths. Trailing separators and Windows separators are not handled.
- `test.js` checks some behaviours that `index.js` does not have. They
  are not modelled:
  - the `data` event;
  - the `data.set`, `get`, `merge` and `union` sub-methods;
  - a third "union" argument;
  - piping several loaders;
  - "failed to read" errors (`index.js` ignores failed reads; see
    `Files.RequiredMissing`);
  - reading a value back from a single string argument;
  - an array of plain paths as the key (`test.js:203-207`, with
    `['package.json', 'fixtures/a.json']`) and an array of objects
    (`test.js:307-310`). `index.js` passes such a key to `has-glob`, finds no
    glob, and throws the `TypeError`; the model does the same;
  - a second object argument after an object key (`test.js:294-298`).
    `index.js` ignores it and merges only the first object, and so does
    the model;
  - the `data.utils` export and the loader counts those tests expect;
  - YAML parsing.
- A loader function that throws, and the exceptions of user functions,
  are not modelled. Custom loaders return a value.
