/** JavaScript values as the data plugin sees them, with the two type tests
    it performs (`isObject`, truthiness) and path lookup into nested objects. */
module JsValues {

  /** A JavaScript value. Numbers are integers; a function is an identifier
      whose behaviour, where it matters, is supplied by the environment. */
  datatype JsVal =
    | Undefined
    | Null
    | Bool(b: bool)
    | Num(n: int)
    | Str(s: string)
    | Arr(items: seq<JsVal>)
    | Obj(fields: map<string, JsVal>)
    | Func(id: nat)

  datatype Option<T> = None | Some(value: T)

  /** The one exception the plugin throws itself. */
  datatype JsError = TypeError(message: string)

  datatype Result<T> = Ok(value: T) | Err(error: JsError)

  /** The `typeof` operator. */
  function TypeOf(v: JsVal): string
  {
    match v
    case Undefined => "undefined"
    case Null => "object"
    case Bool(_) => "boolean"
    case Num(_) => "number"
    case Str(_) => "string"
    case Arr(_) => "object"
    case Obj(_) => "object"
    case Func(_) => "function"
  }

  /** JavaScript truthiness: `undefined`, `null`, `false`, `0` and `""` are falsy. */
  predicate Truthy(v: JsVal): (r: bool)
    ensures !r <==> v == Undefined || v == Null || v == Bool(false) || v == Num(0) || v == Str("")
    ensures v.Obj? || v.Arr? || v.Func? ==> r
  {
    match v
    case Undefined => false
    case Null => false
    case Bool(b) => b
    case Num(n) => n != 0
    case Str(s) => s != ""
    case _ => true
  }

  /** `isObject`: truthy, not an array, and of type "object" -- exactly the
      plain objects (null, arrays and functions are excluded). */
  predicate IsObject(v: JsVal): (r: bool)
    ensures r <==> v.Obj?
  {
    if !Truthy(v) || v.Arr? then false else TypeOf(v) == "object"
  }

  /** `arrayify`: an array is its own list of items, anything else a list of one. */
  function Arrayify(v: JsVal): (r: seq<JsVal>)
    ensures v.Arr? ==> r == v.items
    ensures !v.Arr? ==> |r| == 1 && r[0] == v
  {
    if v.Arr? then v.items else [v]
  }

  /** An array made of an arrayified value arrayifies to the same list. */
  lemma ArrayifyIdempotent(v: JsVal)
    ensures Arrayify(Arr(Arrayify(v))) == Arrayify(v)
  {
  }

  /** The value stored at a property path, if every step is an object that
      has the next key. */
  function Get(v: JsVal, path: seq<string>): Option<JsVal>
    decreases |path|
  {
    if path == [] then Some(v)
    else if v.Obj? && path[0] in v.fields then Get(v.fields[path[0]], path[1..])
    else None
  }

  /** The value at a path, `undefined` when there is none. */
  function GetOr(v: JsVal, path: seq<string>): JsVal
  {
    match Get(v, path)
    case Some(x) => x
    case None => Undefined
  }

  /** Reading `o[k]` on a plain options bag. */
  function Lookup(m: map<string, JsVal>, k: string): JsVal
  {
    if k in m then m[k] else Undefined
  }

  lemma {:induction false} GetAppend(v: JsVal, p: seq<string>, q: seq<string>)
    ensures Get(v, p + q) == (match Get(v, p) case Some(x) => Get(x, q) case None => None)
    decreases |p|
  {
    if p == [] {
      assert p + q == q;
    } else {
      assert (p + q)[0] == p[0];
      assert (p + q)[1..] == p[1..] + q;
      if v.Obj? && p[0] in v.fields {
        GetAppend(v.fields[p[0]], p[1..], q);
      }
    }
  }
}
