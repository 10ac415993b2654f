/** Writing into the nested cache: the deep-merge rule of `utils.merge`
    (objects merge with objects, everything else overwrites), the
    dot-path `set` that creates intermediate objects, and the sequential
    merging of a list of loaded files. */
module Merge {
  import opened JsValues

  /** Merging `src` onto `dst`: when both are objects, the keys of both,
      each key of `src` merged recursively onto the old value at that key;
      otherwise `src` replaces `dst`. */
  function MergeInto(dst: JsVal, src: JsVal): (r: JsVal)
    ensures !(dst.Obj? && src.Obj?) ==> r == src
    ensures dst.Obj? && src.Obj? ==> r.Obj? && r.fields.Keys == dst.fields.Keys + src.fields.Keys
    decreases src
  {
    if dst.Obj? && src.Obj? then
      Obj(map k | k in dst.fields.Keys + src.fields.Keys ::
            if k in src.fields then MergeInto(Lookup(dst.fields, k), src.fields[k])
            else dst.fields[k])
    else src
  }

  /** `set(obj, path, v)`: stores `v` at `path`, replacing any step that is
      not an object by a new empty object. */
  function SetPath(t: JsVal, path: seq<string>, v: JsVal): (r: JsVal)
    ensures Get(r, path) == Some(v)
    ensures path != [] ==> r.Obj?
    decreases |path|
  {
    if path == [] then v
    else
      var fields := if t.Obj? then t.fields else map[];
      var r := Obj(fields[path[0] := SetPath(Lookup(fields, path[0]), path[1..], v)]);
      assert Get(r, path) == Get(r.fields[path[0]], path[1..]);
      r
  }

  /** `utils.merge(obj, path, v)`: the value at `path` becomes `v` merged
      onto what was there before. */
  function MergeAt(t: JsVal, path: seq<string>, v: JsVal): (r: JsVal)
    ensures Get(r, path) == Some(MergeInto(GetOr(t, path), v))
    ensures path != [] ==> r.Obj?
  {
    SetPath(t, path, MergeInto(GetOr(t, path), v))
  }

  /** `files.forEach(file => utils.merge(obj, path, file))`. */
  function MergeAll(t: JsVal, path: seq<string>, vals: seq<JsVal>): (r: JsVal)
    ensures path != [] && t.Obj? ==> r.Obj?
    decreases |vals|
  {
    if vals == [] then t
    else MergeAt(MergeAll(t, path, vals[..|vals| - 1]), path, vals[|vals| - 1])
  }

  /** Two paths part ways at some step, so neither is a prefix of the other. */
  predicate Diverge(p: seq<string>, q: seq<string>)
    decreases |p|
  {
    p != [] && q != [] && (p[0] != q[0] || Diverge(p[1..], q[1..]))
  }

  /** Writing at one path leaves every value stored at a diverging path as it was. */
  lemma {:induction false} SetPathElsewhere(t: JsVal, path: seq<string>, v: JsVal, q: seq<string>)
    requires Diverge(path, q) && Get(t, q).Some?
    ensures Get(SetPath(t, path, v), q) == Get(t, q)
    decreases |path|
  {
    var r := SetPath(t, path, v);
    assert t.Obj? && q[0] in t.fields;
    if path[0] != q[0] {
      assert r.fields[q[0]] == t.fields[q[0]];
    } else {
      SetPathElsewhere(t.fields[q[0]], path[1..], v, q[1..]);
    }
  }

  /** Merging at one path leaves every value stored at a diverging path as it was. */
  lemma MergeAtElsewhere(t: JsVal, path: seq<string>, v: JsVal, q: seq<string>)
    requires Diverge(path, q) && Get(t, q).Some?
    ensures Get(MergeAt(t, path, v), q) == Get(t, q)
  {
    SetPathElsewhere(t, path, MergeInto(GetOr(t, path), v), q);
  }

  /** `src` reaches into `dst` along `q` only through objects, without
      holding a value at `q` itself or at any step before it. */
  predicate Untouched(src: JsVal, q: seq<string>)
    decreases |q|
  {
    q != [] && src.Obj? &&
    (q[0] !in src.fields || (|q| > 1 && Untouched(src.fields[q[0]], q[1..])))
  }

  /** Deep merge keeps every value of `dst` that `src` does not reach. */
  lemma {:induction false} MergeIntoKeeps(dst: JsVal, src: JsVal, q: seq<string>)
    requires Get(dst, q).Some? && Untouched(src, q)
    ensures Get(MergeInto(dst, src), q) == Get(dst, q)
    decreases |q|
  {
    var r := MergeInto(dst, src);
    var k := q[0];
    assert dst.Obj? && k in dst.fields;
    if k in src.fields {
      assert dst.fields[k].Obj?;
      assert r.fields[k] == MergeInto(dst.fields[k], src.fields[k]);
      MergeIntoKeeps(dst.fields[k], src.fields[k], q[1..]);
    } else {
      assert r.fields[k] == dst.fields[k];
    }
  }

  /** Deep merge takes every value of `src` that is not an object. */
  lemma {:induction false} MergeIntoTakes(dst: JsVal, src: JsVal, q: seq<string>)
    requires Get(src, q).Some? && !Get(src, q).value.Obj?
    ensures Get(MergeInto(dst, src), q) == Get(src, q)
    decreases |q|
  {
    if q != [] {
      var r := MergeInto(dst, src);
      var k := q[0];
      if dst.Obj? {
        assert r.fields[k] == MergeInto(Lookup(dst.fields, k), src.fields[k]);
        MergeIntoTakes(Lookup(dst.fields, k), src.fields[k], q[1..]);
      }
    }
  }

  /** Merging a value onto itself changes nothing. */
  lemma {:induction false} MergeIntoSelf(v: JsVal)
    ensures MergeInto(v, v) == v
    decreases v
  {
    if v.Obj? {
      var r := MergeInto(v, v);
      forall k | k in v.fields ensures r.fields[k] == v.fields[k] {
        MergeIntoSelf(v.fields[k]);
      }
      assert r.fields == v.fields;
    }
  }

  /** Merging the same value twice is the same as merging it once. */
  lemma {:induction false} MergeIntoTwice(dst: JsVal, src: JsVal)
    ensures MergeInto(MergeInto(dst, src), src) == MergeInto(dst, src)
    decreases src
  {
    var once := MergeInto(dst, src);
    if dst.Obj? && src.Obj? {
      var twice := MergeInto(once, src);
      forall k | k in once.fields ensures twice.fields[k] == once.fields[k] {
        if k in src.fields {
          var d := Lookup(dst.fields, k);
          assert once.fields[k] == MergeInto(d, src.fields[k]);
          MergeIntoTwice(d, src.fields[k]);
        }
      }
      assert twice.fields == once.fields;
    } else {
      MergeIntoSelf(src);
    }
  }

  /** Merging two objects whose keys are disjoint gives their union. */
  lemma MergeIntoDisjoint(dst: map<string, JsVal>, src: map<string, JsVal>)
    requires dst.Keys !! src.Keys
    ensures MergeInto(Obj(dst), Obj(src)) == Obj(dst + src)
  {
    var r := MergeInto(Obj(dst), Obj(src));
    forall k | k in src ensures r.fields[k] == src[k] {
      assert Lookup(dst, k) == Undefined;
    }
    assert r.fields == dst + src;
  }

  /** Merging files one after another, in two batches, is merging them all. */
  lemma {:induction false} MergeAllAppend(t: JsVal, path: seq<string>, a: seq<JsVal>, b: seq<JsVal>)
    ensures MergeAll(t, path, a + b) == MergeAll(MergeAll(t, path, a), path, b)
    decreases |b|
  {
    if b == [] {
      assert a + b == a;
    } else {
      var b0 := b[..|b| - 1];
      assert (a + b)[..|a + b| - 1] == a + b0;
      assert (a + b)[|a + b| - 1] == b[|b| - 1];
      MergeAllAppend(t, path, a, b0);
    }
  }

  /** Merging objects into an object keeps the value at `path` an object. */
  lemma {:induction false} MergeAllKeepsObject(t: JsVal, path: seq<string>, vals: seq<JsVal>)
    requires GetOr(t, path).Obj?
    requires forall i :: 0 <= i < |vals| ==> vals[i].Obj?
    ensures GetOr(MergeAll(t, path, vals), path).Obj?
    decreases |vals|
  {
    if vals != [] {
      MergeAllKeepsObject(t, path, vals[..|vals| - 1]);
    }
  }

  /** The precedence of `ExtendPrecedence`, for every key at once. */
  lemma ExtendPrecedenceAll(defaults: JsVal, host: JsVal, call: JsVal)
    ensures var r := Extend([defaults, host, call]);
      && (call.Obj? ==> forall k :: k in call.fields ==> k in r && r[k] == call.fields[k])
      && (host.Obj? ==> forall k :: k in host.fields && !(call.Obj? && k in call.fields) ==> k in r && r[k] == host.fields[k])
      && (defaults.Obj? ==>
            forall k :: (k in defaults.fields && !(call.Obj? && k in call.fields) && !(host.Obj? && k in host.fields)
                         ==> k in r && r[k] == defaults.fields[k]))
  {
    forall k {
      ExtendPrecedence(defaults, host, call, k);
    }
  }

  /** `utils.extend({}, a, b, ...)`: a shallow copy of own keys, later
      objects overriding earlier ones; anything but a plain object adds nothing. */
  function Extend(objs: seq<JsVal>): (r: map<string, JsVal>)
    ensures forall k :: k in r <==> exists i :: 0 <= i < |objs| && objs[i].Obj? && k in objs[i].fields
    decreases |objs|
  {
    if objs == [] then map[]
    else
      var last := objs[|objs| - 1];
      Extend(objs[..|objs| - 1]) + (if last.Obj? then last.fields else map[])
  }

  /** Of the three option sources, the call site's wins, then the host's, then the defaults. */
  lemma ExtendPrecedence(defaults: JsVal, host: JsVal, call: JsVal, k: string)
    ensures var r := Extend([defaults, host, call]);
      && (call.Obj? && k in call.fields ==> k in r && r[k] == call.fields[k])
      && (!(call.Obj? && k in call.fields) && host.Obj? && k in host.fields ==> k in r && r[k] == host.fields[k])
      && (!(call.Obj? && k in call.fields) && !(host.Obj? && k in host.fields) && defaults.Obj? && k in defaults.fields
          ==> k in r && r[k] == defaults.fields[k])
  {
    var objs := [defaults, host, call];
    var fields := (v: JsVal) => if v.Obj? then v.fields else map[];
    assert objs[..2] == [defaults, host];
    assert [defaults, host][..1] == [defaults];
    assert [defaults][..0] == [];
    assert Extend([defaults]) == fields(defaults);
    assert Extend([defaults, host]) == fields(defaults) + fields(host);
    assert Extend(objs) == fields(defaults) + fields(host) + fields(call);
  }
}
