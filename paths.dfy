/** String functions standing in for Node's `path.basename` / `path.extname`,
    the substring tests the plugin applies to file paths with regular
    expressions, and the dot-splitting of property paths. */
module Paths {

  /** The part of `s` after its last `c` (all of `s` when it has none). */
  function AfterLast(s: string, c: char): string
    decreases |s|
  {
    if s == [] then []
    else if s[|s| - 1] == c then []
    else AfterLast(s[..|s| - 1], c) + [s[|s| - 1]]
  }

  /** What `AfterLast` returns is a `c`-free suffix of `s`, preceded in `s`
      by a `c` unless it is all of `s`. */
  lemma {:induction false} AfterLastShape(s: string, c: char)
    ensures var r := AfterLast(s, c);
      && c !in r
      && |r| <= |s| && s[|s| - |r|..] == r
      && (r == s || s[|s| - |r| - 1] == c)
    decreases |s|
  {
    if s != [] && s[|s| - 1] != c {
      var init := s[..|s| - 1];
      AfterLastShape(init, c);
      var r0 := AfterLast(init, c);
      var r := r0 + [s[|s| - 1]];
      assert s[|s| - |r|..] == init[|init| - |r0|..] + [s[|s| - 1]];
      if r0 == init {
        assert r == init + [s[|s| - 1]] == s;
      } else {
        assert s[|s| - |r| - 1] == init[|init| - |r0| - 1];
      }
    }
  }

  /** `path.basename`: the last segment of a `/`-separated path, which is
      the `/`-free tail of the path. */
  function BaseName(p: string): (r: string)
    ensures '/' !in r && |r| <= |p| && p[|p| - |r|..] == r
  {
    AfterLastShape(p, '/');
    AfterLast(p, '/')
  }

  /** The base name starts right after the last `/`: unless it is the
      whole path, a `/` precedes it. */
  lemma BaseNameFollowsSlash(p: string)
    ensures var b := BaseName(p);
      b == p || p[|p| - |b| - 1] == '/'
  {
    AfterLastShape(p, '/');
  }

  /** The extension of a base name: from its last dot to its end, or ""
      when it has no dot after its first character (or is ".."). */
  function Ext(b: string): string
  {
    var t := AfterLast(b, '.');
    if |t| + 1 >= |b| || (|b| == 2 && b[0] == '.' && b[1] == '.') then "" else "." + t
  }

  /** `path.extname`: empty, or a dot followed by dot-free text that is a
      proper tail of the base name (`ExtNameWhen` says when it is empty). */
  function ExtName(p: string): (r: string)
    ensures r == "" || (r[0] == '.' && '.' !in r[1..] && |r| < |BaseName(p)|)
    ensures |r| <= |BaseName(p)| && BaseName(p)[|BaseName(p)| - |r|..] == r
  {
    ExtShape(BaseName(p));
    Ext(BaseName(p))
  }

  /** An extension is empty or a dot followed by dot-free text, and it is
      a proper suffix of the base name. */
  lemma ExtShape(b: string)
    ensures var r := Ext(b);
      && (r == "" || (r[0] == '.' && '.' !in r[1..] && |r| < |b|))
      && |r| <= |b| && b[|b| - |r|..] == r
  {
    AfterLastShape(b, '.');
    var t := AfterLast(b, '.');
    var r := Ext(b);
    if r != "" {
      var k := |b| - |t| - 1;
      assert r == "." + t && r[1..] == t;
      assert b[k..] == [b[k]] + b[k + 1..];
    }
  }

  /** A base name has no extension exactly when no dot follows its first
      character, or it is "..". */
  lemma ExtEmptyWhen(b: string)
    ensures Ext(b) == "" <==> (forall i :: 1 <= i < |b| ==> b[i] != '.') || b == ".."
  {
    AfterLastShape(b, '.');
    var t := AfterLast(b, '.');
    var k := |b| - |t| - 1;
    if Ext(b) != "" {
      assert 1 <= k < |b| && b[k] == '.';
    } else if |t| + 1 >= |b| {
      forall i | 1 <= i < |b| ensures b[i] != '.' {
        assert b[i] == t[i - (|b| - |t|)];
      }
    }
  }

  /** `path.extname(p)` is empty exactly when the base name has no dot
      after its first character, or is "..". */
  lemma ExtNameWhen(p: string)
    ensures var b := BaseName(p);
      ExtName(p) == "" <==> (forall i :: 1 <= i < |b| ==> b[i] != '.') || b == ".."
  {
    ExtEmptyWhen(BaseName(p));
  }

  /** `name`: the base name without its extension, as
      `path.basename(fp, path.extname(fp))`; put back together with the
      extension it gives the base name, and it is not empty when there is
      an extension. */
  function Name(p: string): (r: string)
    ensures r + ExtName(p) == BaseName(p)
    ensures ExtName(p) != "" ==> |r| > 0
  {
    var b := BaseName(p);
    assert b[..|b| - |ExtName(p)|] + b[|b| - |ExtName(p)|..] == b;
    b[..|b| - |ExtName(p)|]
  }

  /** What follows the last `c` is exactly the `c`-free tail after it. */
  lemma {:induction false} AfterLastOf(u: string, c: char, v: string)
    requires c !in v
    ensures AfterLast(u + [c] + v, c) == v
    decreases |v|
  {
    var s := u + [c] + v;
    if v != [] {
      var v0 := v[..|v| - 1];
      assert s[..|s| - 1] == u + [c] + v0;
      AfterLastOf(u, c, v0);
      assert v0 + [v[|v| - 1]] == v;
    }
  }

  lemma {:induction false} AfterLastNone(s: string, c: char)
    requires c !in s
    ensures AfterLast(s, c) == s
    decreases |s|
  {
    if s != [] {
      AfterLastNone(s[..|s| - 1], c);
    }
  }

  lemma BaseNameOfFixture()
    ensures BaseName("fixtures/a.json") == "a.json"
  {
    assert "fixtures/a.json" == "fixtures" + ['/'] + "a.json";
    AfterLastOf("fixtures", '/', "a.json");
  }

  lemma ExtOfFixture()
    ensures Ext("a.json") == ".json"
  {
    assert "a.json" == "a" + ['.'] + "json";
    AfterLastOf("a", '.', "json");
  }

  /** `name` and `path.extname` on the fixture path of the plugin's tests. */
  lemma NameOfFixture()
    ensures ExtName("fixtures/a.json") == ".json"
    ensures Name("fixtures/a.json") == "a"
  {
    BaseNameOfFixture();
    ExtOfFixture();
    assert "a.json"[..1] == "a";
  }

  /** A glob's extension is read the same way as a file's. */
  lemma ExtNameOfGlob()
    ensures ExtName("*.json") == ".json"
  {
    AfterLastNone("*.json", '/');
    assert "*.json" == "*" + ['.'] + "json";
    AfterLastOf("*", '.', "json");
  }

  lemma BaseNameOfDotFile()
    ensures BaseName("fixtures/.hidden") == ".hidden"
  {
    assert "fixtures/.hidden" == "fixtures" + ['/'] + ".hidden";
    AfterLastOf("fixtures", '/', ".hidden");
  }

  /** A dot that starts the base name does not start an extension. */
  lemma ExtNameOfDotFile()
    ensures ExtName("fixtures/.hidden") == ""
  {
    BaseNameOfDotFile();
    assert ".hidden" == "" + ['.'] + "hidden";
    AfterLastOf("", '.', "hidden");
    assert Ext(".hidden") == "";
  }

  predicate StartsWith(s: string, t: string)
  {
    |t| <= |s| && s[..|t|] == t
  }

  /** What an unanchored regular expression made of literal characters
      tests: `t` occurs somewhere in `s`. */
  predicate Contains(s: string, t: string)
    decreases |s|
  {
    StartsWith(s, t) || (s != [] && Contains(s[1..], t))
  }

  /** `t` sits in `s` starting at index `i`. */
  predicate OccursAt(s: string, t: string, i: nat)
  {
    i + |t| <= |s| && s[i..i + |t|] == t
  }

  /** `Contains` is the occurrence test: `t` sits at some index of `s`. */
  lemma {:induction false} ContainsOccurs(s: string, t: string)
    ensures Contains(s, t) <==> exists i: nat :: OccursAt(s, t, i)
    decreases |s|
  {
    if StartsWith(s, t) {
      assert OccursAt(s, t, 0);
    } else if s != [] {
      ContainsOccurs(s[1..], t);
      if exists i: nat :: OccursAt(s, t, i) {
        var i: nat :| OccursAt(s, t, i);
        assert i > 0;
        assert s[1..][i - 1..i - 1 + |t|] == s[i..i + |t|];
        assert OccursAt(s[1..], t, i - 1);
      }
      if Contains(s[1..], t) {
        var i: nat :| OccursAt(s[1..], t, i);
        assert s[1..][i..i + |t|] == s[i + 1..i + 1 + |t|];
        assert OccursAt(s, t, i + 1);
      }
    }
  }

  /** An occurrence at a known index is an occurrence. */
  lemma ContainsAt(s: string, t: string, i: nat)
    requires OccursAt(s, t, i)
    ensures Contains(s, t)
  {
    assert StartsWith(s[i..], t);
    ContainsLater(s, i, t);
  }

  /** Every occurrence of `t` begins an occurrence of each prefix of `t`. */
  lemma {:induction false} ContainsPrefix(s: string, t: string, u: string)
    requires Contains(s, t) && StartsWith(t, u)
    ensures Contains(s, u)
    decreases |s|
  {
    if StartsWith(s, t) {
      assert s[..|u|] == s[..|t|][..|u|];
    } else {
      ContainsPrefix(s[1..], t, u);
    }
  }

  /** An occurrence of `t` contains an occurrence of each of its tails. */
  lemma {:induction false} ContainsByLastChars(s: string, t: string, u: string)
    requires Contains(s, t) && |u| <= |t| && t[|t| - |u|..] == u
    ensures Contains(s, u)
    decreases |s|
  {
    if StartsWith(s, t) {
      var k := |t| - |u|;
      var s' := s[k..];
      assert s'[..|u|] == s[k..|t|] == t[k..] == u;
      ContainsLater(s, k, u);
    } else {
      ContainsByLastChars(s[1..], t, u);
    }
  }

  lemma {:induction false} ContainsLater(s: string, k: nat, u: string)
    requires k <= |s| && Contains(s[k..], u)
    ensures Contains(s, u)
    decreases k
  {
    if k > 0 {
      assert s[1..][k - 1..] == s[k..];
      ContainsLater(s[1..], k - 1, u);
    }
  }

  /** `s` split at every '.', as `String.prototype.split('.')`. */
  function Split(s: string): (r: seq<string>)
    ensures |r| >= 1
    decreases |s|
  {
    if s == [] then [""]
    else
      var rest := Split(s[1..]);
      if s[0] == '.' then [""] + rest
      else [[s[0]] + rest[0]] + rest[1..]
  }

  /** Segments joined with '.', as `Array.prototype.join('.')`. */
  function Join(parts: seq<string>): string
    requires |parts| >= 1
    decreases |parts|
  {
    if |parts| == 1 then parts[0] else parts[0] + "." + Join(parts[1..])
  }

  predicate NoDots(parts: seq<string>)
  {
    forall i :: 0 <= i < |parts| ==> '.' !in parts[i]
  }

  lemma {:induction false} SplitNoDots(s: string)
    ensures NoDots(Split(s))
    decreases |s|
  {
    if s != [] {
      SplitNoDots(s[1..]);
      var rest := Split(s[1..]);
      if s[0] != '.' {
        var r := Split(s);
        assert r[0] == [s[0]] + rest[0];
        forall i | 0 <= i < |r| ensures '.' !in r[i] {
          if i > 0 { assert r[i] == rest[i]; }
        }
      }
    }
  }

  lemma JoinCons(c: char, head: string, tail: seq<string>)
    ensures Join([[c] + head] + tail) == [c] + Join([head] + tail)
  {
    if tail != [] {
      assert ([[c] + head] + tail)[1..] == tail;
      assert ([head] + tail)[1..] == tail;
    }
  }

  /** Splitting and joining again gives back the original string. */
  lemma {:induction false} JoinSplit(s: string)
    ensures Join(Split(s)) == s
    decreases |s|
  {
    if s != [] {
      JoinSplit(s[1..]);
      var rest := Split(s[1..]);
      if s[0] == '.' {
        assert ([""] + rest)[1..] == rest;
        assert s == "." + s[1..];
      } else {
        JoinCons(s[0], rest[0], rest[1..]);
        assert [rest[0]] + rest[1..] == rest;
        assert s == [s[0]] + s[1..];
      }
    }
  }

  lemma {:induction false} SplitDotFree(a: string)
    requires '.' !in a
    ensures Split(a) == [a]
    decreases |a|
  {
    if a != [] {
      SplitDotFree(a[1..]);
      assert [a[0]] + a[1..] == a;
    }
  }

  lemma {:induction false} SplitSegment(a: string, b: string)
    requires '.' !in a
    ensures Split(a + "." + b) == [a] + Split(b)
    decreases |a|
  {
    if a == [] {
      assert a + "." + b == "." + b;
      assert ("." + b)[1..] == b;
    } else {
      var s := a + "." + b;
      assert s[0] == a[0];
      assert s[1..] == a[1..] + "." + b;
      SplitSegment(a[1..], b);
      assert [a[0]] + a[1..] == a;
    }
  }

  /** Joining dot-free segments and splitting again gives back the segments. */
  lemma {:induction false} SplitJoin(parts: seq<string>)
    requires |parts| >= 1 && NoDots(parts)
    ensures Split(Join(parts)) == parts
    decreases |parts|
  {
    if |parts| == 1 {
      SplitDotFree(parts[0]);
    } else {
      assert NoDots(parts[1..]) by {
        forall i | 0 <= i < |parts| - 1 ensures '.' !in parts[1..][i] {
          assert parts[1..][i] == parts[i + 1];
        }
      }
      SplitJoin(parts[1..]);
      SplitSegment(parts[0], Join(parts[1..]));
      assert [parts[0]] + parts[1..] == parts;
    }
  }

  lemma {:induction false} JoinAppend(p: seq<string>, q: seq<string>)
    requires |p| >= 1 && |q| >= 1
    ensures Join(p + q) == Join(p) + "." + Join(q)
    decreases |p|
  {
    if |p| == 1 {
      assert (p + q)[1..] == q;
    } else {
      assert (p + q)[1..] == p[1..] + q;
      JoinAppend(p[1..], q);
    }
  }

  /** A path `prefix + "." + key` names the key's segments below the prefix's. */
  lemma SplitConcat(a: string, b: string)
    ensures Split(a + "." + b) == Split(a) + Split(b)
  {
    var p, q := Split(a), Split(b);
    JoinSplit(a);
    JoinSplit(b);
    JoinAppend(p, q);
    SplitNoDots(a);
    SplitNoDots(b);
    assert NoDots(p + q) by {
      forall i | 0 <= i < |p + q| ensures '.' !in (p + q)[i] {
        if i < |p| { assert (p + q)[i] == p[i]; } else { assert (p + q)[i] == q[i - |p|]; }
      }
    }
    SplitJoin(p + q);
  }
}
