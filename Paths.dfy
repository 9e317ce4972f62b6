/**
 * The string-path operations of Go's `strings` and `path/filepath` packages
 * that the core relies on, for a system whose separator is '/':
 * `strings.Split`, `strings.HasSuffix`, `strings.ReplaceAll` on one character,
 * `filepath.Clean`, `filepath.Join` of two elements and `filepath.Base`; and
 * the way the operating system resolves a path string against the working
 * directory (`Locate`).
 */
module Paths {
  import opened Wrappers

  /** Number of occurrences of `c` in `s`. */
  function CountChar(s: string, c: char): nat
  {
    if s == [] then 0 else (if s[0] == c then 1 else 0) + CountChar(s[1..], c)
  }

  /** `strings.Join(parts, string(sep))`. */
  function JoinWith(parts: seq<string>, sep: char): string
  {
    if parts == [] then ""
    else if |parts| == 1 then parts[0]
    else parts[0] + [sep] + JoinWith(parts[1..], sep)
  }

  /** `strings.Split(s, string(sep))`: never empty. */
  function SplitOn(s: string, sep: char): (parts: seq<string>)
    ensures |parts| >= 1
  {
    if s == [] then [""]
    else
      var rest := SplitOn(s[1..], sep);
      if s[0] == sep then [""] + rest
      else [[s[0]] + rest[0]] + rest[1..]
  }

  /**
   * What `strings.Split` promises: one more part than separators, no part
   * holds the separator, and joining the parts back with the separator gives
   * `s` again.
   */
  lemma {:induction false} SplitOnSpec(s: string, sep: char)
    ensures var parts := SplitOn(s, sep);
      |parts| == CountChar(s, sep) + 1 &&
      (forall i :: 0 <= i < |parts| ==> sep !in parts[i]) &&
      JoinWith(parts, sep) == s
  {
    if s != [] {
      SplitOnSpec(s[1..], sep);
      var rest := SplitOn(s[1..], sep);
      assert s == [s[0]] + s[1..];
      if s[0] == sep {
        assert ([""] + rest)[1..] == rest;
      } else {
        var head := [s[0]] + rest[0];
        assert ([head] + rest[1..])[1..] == rest[1..];
        if |rest| > 1 {
          assert rest == [rest[0]] + rest[1..];
        }
      }
    }
  }

  lemma {:induction false} CountAbsent(s: string, c: char)
    requires c !in s
    ensures CountChar(s, c) == 0
  {
    if s != [] {
      assert c !in s[1..];
      CountAbsent(s[1..], c);
    }
  }

  /** Splitting two separator-free halves joined by the separator gives the halves back. */
  lemma {:induction false} SplitOnPair(a: string, b: string, sep: char)
    requires sep !in a && sep !in b
    ensures SplitOn(a + [sep] + b, sep) == [a, b]
  {
    var s := a + [sep] + b;
    if a == [] {
      assert s[1..] == b;
      CountAbsent(b, sep);
      SplitOnSpec(b, sep);
      var rest := SplitOn(b, sep);
      assert |rest| == 1 && rest == [JoinWith(rest, sep)];
    } else {
      assert s[1..] == a[1..] + [sep] + b;
      assert sep !in a[1..];
      SplitOnPair(a[1..], b, sep);
      assert [a[0]] + a[1..] == a;
    }
  }

  /** `strings.HasSuffix(s, suffix)`. */
  predicate HasSuffix(s: string, suffix: string)
  {
    |suffix| <= |s| && s[|s| - |suffix|..] == suffix
  }

  /** A prefix does not change a suffix that the rest is long enough to hold. */
  lemma HasSuffixAppend(p: string, s: string, suffix: string)
    requires |suffix| <= |s|
    ensures HasSuffix(p + s, suffix) <==> HasSuffix(s, suffix)
  {
    assert (p + s)[|p + s| - |suffix|..] == s[|s| - |suffix|..];
  }

  /** A non-empty text ends with `x` when it is `x` or its tail ends with `x`. */
  lemma HasSuffixTail(s: string, x: string)
    requires s != []
    ensures HasSuffix(s, x) <==> s == x || HasSuffix(s[1..], x)
  {
    if |x| <= |s| - 1 {
      assert s[1..][|s[1..]| - |x|..] == s[|s| - |x|..];
    }
  }

  /** `strings.ReplaceAll(s, string(from), string(to))` for single characters. */
  function ReplaceChar(s: string, from: char, to: char): (r: string)
    ensures |r| == |s|
    ensures forall i :: 0 <= i < |s| ==> r[i] == (if s[i] == from then to else s[i])
  {
    if s == [] then [] else [if s[0] == from then to else s[0]] + ReplaceChar(s[1..], from, to)
  }

  /**
   * Lexical resolution of path elements, left to right, onto the stack `acc`:
   * empty and "." elements vanish, ".." drops the last element; at the root
   * (`rooted`) a ".." that has nothing to drop vanishes, in a relative path it
   * is kept.
   */
  function Normalize(parts: seq<string>, acc: seq<string>, rooted: bool): seq<string>
  {
    if parts == [] then acc
    else
      var c := parts[0];
      if c == "" || c == "." then Normalize(parts[1..], acc, rooted)
      else if c == ".." then
        if |acc| > 0 && acc[|acc| - 1] != ".." then Normalize(parts[1..], acc[..|acc| - 1], rooted)
        else if rooted then Normalize(parts[1..], acc, rooted)
        else Normalize(parts[1..], acc + [".."], rooted)
      else Normalize(parts[1..], acc + [c], rooted)
  }

  /** `filepath.Clean`: the shortest lexically equivalent path. */
  function Clean(p: string): (c: string)
    ensures c != ""
  {
    if p == "" then "."
    else
      var rooted := p[0] == '/';
      var body := JoinWith(Normalize(SplitOn(p, '/'), [], rooted), '/');
      if rooted then "/" + body
      else if body == "" then "."
      else body
  }

  /** `filepath.Join(a, b)`: empty elements are ignored and the result is cleaned. */
  function Join(a: string, b: string): string
  {
    if a != "" then Clean(a + "/" + b)
    else if b != "" then Clean(b)
    else ""
  }

  /** A single ordinary path element: not empty, no '/', not "." or "..". */
  predicate Simple(e: string)
  {
    e != "" && '/' !in e && e != "." && e != ".."
  }

  /** Joining two ordinary elements just puts a '/' between them. */
  lemma JoinSimple(a: string, b: string)
    requires Simple(a) && Simple(b)
    ensures Join(a, b) == a + "/" + b
  {
    SplitOnPair(a, b, '/');
    assert a + "/" + b == a + ['/'] + b;
    assert [a, b][1..] == [b];
    assert [b][1..] == [];
    assert JoinWith([a, b], '/') == a + "/" + b;
    var s := a + "/" + b;
    assert s[0] == a[0] && a[0] != '/';
    assert Normalize([a, b], [], false) == Normalize([b], [a], false) == [a, b] by {
      assert [a, b][1..] == [b];
      assert [] + [a] == [a];
      assert [a] + [b] == [a, b];
    }
  }

  /** The characters of `s` after its last '/'. */
  function LastElement(s: string): (r: string)
    ensures '/' !in r
    ensures |r| <= |s| && r == s[|s| - |r|..]
  {
    if s == [] || s[|s| - 1] == '/' then []
    else LastElement(s[..|s| - 1]) + [s[|s| - 1]]
  }

  /** `s` without its trailing '/' characters. */
  function TrimTrailingSlashes(s: string): (r: string)
    ensures r == [] || r[|r| - 1] != '/'
  {
    if s != [] && s[|s| - 1] == '/' then TrimTrailingSlashes(s[..|s| - 1]) else s
  }

  /**
   * `filepath.Base`: the last element of `p`, "." for the empty path, "/" for
   * a path made of slashes only.  It is never empty and holds no '/' unless it
   * is "/".
   */
  function Base(p: string): (b: string)
    ensures b != ""
    ensures b == "/" || '/' !in b
  {
    if p == "" then "."
    else
      var t := TrimTrailingSlashes(p);
      if t == "" then "/"
      else
        assert t[|t| - 1] != '/';
        LastElement(t)
  }

  lemma LastElementStep(t: string, c: char)
    requires c != '/'
    ensures LastElement(t + [c]) == LastElement(t) + [c]
  {
    var s := t + [c];
    assert s[..|s| - 1] == t;
  }

  /** The last element of `dir + name` is `name` when `dir` is empty or ends in '/' and `name` has no '/'. */
  lemma {:induction false} LastElementOf(dir: string, name: string)
    requires (dir == [] || dir[|dir| - 1] == '/') && '/' !in name
    ensures LastElement(dir + name) == name
    decreases |name|
  {
    if name == [] {
      assert dir + name == dir;
    } else {
      var init, c := name[..|name| - 1], name[|name| - 1];
      assert name == init + [c];
      assert dir + name == (dir + init) + [c];
      assert '/' !in init;
      LastElementOf(dir, init);
      LastElementStep(dir + init, c);
    }
  }

  /**
   * `filepath.Base` of a name, alone or after a directory prefix ending in
   * '/', is that name.
   */
  lemma BaseOfName(dir: string, name: string)
    requires (dir == [] || dir[|dir| - 1] == '/') && name != [] && '/' !in name
    ensures Base(dir + name) == name
  {
    var s := dir + name;
    assert s[|s| - 1] == name[|name| - 1];
    assert TrimTrailingSlashes(s) == s;
    LastElementOf(dir, name);
  }

  /**
   * The absolute component path that `p` names in the working directory
   * `cwd`, resolved lexically: empty elements and "." are dropped and ".."
   * drops the element before it, whether or not that element exists or is a
   * directory (the operating system would check each one).  The empty path
   * names nothing (every call on it fails with ENOENT).
   */
  function Locate(cwd: seq<string>, p: string): (r: Option<seq<string>>)
    ensures r.None? <==> p == ""
  {
    if p == "" then None
    else Some(Normalize(SplitOn(p, '/'), if p[0] == '/' then [] else cwd, true))
  }

  /**
   * An ordinary name below an ordinary directory name resolves to the same
   * place whether it is joined to the directory or resolved from inside it.
   */
  lemma LocateChild(cwd: seq<string>, dir: string, name: string)
    requires Simple(dir) && Simple(name)
    ensures Locate(cwd, Join(dir, name)) == Some(cwd + [dir, name])
    ensures Locate(cwd + [dir], name) == Some(cwd + [dir, name])
  {
    JoinSimple(dir, name);
    SplitOnPair(dir, name, '/');
    var joined := dir + "/" + name;
    assert joined == dir + ['/'] + name;
    assert joined[0] == dir[0] != '/';
    assert SplitOn(joined, '/') == [dir, name];
    assert Locate(cwd, joined) == Some(Normalize([dir, name], cwd, true));
    assert [dir, name][1..] == [name];
    assert Normalize([dir, name], cwd, true) == Normalize([name], cwd + [dir], true);
    assert [name][1..] == [];
    assert Normalize([name], cwd + [dir], true) == Normalize([], cwd + [dir] + [name], true);
    assert Join(dir, name) == joined;
    assert cwd + [dir] + [name] == cwd + [dir, name];
    CountAbsent(name, '/');
    SplitOnSpec(name, '/');
    assert SplitOn(name, '/') == [name];
  }

  /** An ordinary name resolves to itself below the working directory. */
  lemma LocateName(cwd: seq<string>, name: string)
    requires Simple(name)
    ensures Locate(cwd, name) == Some(cwd + [name])
  {
    CountAbsent(name, '/');
    SplitOnSpec(name, '/');
    assert SplitOn(name, '/') == [name];
    assert name[0] != '/';
    assert [name][1..] == [];
    assert Normalize([name], cwd, true) == Normalize([], cwd + [name], true);
  }

  /** Splitting at the first separator, after an element without one. */
  lemma {:induction false} SplitOnCons(a: string, rest: string, sep: char)
    requires sep !in a
    ensures SplitOn(a + [sep] + rest, sep) == [a] + SplitOn(rest, sep)
    decreases |a|
  {
    var s := a + [sep] + rest;
    if a == [] {
      assert s == [sep] + rest && s[1..] == rest;
    } else {
      assert s[1..] == a[1..] + [sep] + rest;
      assert sep !in a[1..];
      SplitOnCons(a[1..], rest, sep);
      assert [a[0]] + a[1..] == a;
    }
  }

  /** Three ordinary elements joined with '/' resolve to themselves, in order. */
  lemma LocateThree(cwd: seq<string>, a: string, b: string, c: string)
    requires Simple(a) && Simple(b) && Simple(c)
    ensures Locate(cwd, a + "/" + b + "/" + c) == Some(cwd + [a, b, c])
  {
    var s := a + "/" + b + "/" + c;
    assert s == a + ['/'] + (b + "/" + c);
    SplitOnCons(a, b + "/" + c, '/');
    SplitOnPair(b, c, '/');
    assert b + "/" + c == b + ['/'] + c;
    assert SplitOn(s, '/') == [a, b, c];
    assert s[0] == a[0] != '/';
    assert [a, b, c][1..] == [b, c] && [b, c][1..] == [c] && [c][1..] == [];
    assert Normalize([a, b, c], cwd, true) == Normalize([b, c], cwd + [a], true);
    assert Normalize([b, c], cwd + [a], true) == Normalize([c], cwd + [a] + [b], true);
    assert Normalize([c], cwd + [a] + [b], true) == Normalize([], cwd + [a] + [b] + [c], true);
    assert cwd + [a] + [b] + [c] == cwd + [a, b, c];
  }

  /** Joining an ordinary element to a join of two gives the three joined with '/'. */
  lemma JoinThree(a: string, b: string, c: string)
    requires Simple(a) && Simple(b) && Simple(c)
    ensures Join(Join(a, b), c) == a + "/" + b + "/" + c
  {
    JoinSimple(a, b);
    var s := a + "/" + b + "/" + c;
    assert Join(a, b) + "/" + c == s;
    assert s == a + ['/'] + (b + "/" + c);
    SplitOnCons(a, b + "/" + c, '/');
    SplitOnPair(b, c, '/');
    assert b + "/" + c == b + ['/'] + c;
    assert SplitOn(s, '/') == [a, b, c];
    assert s[0] == a[0] != '/';
    assert [a, b, c][1..] == [b, c] && [b, c][1..] == [c] && [c][1..] == [];
    assert Normalize([a, b, c], [], false) == [a, b, c] by {
      assert Normalize([a, b, c], [], false) == Normalize([b, c], [] + [a], false);
      assert [] + [a] == [a];
      assert Normalize([b, c], [a], false) == Normalize([c], [a] + [b], false);
      assert [a] + [b] == [a, b];
      assert Normalize([c], [a, b], false) == Normalize([], [a, b] + [c], false);
      assert [a, b] + [c] == [a, b, c];
    }
    assert JoinWith([a, b, c], '/') == s by {
      assert JoinWith([c], '/') == c;
      assert JoinWith([b, c], '/') == b + ['/'] + c;
      assert JoinWith([a, b, c], '/') == a + ['/'] + (b + ['/'] + c);
    }
  }
}
