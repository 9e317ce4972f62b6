/**
 * The file system the commands run against, as a tree rooted at "/".  A
 * well-formed directory lists its entries in strictly increasing name order,
 * which is the order `os.ReadDir` returns them and `filepath.Walk` visits
 * them; the write operations insert new entries in that order and so keep a
 * tree well formed.  File contents are abstract: an opaque blob, a JSON
 * document (the bytes of its encoding), or a tar archive given by its entries.
 *
 * `Disk` is the mutable file system of the running process together with its
 * working directory; its methods are the `os` calls the core makes.
 */
module FileTree {
  import opened Wrappers
  import Json
  import Paths

  /** Permission bits: 0755, 0644 and 0666 in octal. */
  const ExecPerm: int := 0x1ED
  const FilePerm: int := 0x1A4
  const CreatePerm: int := 0x1B6

  datatype Data =
    | Blob(tag: string)
    | Doc(value: Json.Value)
    | Tar(entries: seq<TarEntry>)

  /** A tar header as written by `tar.Writer.WriteHeader`, with the file's bytes. */
  datatype TarEntry =
    | DirEntry(name: string, mode: int)
    | FileEntry(name: string, mode: int, data: Data)

  datatype Node = File(perm: int, data: Data) | Dir(entries: seq<Entry>)

  datatype Entry = Entry(name: string, node: Node)

  /** A path as a list of components, from the root. */
  type Path = seq<string>

  datatype FsError = NotFound | NotADirectory | IsADirectory | NotEmpty | Invalid

  /** Byte-wise lexicographic order of names (code-point order equals UTF-8 byte order). */
  predicate Less(a: string, b: string)
  {
    if a == [] then b != []
    else if b == [] then false
    else if a[0] != b[0] then a[0] < b[0]
    else Less(a[1..], b[1..])
  }

  predicate IsPrefix(a: Path, b: Path)
  {
    |a| <= |b| && b[..|a|] == a
  }

  // ---------------------------------------------------------------- lookup

  function Lookup(n: Node, p: Path): Option<Node>
    decreases |p|, 1
  {
    if p == [] then Some(n)
    else match n
      case File(_, _) => None
      case Dir(es) => LookupIn(es, p)
  }

  /** The node at `p` below the first entry named `p[0]`. */
  function LookupIn(es: seq<Entry>, p: Path): Option<Node>
    requires p != []
    decreases |p|, 0, |es|
  {
    if es == [] then None
    else if es[0].name == p[0] then Lookup(es[0].node, p[1..])
    else LookupIn(es[1..], p)
  }

  predicate Named(es: seq<Entry>, name: string)
  {
    es != [] && (es[0].name == name || Named(es[1..], name))
  }

  predicate IsFile(o: Option<Node>)
  {
    o.Some? && o.value.File?
  }

  predicate IsDir(o: Option<Node>)
  {
    o.Some? && o.value.Dir?
  }

  /** Some prefix of `p`, `p` itself included, is a file. */
  predicate FileOnPath(n: Node, p: Path)
  {
    exists k :: 0 <= k <= |p| && IsFile(Lookup(n, p[..k]))
  }

  // ---------------------------------------------------------------- update

  /**
   * The tree with the node at `p` set to `v` (`None` deletes it).  Missing
   * directories on the way are created; callers only set paths whose proper
   * prefixes are directories or missing.
   */
  function SetAt(n: Node, p: Path, v: Option<Node>): Node
    requires p != []
    decreases |p|, 1, 0
  {
    Dir(SetIn(if n.Dir? then n.entries else [], p, v))
  }

  function SetIn(es: seq<Entry>, p: Path, v: Option<Node>): seq<Entry>
    requires p != []
    decreases |p|, 0, |es| + 1
  {
    if Named(es, p[0]) then Replace(es, p, v) else InsertEntry(es, Fresh(p, v))
  }

  /** The entries to add for a path whose first component does not exist yet. */
  function Fresh(p: Path, v: Option<Node>): seq<Entry>
    requires p != []
    decreases |p|, 0, 0
  {
    if v.None? then []
    else if |p| == 1 then [Entry(p[0], v.value)]
    else [Entry(p[0], SetAt(Dir([]), p[1..], v))]
  }

  /** Rewrites the first entry named `p[0]`; deleting a name deletes every entry of that name. */
  function Replace(es: seq<Entry>, p: Path, v: Option<Node>): seq<Entry>
    requires p != []
    decreases |p|, 0, |es|
  {
    if es == [] then []
    else if es[0].name == p[0] then
      if |p| > 1 then [Entry(p[0], SetAt(es[0].node, p[1..], v))] + es[1..]
      else if v.Some? then [Entry(p[0], v.value)] + es[1..]
      else Drop(es[1..], p[0])
    else [es[0]] + Replace(es[1..], p, v)
  }

  /** The entries not named `name`. */
  function Drop(es: seq<Entry>, name: string): seq<Entry>
  {
    if es == [] then [] else (if es[0].name == name then [] else [es[0]]) + Drop(es[1..], name)
  }

  /** Inserts the (at most one) added entry before the first entry with a greater name. */
  function InsertEntry(es: seq<Entry>, added: seq<Entry>): seq<Entry>
  {
    if added == [] then es
    else if es == [] || Less(added[0].name, es[0].name) then added + es
    else [es[0]] + InsertEntry(es[1..], added)
  }

  // ------------------------------------------------------------ lookup lemmas

  lemma {:induction false} LookupInAbsent(es: seq<Entry>, p: Path)
    requires p != [] && !Named(es, p[0])
    ensures LookupIn(es, p) == None
    decreases es
  {
    if es != [] {
      LookupInAbsent(es[1..], p);
    }
  }

  lemma {:induction false} LookupInInsert(es: seq<Entry>, added: seq<Entry>, q: Path)
    requires q != [] && |added| <= 1
    ensures added == [] || added[0].name != q[0] ==> LookupIn(InsertEntry(es, added), q) == LookupIn(es, q)
    ensures added != [] && added[0].name == q[0] && !Named(es, q[0]) ==>
      LookupIn(InsertEntry(es, added), q) == Lookup(added[0].node, q[1..])
    decreases es
  {
    if added != [] && es != [] && !Less(added[0].name, es[0].name) {
      LookupInInsert(es[1..], added, q);
    }
    if added != [] && added[0].name == q[0] && !Named(es, q[0]) {
      if es != [] && Less(added[0].name, es[0].name) {
        assert (added + es)[0] == added[0];
      }
    }
    if added != [] && (es == [] || Less(added[0].name, es[0].name)) && added[0].name != q[0] {
      assert (added + es)[0] == added[0] && (added + es)[1..] == es;
    }
  }

  lemma {:induction false} LookupInReplace(es: seq<Entry>, p: Path, v: Option<Node>, q: Path)
    requires p != [] && q != []
    ensures q[0] != p[0] ==> LookupIn(Replace(es, p, v), q) == LookupIn(es, q)
    ensures q[0] == p[0] && |p| > 1 && |q| > 1 && Named(es, p[0]) ==>
      exists i :: 0 <= i < |es| && es[i].name == p[0] && LookupIn(es, q) == Lookup(es[i].node, q[1..]) &&
        LookupIn(Replace(es, p, v), q) == Lookup(SetAt(es[i].node, p[1..], v), q[1..])
    ensures q[0] == p[0] && |p| == 1 && Named(es, p[0]) ==>
      LookupIn(Replace(es, p, v), q) == (if v.Some? then Lookup(v.value, q[1..]) else None)
    decreases es
  {
    if es == [] {
      return;
    }
    var r := Replace(es, p, v);
    if es[0].name == p[0] {
      if |p| > 1 {
        var e := Entry(p[0], SetAt(es[0].node, p[1..], v));
        assert r == [e] + es[1..];
        assert r[0] == e && r[1..] == es[1..];
        if q[0] == p[0] && |q| > 1 {
          assert es[0].name == p[0] && LookupIn(es, q) == Lookup(es[0].node, q[1..]);
        }
      } else if v.Some? {
        var e := Entry(p[0], v.value);
        assert r == [e] + es[1..];
        assert r[0] == e && r[1..] == es[1..];
      } else {
        assert r == Drop(es[1..], p[0]);
        LookupInDrop(es[1..], p[0], q);
      }
    } else {
      LookupInReplace(es[1..], p, v, q);
      assert r == [es[0]] + Replace(es[1..], p, v);
      assert r[0] == es[0] && r[1..] == Replace(es[1..], p, v);
      if q[0] == p[0] && |p| > 1 && |q| > 1 && Named(es, p[0]) {
        var i :| 0 <= i < |es[1..]| && es[1..][i].name == p[0] && LookupIn(es[1..], q) == Lookup(es[1..][i].node, q[1..]) &&
          LookupIn(Replace(es[1..], p, v), q) == Lookup(SetAt(es[1..][i].node, p[1..], v), q[1..]);
        assert es[i + 1] == es[1..][i];
      }
    }
  }

  lemma {:induction false} LookupInDrop(es: seq<Entry>, name: string, q: Path)
    requires q != []
    ensures LookupIn(Drop(es, name), q) == if q[0] == name then None else LookupIn(es, q)
    decreases es
  {
    if es != [] {
      LookupInDrop(es[1..], name, q);
      var d := Drop(es, name);
      if es[0].name != name {
        assert d == [es[0]] + Drop(es[1..], name);
        assert d[0] == es[0] && d[1..] == Drop(es[1..], name);
      } else {
        assert d == Drop(es[1..], name);
      }
    }
  }

  lemma PrefixSingleton(p: Path, q: Path)
    requires |p| == 1 && q != [] && p[0] == q[0]
    ensures IsPrefix(p, q)
  {
    assert q[..1] == [q[0]];
  }

  lemma PrefixTail(p: Path, q: Path)
    requires p != [] && q != [] && p[0] == q[0]
    ensures IsPrefix(p[1..], q[1..]) <==> IsPrefix(p, q)
  {
    if IsPrefix(p[1..], q[1..]) {
      assert q[..|p|] == [q[0]] + q[1..][..|p| - 1];
    }
    if IsPrefix(p, q) {
      assert q[1..][..|p| - 1] == q[..|p|][1..];
    }
  }

  /** After setting `p` to `v`, the node at `p` is `v`. */
  lemma {:induction false} LookupSetSame(n: Node, p: Path, v: Option<Node>)
    requires p != []
    ensures Lookup(SetAt(n, p, v), p) == v
    decreases |p|
  {
    var es := if n.Dir? then n.entries else [];
    var q := p;
    if Named(es, p[0]) {
      if |p| > 1 {
        LookupInReplace(es, p, v, q);
        var i :| 0 <= i < |es| && es[i].name == p[0] && LookupIn(es, q) == Lookup(es[i].node, q[1..]) &&
          LookupIn(Replace(es, p, v), q) == Lookup(SetAt(es[i].node, p[1..], v), q[1..]);
        LookupSetSame(es[i].node, p[1..], v);
      } else {
        LookupInReplace(es, p, v, q);
      }
    } else {
      LookupInInsert(es, Fresh(p, v), q);
      if v.None? {
        LookupInAbsent(es, q);
      } else if |p| > 1 {
        LookupSetSame(Dir([]), p[1..], v);
      }
    }
  }

  /** Setting `p` leaves every path that neither extends nor is extended by `p` as it was. */
  lemma {:induction false} LookupSetOther(n: Node, p: Path, v: Option<Node>, q: Path)
    requires p != [] && !IsPrefix(p, q) && !IsPrefix(q, p)
    ensures Lookup(SetAt(n, p, v), q) == Lookup(n, q)
    decreases |p|
  {
    assert q != [];
    var es := if n.Dir? then n.entries else [];
    if q[0] != p[0] {
      if Named(es, p[0]) {
        LookupInReplace(es, p, v, q);
      } else {
        LookupInInsert(es, Fresh(p, v), q);
      }
      if n.File? {
        LookupInAbsent([], q);
      }
    } else {
      if |p| == 1 { PrefixSingleton(p, q); }
      if |q| == 1 { PrefixSingleton(q, p); }
      PrefixTail(p, q);
      PrefixTail(q, p);
      if Named(es, p[0]) {
        LookupInReplace(es, p, v, q);
        var i :| 0 <= i < |es| && es[i].name == p[0] && LookupIn(es, q) == Lookup(es[i].node, q[1..]) &&
          LookupIn(Replace(es, p, v), q) == Lookup(SetAt(es[i].node, p[1..], v), q[1..]);
        LookupSetOther(es[i].node, p[1..], v, q[1..]);
      } else {
        LookupInInsert(es, Fresh(p, v), q);
        LookupInAbsent(es, q);
        if v.Some? {
          LookupSetOther(Dir([]), p[1..], v, q[1..]);
        }
      }
    }
  }

  /** Looking up `a + b` is looking up `b` below the node at `a`. */
  lemma {:induction false} LookupConcat(n: Node, a: Path, b: Path)
    ensures Lookup(n, a + b) == (match Lookup(n, a) case None => None case Some(m) => Lookup(m, b))
    decreases |a|, 1
  {
    if a != [] && n.Dir? {
      LookupInConcat(n.entries, a, b);
    } else if a == [] {
      assert a + b == b;
    }
  }

  lemma {:induction false} LookupInConcat(es: seq<Entry>, a: Path, b: Path)
    requires a != []
    ensures LookupIn(es, a + b) == (match LookupIn(es, a) case None => None case Some(m) => Lookup(m, b))
    decreases |a|, 0, |es|
  {
    if es != [] {
      assert (a + b)[0] == a[0];
      if es[0].name == a[0] {
        assert (a + b)[1..] == a[1..] + b;
        LookupConcat(es[0].node, a[1..], b);
      } else {
        LookupInConcat(es[1..], a, b);
      }
    }
  }

  /** Below a deleted node nothing is left. */
  lemma LookupDeletedBelow(n: Node, p: Path, q: Path)
    requires p != [] && IsPrefix(p, q)
    ensures Lookup(SetAt(n, p, None), q) == None
  {
    LookupSetSame(n, p, None);
    assert q == p + q[|p|..];
    LookupConcat(SetAt(n, p, None), p, q[|p|..]);
  }

  /** Deleting an existing node never makes a missing path appear. */
  lemma DeleteKeepsMissing(n: Node, p: Path, q: Path)
    requires p != [] && Lookup(n, p).Some? && Lookup(n, q).None?
    ensures Lookup(SetAt(n, p, None), q) == None
  {
    if IsPrefix(p, q) {
      LookupDeletedBelow(n, p, q);
    } else if IsPrefix(q, p) {
      assert p == q + p[|q|..];
      LookupConcat(n, q, p[|q|..]);
      assert false;
    } else {
      LookupSetOther(n, p, None, q);
    }
  }

  /** A missing node has nothing below it. */
  lemma MissingBelow(n: Node, p: Path, q: Path)
    requires Lookup(n, p).None? && IsPrefix(p, q)
    ensures Lookup(n, q).None?
  {
    assert q == p + q[|p|..];
    LookupConcat(n, p, q[|p|..]);
  }

  // --------------------------------------------------------- well-formedness

  /** Strings are totally ordered by `Less`. */
  lemma {:induction false} LessIrreflexive(a: string)
    ensures !Less(a, a)
  {
    if a != [] {
      LessIrreflexive(a[1..]);
    }
  }

  lemma {:induction false} LessTransitive(a: string, b: string, c: string)
    requires Less(a, b) && Less(b, c)
    ensures Less(a, c)
  {
    if a != [] && a[0] == b[0] && b[0] == c[0] {
      LessTransitive(a[1..], b[1..], c[1..]);
    }
  }

  lemma {:induction false} LessTotal(a: string, b: string)
    requires a != b
    ensures Less(a, b) || Less(b, a)
  {
    if a != [] && b != [] && a[0] == b[0] {
      assert a == [a[0]] + a[1..] && b == [b[0]] + b[1..];
      LessTotal(a[1..], b[1..]);
    }
  }

  /** Every name of `es` comes after `b`. */
  predicate Above(b: string, es: seq<Entry>)
  {
    forall j :: 0 <= j < |es| ==> Less(b, es[j].name)
  }

  /** Names in strictly increasing order. */
  predicate Increasing(names: seq<string>)
  {
    forall i, j :: 0 <= i < j < |names| ==> Less(names[i], names[j])
  }

  /** A path whose every element is an ordinary name. */
  predicate AllSimple(p: Path)
  {
    forall i :: 0 <= i < |p| ==> Paths.Simple(p[i])
  }

  /**
   * A directory as `os.ReadDir` returns it: its entries carry ordinary
   * names, in strictly increasing name order, and are themselves well formed.
   */
  predicate WellFormed(n: Node)
    decreases n
  {
    match n
    case File(_, _) => true
    case Dir(es) => WellFormedIn(es)
  }

  predicate WellFormedIn(es: seq<Entry>)
    decreases es
  {
    es == [] ||
    (Paths.Simple(es[0].name) && Above(es[0].name, es[1..]) && WellFormed(es[0].node) && WellFormedIn(es[1..]))
  }

  /** A well-formed listing has strictly increasing names. */
  lemma {:induction false} WellFormedIncreasing(es: seq<Entry>, i: int, j: int)
    requires WellFormedIn(es) && 0 <= i < j < |es|
    ensures Less(es[i].name, es[j].name)
    decreases es
  {
    if i > 0 {
      WellFormedIncreasing(es[1..], i - 1, j - 1);
    } else {
      assert es[1..][j - 1] == es[j];
    }
  }

  /** Every entry of a well-formed listing has an ordinary name and is well formed. */
  lemma {:induction false} WellFormedEntry(es: seq<Entry>, i: int)
    requires WellFormedIn(es) && 0 <= i < |es|
    ensures Paths.Simple(es[i].name) && WellFormed(es[i].node)
    decreases es
  {
    if i > 0 {
      WellFormedEntry(es[1..], i - 1);
    }
  }

  lemma AboveTransitive(a: string, b: string, es: seq<Entry>)
    requires Less(a, b) && Above(b, es)
    ensures Above(a, es)
  {
    forall j | 0 <= j < |es|
      ensures Less(a, es[j].name)
    {
      LessTransitive(a, b, es[j].name);
    }
  }

  /** An entry put in front of a well-formed listing whose names all follow its own. */
  lemma Cons(e: Entry, es: seq<Entry>)
    requires Paths.Simple(e.name) && Above(e.name, es) && WellFormed(e.node) && WellFormedIn(es)
    ensures WellFormedIn([e] + es)
  {
    assert ([e] + es)[0] == e && ([e] + es)[1..] == es;
  }

  lemma {:induction false} DropAbove(es: seq<Entry>, name: string, b: string)
    requires Above(b, es)
    ensures Above(b, Drop(es, name))
    decreases es
  {
    if es != [] {
      DropAbove(es[1..], name, b);
    }
  }

  lemma {:induction false} DropWellFormed(es: seq<Entry>, name: string)
    requires WellFormedIn(es)
    ensures WellFormedIn(Drop(es, name))
    decreases es
  {
    if es != [] {
      DropWellFormed(es[1..], name);
      if es[0].name != name {
        DropAbove(es[1..], name, es[0].name);
        Cons(es[0], Drop(es[1..], name));
      } else {
        assert Drop(es, name) == Drop(es[1..], name);
      }
    }
  }

  lemma {:induction false} ReplaceAbove(es: seq<Entry>, p: Path, v: Option<Node>, b: string)
    requires p != [] && Above(b, es)
    ensures Above(b, Replace(es, p, v))
    decreases es
  {
    if es != [] {
      if es[0].name != p[0] {
        ReplaceAbove(es[1..], p, v, b);
      } else if |p| == 1 && v.None? {
        DropAbove(es[1..], p[0], b);
      }
    }
  }

  lemma {:induction false} InsertAbove(es: seq<Entry>, added: seq<Entry>, b: string)
    requires |added| <= 1 && Above(b, es) && (added != [] ==> Less(b, added[0].name))
    ensures Above(b, InsertEntry(es, added))
    decreases es
  {
    if added != [] && es != [] && !Less(added[0].name, es[0].name) {
      InsertAbove(es[1..], added, b);
    }
  }

  lemma {:induction false} InsertWellFormed(es: seq<Entry>, added: seq<Entry>)
    requires |added| <= 1 && WellFormedIn(es) && WellFormedIn(added)
    requires added != [] ==> !Named(es, added[0].name)
    ensures WellFormedIn(InsertEntry(es, added))
    decreases es
  {
    if added != [] {
      var a := added[0];
      assert added == [a];
      if es == [] {
        assert added + es == added;
      } else if Less(a.name, es[0].name) {
        AboveTransitive(a.name, es[0].name, es[1..]);
        assert Above(a.name, es);
        Cons(a, es);
      } else {
        LessTotal(a.name, es[0].name);
        InsertAbove(es[1..], added, es[0].name);
        InsertWellFormed(es[1..], added);
        Cons(es[0], InsertEntry(es[1..], added));
      }
    }
  }

  /**
   * Setting a path of ordinary names to a well-formed node (or deleting it)
   * keeps a tree well formed.
   */
  lemma {:induction false} SetAtWellFormed(n: Node, p: Path, v: Option<Node>)
    requires p != [] && AllSimple(p) && WellFormed(n) && (v.Some? ==> WellFormed(v.value))
    ensures WellFormed(SetAt(n, p, v))
    decreases |p|, 1
  {
    SetInWellFormed(if n.Dir? then n.entries else [], p, v);
  }

  lemma {:induction false} SetInWellFormed(es: seq<Entry>, p: Path, v: Option<Node>)
    requires p != [] && AllSimple(p) && WellFormedIn(es) && (v.Some? ==> WellFormed(v.value))
    ensures WellFormedIn(SetIn(es, p, v))
    decreases |p|, 0, |es| + 1
  {
    if Named(es, p[0]) {
      ReplaceWellFormed(es, p, v);
    } else {
      FreshWellFormed(p, v);
      InsertWellFormed(es, Fresh(p, v));
    }
  }

  lemma {:induction false} FreshWellFormed(p: Path, v: Option<Node>)
    requires p != [] && AllSimple(p) && (v.Some? ==> WellFormed(v.value))
    ensures WellFormedIn(Fresh(p, v)) && |Fresh(p, v)| <= 1
    ensures Fresh(p, v) != [] ==> Fresh(p, v)[0].name == p[0]
    decreases |p|, 0, 0
  {
    if v.Some? {
      if |p| > 1 {
        SetAtWellFormed(Dir([]), p[1..], v);
      }
      var f := Fresh(p, v);
      assert f == [f[0]] && f[1..] == [];
    }
  }

  lemma {:induction false} ReplaceWellFormed(es: seq<Entry>, p: Path, v: Option<Node>)
    requires p != [] && AllSimple(p) && WellFormedIn(es) && (v.Some? ==> WellFormed(v.value))
    ensures WellFormedIn(Replace(es, p, v))
    decreases |p|, 0, |es|
  {
    if es != [] {
      if es[0].name == p[0] {
        if |p| > 1 {
          SetAtWellFormed(es[0].node, p[1..], v);
          Cons(Entry(p[0], SetAt(es[0].node, p[1..], v)), es[1..]);
        } else if v.Some? {
          Cons(Entry(p[0], v.value), es[1..]);
        } else {
          DropWellFormed(es[1..], p[0]);
        }
      } else {
        ReplaceAbove(es[1..], p, v, es[0].name);
        ReplaceWellFormed(es[1..], p, v);
        Cons(es[0], Replace(es[1..], p, v));
      }
    }
  }

  /** Every node of a well-formed tree is well formed. */
  lemma {:induction false} LookupWellFormed(n: Node, p: Path)
    requires WellFormed(n) && Lookup(n, p).Some?
    ensures WellFormed(Lookup(n, p).value)
    decreases |p|, 1
  {
    if p != [] {
      LookupInWellFormed(n.entries, p);
    }
  }

  lemma {:induction false} LookupInWellFormed(es: seq<Entry>, p: Path)
    requires p != [] && WellFormedIn(es) && LookupIn(es, p).Some?
    ensures WellFormed(LookupIn(es, p).value)
    decreases |p|, 0, |es|
  {
    if es[0].name == p[0] {
      LookupWellFormed(es[0].node, p[1..]);
    } else {
      LookupInWellFormed(es[1..], p);
    }
  }

  /**
   * Lexical resolution onto a stack of ordinary names, in a rooted path,
   * leaves only ordinary names: "", "." and ".." never stay.
   */
  lemma {:induction false} NormalizeSimple(parts: seq<string>, acc: Path)
    requires AllSimple(acc) && forall i :: 0 <= i < |parts| ==> '/' !in parts[i]
    ensures AllSimple(Paths.Normalize(parts, acc, true))
    decreases |parts|
  {
    if parts != [] {
      var c := parts[0];
      assert '/' !in c;
      if c == "" || c == "." {
        NormalizeSimple(parts[1..], acc);
      } else if c == ".." {
        if |acc| > 0 && acc[|acc| - 1] != ".." {
          NormalizeSimple(parts[1..], acc[..|acc| - 1]);
        } else {
          NormalizeSimple(parts[1..], acc);
        }
      } else {
        NormalizeSimple(parts[1..], acc + [c]);
      }
    }
  }

  /** A path string resolves, from a working directory of ordinary names, to ordinary names. */
  lemma LocateSimple(cwd: Path, path: string)
    requires AllSimple(cwd) && path != ""
    ensures AllSimple(Paths.Locate(cwd, path).value)
  {
    Paths.SplitOnSpec(path, '/');
    NormalizeSimple(Paths.SplitOn(path, '/'), if path[0] == '/' then [] else cwd);
  }

  // ------------------------------------------------------- the os operations

  /** `os.MkdirAll`: creates the missing directories of `p`; fails if any of its prefixes is a file. */
  function MkdirAllAt(root: Node, p: Path): Result<Node, FsError>
  {
    if FileOnPath(root, p) then Err(NotADirectory)
    else if Lookup(root, p).Some? then Ok(root)
    else Ok(SetAt(root, p, Some(Dir([]))))
  }

  /**
   * `os.WriteFile` and `os.Create`: the parent must be a directory and `p`
   * not one; an existing file keeps its permissions, a new one gets `perm`.
   */
  function WriteFileAt(root: Node, p: Path, data: Data, perm: int): Result<Node, FsError>
  {
    if p == [] then Err(IsADirectory)
    else if !IsDir(Lookup(root, p[..|p| - 1])) then Err(NotFound)
    else match Lookup(root, p)
      case Some(Dir(_)) => Err(IsADirectory)
      case Some(File(kept, _)) => Ok(SetAt(root, p, Some(File(kept, data))))
      case None => Ok(SetAt(root, p, Some(File(perm, data))))
  }

  /** `os.Remove`: a file or an empty directory. */
  function RemoveAt(root: Node, p: Path): Result<Node, FsError>
  {
    if p == [] then Err(Invalid)
    else match Lookup(root, p)
      case None => Err(NotFound)
      case Some(Dir(es)) => if es != [] then Err(NotEmpty) else Ok(SetAt(root, p, None))
      case Some(File(_, _)) => Ok(SetAt(root, p, None))
  }

  /** `os.RemoveAll`: the subtree at `p`; a missing `p` is not an error. */
  function RemoveAllAt(root: Node, p: Path): Result<Node, FsError>
  {
    if p == [] then Err(Invalid)
    else if FileOnPath(root, p[..|p| - 1]) then Err(NotADirectory)
    else if Lookup(root, p).None? then Ok(root)
    else Ok(SetAt(root, p, None))
  }

  /** The same operations on path strings, resolved in the working directory `cwd`. */
  function StatPath(root: Node, cwd: Path, path: string): Option<Node>
  {
    match Paths.Locate(cwd, path)
    case None => None
    case Some(p) => Lookup(root, p)
  }

  function MkdirAllPath(root: Node, cwd: Path, path: string): Result<Node, FsError>
  {
    match Paths.Locate(cwd, path)
    case None => Err(NotFound)
    case Some(p) => MkdirAllAt(root, p)
  }

  function WriteFilePath(root: Node, cwd: Path, path: string, data: Data, perm: int): Result<Node, FsError>
  {
    match Paths.Locate(cwd, path)
    case None => Err(NotFound)
    case Some(p) => WriteFileAt(root, p, data, perm)
  }

  function RemovePath(root: Node, cwd: Path, path: string): Result<Node, FsError>
  {
    match Paths.Locate(cwd, path)
    case None => Err(NotFound)
    case Some(p) => RemoveAt(root, p)
  }

  /** `endsWithDot`: the path is "." or ends in "/.". */
  predicate EndsWithDot(path: string)
  {
    path == "." || (|path| >= 2 && path[|path| - 1] == '.' && path[|path| - 2] == '/')
  }

  /** The last element of the path is "." or "..", a directory `rmdir` never removes. */
  predicate DotBase(path: string)
  {
    Paths.Base(path) == "." || Paths.Base(path) == ".."
  }

  /** The tree with the directory at `p` emptied. */
  function Emptied(root: Node, p: Path): Node
  {
    if p == [] then Dir([]) else SetAt(root, p, Some(Dir([])))
  }

  /**
   * `os.RemoveAll` on a string: the tree it leaves and whether it succeeded.
   * The empty path is silently accepted, and "." or a path ending in "/." is
   * refused.  Any other path whose last element is "." or ".." names a
   * directory that cannot itself be removed: its contents are removed and
   * the call then fails.
   */
  function RemoveAllPath(root: Node, cwd: Path, path: string): (Node, bool)
  {
    if path == "" then (root, true)
    else if EndsWithDot(path) then (root, false)
    else
      var p := Paths.Locate(cwd, path).value;
      if DotBase(path) then
        if FileOnPath(root, p) then (root, false)
        else if Lookup(root, p).None? then (root, true)
        else (Emptied(root, p), false)
      else match RemoveAllAt(root, p)
        case Err(_) => (root, false)
        case Ok(r) => (r, true)
  }

  /**
   * What `os.RemoveAll` leaves: after success nothing is at the path, unless
   * it ends in "." or ".." (then it named nothing and nothing changed); a
   * refused path or any other failure changes nothing, except that a
   * directory named through "." or ".." is left empty.
   */
  lemma RemoveAllPathEffect(root: Node, cwd: Path, path: string)
    ensures var (r, ok) := RemoveAllPath(root, cwd, path);
      (EndsWithDot(path) ==> !ok && r == root) &&
      (ok && !DotBase(path) ==> StatPath(r, cwd, path).None?) &&
      (ok && DotBase(path) ==> r == root) &&
      (!ok && !DotBase(path) ==> r == root) &&
      (!ok && r != root ==>
        DotBase(path) && !EndsWithDot(path) && IsDir(StatPath(root, cwd, path)) && StatPath(r, cwd, path) == Some(Dir([])))
  {
    if path != "" && !EndsWithDot(path) {
      var p := Paths.Locate(cwd, path).value;
      if DotBase(path) {
        if !FileOnPath(root, p) && Lookup(root, p).Some? {
          assert p[..|p|] == p;
          if p != [] {
            LookupSetSame(root, p, Some(Dir([])));
          }
        }
      } else if RemoveAllAt(root, p).Ok? {
        if p != [] {
          RemoveAllEffect(root, p, p);
        }
      }
    }
  }

  /** After a successful `MkdirAll` the path is a directory and every file is where it was. */
  lemma MkdirAllKeepsFiles(root: Node, p: Path, q: Path)
    requires MkdirAllAt(root, p).Ok?
    ensures IsDir(Lookup(MkdirAllAt(root, p).value, p))
    ensures IsFile(Lookup(root, q)) ==> Lookup(MkdirAllAt(root, p).value, q) == Lookup(root, q)
  {
    if Lookup(root, p).None? {
      LookupSetSame(root, p, Some(Dir([])));
      if IsFile(Lookup(root, q)) {
        if IsPrefix(q, p) {
          assert p[..|q|] == q;
          assert FileOnPath(root, p);
        } else if IsPrefix(p, q) {
          MissingBelow(root, p, q);
        } else {
          LookupSetOther(root, p, Some(Dir([])), q);
        }
      }
    } else {
      assert p[..|p|] == p;
    }
  }

  /** A successful write puts the data at the path and touches no unrelated path. */
  lemma WriteFileEffect(root: Node, p: Path, data: Data, perm: int, q: Path)
    requires WriteFileAt(root, p, data, perm).Ok?
    ensures var r := WriteFileAt(root, p, data, perm).value;
      Lookup(r, p).Some? && Lookup(r, p).value.File? && Lookup(r, p).value.data == data
      && (Lookup(root, p).None? ==> Lookup(r, p).value.perm == perm)
      && (!IsPrefix(p, q) && !IsPrefix(q, p) ==> Lookup(r, q) == Lookup(root, q))
  {
    var v := Some(File(if Lookup(root, p).Some? then Lookup(root, p).value.perm else perm, data));
    LookupSetSame(root, p, v);
    if !IsPrefix(p, q) && !IsPrefix(q, p) {
      LookupSetOther(root, p, v, q);
    }
  }

  /** Nothing lies below a file. */
  lemma FileBelowNone(n: Node, q: Path, p: Path)
    requires IsFile(Lookup(n, q)) && IsPrefix(q, p) && q != p
    ensures Lookup(n, p).None?
  {
    assert p == q + p[|q|..];
    LookupConcat(n, q, p[|q|..]);
  }

  /** Every prefix of a directory's path is a directory. */
  lemma DirsAbove(n: Node, a: Path, k: nat)
    requires IsDir(Lookup(n, a)) && k <= |a|
    ensures IsDir(Lookup(n, a[..k]))
  {
    assert a == a[..k] + a[k..];
    LookupConcat(n, a[..k], a[k..]);
  }

  /** No file lies on the path of a directory. */
  lemma NoFileAbove(n: Node, a: Path, q: Path)
    requires IsDir(Lookup(n, a)) && IsFile(Lookup(n, q))
    ensures !IsPrefix(q, a)
  {
    if |q| <= |a| {
      DirsAbove(n, a, |q|);
    }
  }

  lemma PrefixOfParent(q: Path, p: Path)
    requires p != []
    ensures IsPrefix(q, p) && q != p ==> IsPrefix(q, p[..|p| - 1])
  {
    assert p[..|p|] == p;
    if IsPrefix(q, p) && q != p {
      assert p[..|p| - 1][..|q|] == p[..|q|];
    }
  }

  /** Creating a new file leaves every existing file as it was. */
  lemma WriteNewKeepsFiles(root: Node, p: Path, data: Data, perm: int, q: Path)
    requires WriteFileAt(root, p, data, perm).Ok? && Lookup(root, p).None?
    requires IsFile(Lookup(root, q))
    ensures Lookup(WriteFileAt(root, p, data, perm).value, q) == Lookup(root, q)
  {
    PrefixOfParent(q, p);
    NoFileAbove(root, p[..|p| - 1], q);
    if IsPrefix(p, q) {
      MissingBelow(root, p, q);
    } else {
      WriteFileEffect(root, p, data, perm, q);
    }
  }

  /** Removing a file or an empty directory leaves nothing at its path. */
  lemma RemoveEffect(root: Node, p: Path, q: Path)
    requires RemoveAt(root, p).Ok?
    ensures Lookup(RemoveAt(root, p).value, p).None?
    ensures Lookup(root, q).None? ==> Lookup(RemoveAt(root, p).value, q).None?
  {
    LookupSetSame(root, p, None);
    if Lookup(root, q).None? {
      DeleteKeepsMissing(root, p, q);
    }
  }

  /** After a successful `RemoveAll` nothing is left at or below the path. */
  lemma RemoveAllEffect(root: Node, p: Path, q: Path)
    requires RemoveAllAt(root, p).Ok? && IsPrefix(p, q)
    ensures Lookup(RemoveAllAt(root, p).value, q).None?
  {
    if Lookup(root, p).None? {
      MissingBelow(root, p, q);
    } else {
      LookupDeletedBelow(root, p, q);
    }
  }

  /** A successful write removes no file: every file is still a file afterwards. */
  lemma WriteKeepsFiles(root: Node, p: Path, data: Data, perm: int, q: Path)
    requires WriteFileAt(root, p, data, perm).Ok? && IsFile(Lookup(root, q))
    ensures IsFile(Lookup(WriteFileAt(root, p, data, perm).value, q))
  {
    PrefixOfParent(q, p);
    NoFileAbove(root, p[..|p| - 1], q);
    WriteFileEffect(root, p, data, perm, q);
    if IsPrefix(p, q) && p != q {
      if Lookup(root, p).None? {
        MissingBelow(root, p, q);
      } else {
        FileBelowNone(root, p, q);
      }
    }
  }

  /** A file or nothing, as `Stat` finds it. */
  predicate FileOrNone(o: Option<Node>)
  {
    o.None? || o.value.File?
  }

  /**
   * Removing a file or an empty directory leaves every other file or
   * missing path a file or missing.
   */
  lemma RemoveKeepsFileOrNone(root: Node, p: Path, q: Path)
    requires RemoveAt(root, p).Ok? && FileOrNone(Lookup(root, q))
    ensures FileOrNone(Lookup(RemoveAt(root, p).value, q))
  {
    RemoveEffect(root, p, q);
    if Lookup(root, q).Some? {
      if IsPrefix(p, q) {
        LookupDeletedBelow(root, p, q);
      } else if IsPrefix(q, p) && q != p {
        FileBelowNone(root, q, p);
      } else if q != p {
        LookupSetOther(root, p, None, q);
      }
    }
  }

  /** The string-path forms: `MkdirAll` and `WriteFile` remove no file. */
  lemma MkdirAllPathKeepsFiles(root: Node, cwd: Path, path: string, s: string)
    requires MkdirAllPath(root, cwd, path).Ok? && IsFile(StatPath(root, cwd, s))
    ensures StatPath(MkdirAllPath(root, cwd, path).value, cwd, s) == StatPath(root, cwd, s)
  {
    MkdirAllKeepsFiles(root, Paths.Locate(cwd, path).value, Paths.Locate(cwd, s).value);
  }

  lemma WritePathKeepsFiles(root: Node, cwd: Path, path: string, data: Data, perm: int, s: string)
    requires WriteFilePath(root, cwd, path, data, perm).Ok? && IsFile(StatPath(root, cwd, s))
    ensures IsFile(StatPath(WriteFilePath(root, cwd, path, data, perm).value, cwd, s))
  {
    WriteKeepsFiles(root, Paths.Locate(cwd, path).value, data, perm, Paths.Locate(cwd, s).value);
  }

  /** Creating a file where there was none leaves every existing file as it was. */
  lemma WriteNewPathKeepsFiles(root: Node, cwd: Path, path: string, data: Data, perm: int, s: string)
    requires WriteFilePath(root, cwd, path, data, perm).Ok? && StatPath(root, cwd, path).None?
    requires IsFile(StatPath(root, cwd, s))
    ensures StatPath(WriteFilePath(root, cwd, path, data, perm).value, cwd, s) == StatPath(root, cwd, s)
  {
    WriteNewKeepsFiles(root, Paths.Locate(cwd, path).value, data, perm, Paths.Locate(cwd, s).value);
  }

  /**
   * After a successful `Remove` of a path, the path is gone, and every path
   * that was a file or missing is still a file or missing.
   */
  lemma RemovePathEffect(root: Node, cwd: Path, path: string, s: string)
    requires RemovePath(root, cwd, path).Ok?
    ensures StatPath(RemovePath(root, cwd, path).value, cwd, path).None?
    ensures StatPath(root, cwd, s).None? ==> StatPath(RemovePath(root, cwd, path).value, cwd, s).None?
    ensures FileOrNone(StatPath(root, cwd, s)) ==> FileOrNone(StatPath(RemovePath(root, cwd, path).value, cwd, s))
  {
    var p := Paths.Locate(cwd, path).value;
    RemoveEffect(root, p, p);
    if s != "" {
      var q := Paths.Locate(cwd, s).value;
      RemoveEffect(root, p, q);
      if FileOrNone(Lookup(root, q)) {
        RemoveKeepsFileOrNone(root, p, q);
      }
    }
  }

  /** Writing a file leaves its siblings as they were. */
  lemma WriteSiblingKeeps(root: Node, p: Path, a: string, b: string, data: Data, perm: int)
    requires WriteFileAt(root, p + [a], data, perm).Ok? && a != b
    ensures Lookup(WriteFileAt(root, p + [a], data, perm).value, p + [b]) == Lookup(root, p + [b])
  {
    assert (p + [a])[|p|] != (p + [b])[|p|];
    WriteFileEffect(root, p + [a], data, perm, p + [b]);
  }

  /** Creating a directory leaves its siblings as they were. */
  lemma MkdirSiblingKeeps(root: Node, p: Path, a: string, b: string)
    requires MkdirAllAt(root, p + [a]).Ok? && a != b
    ensures Lookup(MkdirAllAt(root, p + [a]).value, p + [b]) == Lookup(root, p + [b])
  {
    if Lookup(root, p + [a]).None? {
      assert (p + [a])[|p|] != (p + [b])[|p|];
      LookupSetOther(root, p + [a], Some(Dir([])), p + [b]);
    }
  }

  /** What was written to a path string is what is read back from it. */
  lemma WriteThenStat(root: Node, cwd: Path, path: string, data: Data, perm: int)
    requires WriteFilePath(root, cwd, path, data, perm).Ok?
    ensures var n := StatPath(WriteFilePath(root, cwd, path, data, perm).value, cwd, path);
      n.Some? && n.value.File? && n.value.data == data
  {
    var p := Paths.Locate(cwd, path).value;
    WriteFileEffect(root, p, data, perm, p);
  }

  /** No file lies on the path of a directory, so `MkdirAll` of it changes nothing. */
  lemma DirMkdirAll(n: Node, p: Path)
    requires IsDir(Lookup(n, p))
    ensures !FileOnPath(n, p) && MkdirAllAt(n, p) == Ok(n)
  {
    if FileOnPath(n, p) {
      var k :| 0 <= k <= |p| && IsFile(Lookup(n, p[..k]));
      DirsAbove(n, p, k);
    }
  }

  /** Whatever lies strictly above an existing node is a directory. */
  lemma FoundBelowDir(n: Node, q: Path, p: Path)
    requires IsPrefix(q, p) && q != p && Lookup(n, p).Some?
    ensures IsDir(Lookup(n, q))
  {
    assert p == q + p[|q|..];
    LookupConcat(n, q, p[|q|..]);
  }

  /** A write neither creates nor removes a directory. */
  lemma WriteDirs(root: Node, p: Path, data: Data, perm: int, q: Path)
    requires WriteFileAt(root, p, data, perm).Ok?
    ensures IsDir(Lookup(WriteFileAt(root, p, data, perm).value, q)) <==> IsDir(Lookup(root, q))
  {
    var r := WriteFileAt(root, p, data, perm).value;
    WriteFileEffect(root, p, data, perm, q);
    WriteFileEffect(root, p, data, perm, p);
    if IsPrefix(p, q) && q != p {
      FileBelowNone(r, p, q);
      if Lookup(root, p).None? {
        MissingBelow(root, p, q);
      } else {
        FileBelowNone(root, p, q);
      }
    } else if IsPrefix(q, p) && q != p {
      PrefixOfParent(q, p);
      DirsAbove(root, p[..|p| - 1], |q|);
      assert p[..|p| - 1][..|q|] == q;
      FoundBelowDir(r, q, p);
    }
  }

  /** `MkdirAll` creates directories only on its own path and leaves every other path as it was. */
  lemma MkdirAllElsewhere(root: Node, p: Path, q: Path)
    requires MkdirAllAt(root, p).Ok? && !IsPrefix(q, p)
    ensures IsDir(Lookup(MkdirAllAt(root, p).value, q)) ==> IsDir(Lookup(root, q))
    ensures !IsPrefix(p, q) ==> Lookup(MkdirAllAt(root, p).value, q) == Lookup(root, q)
  {
    if Lookup(root, p).None? {
      var r := SetAt(root, p, Some(Dir([])));
      if IsPrefix(p, q) {
        MissingBelow(root, p, q);
        LookupSetSame(root, p, Some(Dir([])));
        assert q == p + q[|p|..] && q[|p|..] != [];
        LookupConcat(r, p, q[|p|..]);
      } else {
        LookupSetOther(root, p, Some(Dir([])), q);
      }
    }
  }

  // ------------------------------------------------------------------ walk

  /** The files at or below `n` in `filepath.Walk` order, as paths relative to `n`. */
  function WalkFiles(n: Node): seq<Path>
    decreases n
  {
    match n
    case File(_, _) => [[]]
    case Dir(es) => WalkIn(es)
  }

  function WalkIn(es: seq<Entry>): seq<Path>
    decreases es
  {
    if es == [] then [] else Under(es[0].name, WalkFiles(es[0].node)) + WalkIn(es[1..])
  }

  function Under(name: string, ps: seq<Path>): (r: seq<Path>)
    ensures |r| == |ps|
    ensures forall i :: 0 <= i < |ps| ==> r[i] == [name] + ps[i]
  {
    if ps == [] then [] else [[name] + ps[0]] + Under(name, ps[1..])
  }

  /** Paths in lexicographic order of their elements; a path comes before its extensions. */
  predicate PathLess(a: Path, b: Path)
    decreases |a|
  {
    b != [] && (a == [] || Less(a[0], b[0]) || (a[0] == b[0] && PathLess(a[1..], b[1..])))
  }

  predicate PathsIncreasing(ps: seq<Path>)
  {
    forall i, j :: 0 <= i < j < |ps| ==> PathLess(ps[i], ps[j])
  }

  lemma UnderIncreasing(name: string, ps: seq<Path>)
    requires PathsIncreasing(ps)
    ensures PathsIncreasing(Under(name, ps))
  {
    var us := Under(name, ps);
    LessIrreflexive(name);
    forall i, j | 0 <= i < j < |us|
      ensures PathLess(us[i], us[j])
    {
      assert us[i][1..] == ps[i] && us[j][1..] == ps[j];
    }
  }

  /** Every path the walk of a listing visits starts with a name of the listing. */
  lemma {:induction false} WalkInAbove(es: seq<Entry>, b: string)
    requires Above(b, es)
    ensures forall k :: 0 <= k < |WalkIn(es)| ==> WalkIn(es)[k] != [] && Less(b, WalkIn(es)[k][0])
    decreases es
  {
    if es != [] {
      WalkInAbove(es[1..], b);
      var head := Under(es[0].name, WalkFiles(es[0].node));
      var w := WalkIn(es);
      forall k | 0 <= k < |w|
        ensures w[k] != [] && Less(b, w[k][0])
      {
        if k < |head| {
          assert w[k] == head[k];
        } else {
          assert w[k] == WalkIn(es[1..])[k - |head|];
        }
      }
    }
  }

  /**
   * The walk of a well-formed tree visits its files in lexical order, as
   * `filepath.Walk` does.
   */
  lemma {:induction false} WalkIncreasing(n: Node)
    requires WellFormed(n)
    ensures PathsIncreasing(WalkFiles(n))
    decreases n
  {
    if n.Dir? {
      WalkInIncreasing(n.entries);
    }
  }

  lemma {:induction false} WalkInIncreasing(es: seq<Entry>)
    requires WellFormedIn(es)
    ensures PathsIncreasing(WalkIn(es))
    decreases es
  {
    if es != [] {
      var a := Under(es[0].name, WalkFiles(es[0].node));
      var b := WalkIn(es[1..]);
      WalkIncreasing(es[0].node);
      UnderIncreasing(es[0].name, WalkFiles(es[0].node));
      WalkInIncreasing(es[1..]);
      WalkInAbove(es[1..], es[0].name);
      var w := a + b;
      forall i, j | 0 <= i < j < |w|
        ensures PathLess(w[i], w[j])
      {
        if j < |a| {
          assert w[i] == a[i] && w[j] == a[j];
        } else if i >= |a| {
          assert w[i] == b[i - |a|] && w[j] == b[j - |a|];
        } else {
          assert w[i] == a[i] && w[j] == b[j - |a|];
          assert w[i][0] == es[0].name;
        }
      }
    }
  }

  /** The string-path operations keep a tree well formed. */
  lemma MkdirAllPathWellFormed(root: Node, cwd: Path, path: string)
    requires WellFormed(root) && AllSimple(cwd) && MkdirAllPath(root, cwd, path).Ok?
    ensures WellFormed(MkdirAllPath(root, cwd, path).value)
  {
    var p := Paths.Locate(cwd, path).value;
    LocateSimple(cwd, path);
    if p != [] {
      SetAtWellFormed(root, p, Some(Dir([])));
    }
  }

  lemma WriteFilePathWellFormed(root: Node, cwd: Path, path: string, data: Data, perm: int)
    requires WellFormed(root) && AllSimple(cwd) && WriteFilePath(root, cwd, path, data, perm).Ok?
    ensures WellFormed(WriteFilePath(root, cwd, path, data, perm).value)
  {
    var p := Paths.Locate(cwd, path).value;
    LocateSimple(cwd, path);
    var kept := if Lookup(root, p).Some? then Lookup(root, p).value.perm else perm;
    SetAtWellFormed(root, p, Some(File(kept, data)));
  }

  lemma RemovePathWellFormed(root: Node, cwd: Path, path: string)
    requires WellFormed(root) && AllSimple(cwd) && RemovePath(root, cwd, path).Ok?
    ensures WellFormed(RemovePath(root, cwd, path).value)
  {
    LocateSimple(cwd, path);
    SetAtWellFormed(root, Paths.Locate(cwd, path).value, None);
  }

  lemma RemoveAllPathWellFormed(root: Node, cwd: Path, path: string)
    requires WellFormed(root) && AllSimple(cwd)
    ensures WellFormed(RemoveAllPath(root, cwd, path).0)
  {
    if path != "" && !EndsWithDot(path) {
      var p := Paths.Locate(cwd, path).value;
      LocateSimple(cwd, path);
      EmptiedWellFormed(root, p);
      RemoveAllAtWellFormed(root, p);
    }
  }

  /** Emptying a directory keeps a tree well formed. */
  lemma EmptiedWellFormed(root: Node, p: Path)
    requires WellFormed(root) && AllSimple(p)
    ensures WellFormed(Emptied(root, p))
  {
    if p != [] {
      SetAtWellFormed(root, p, Some(Dir([])));
    }
  }

  /** Removing a subtree keeps a tree well formed. */
  lemma RemoveAllAtWellFormed(root: Node, p: Path)
    requires WellFormed(root) && AllSimple(p)
    ensures RemoveAllAt(root, p).Ok? ==> WellFormed(RemoveAllAt(root, p).value)
  {
    if p != [] {
      SetAtWellFormed(root, p, None);
    }
  }

  // ------------------------------------------------------------------ disk

  /** The process's file system and working directory. */
  class Disk {
    var root: Node
    const cwd: Path

    /**
     * The root is a directory, every directory lists its entries in name
     * order, and the working directory is a path of ordinary names.
     */
    ghost predicate Valid()
      reads this
    {
      root.Dir? && WellFormed(root) && AllSimple(cwd)
    }

    constructor (root: Node, cwd: Path)
      requires root.Dir? && WellFormed(root) && AllSimple(cwd)
      ensures Valid() && this.root == root && this.cwd == cwd
    {
      this.root := root;
      this.cwd := cwd;
    }

    function Stat(path: string): Option<Node>
      reads this
    {
      StatPath(root, cwd, path)
    }

    method MkdirAll(path: string) returns (ok: bool)
      requires Valid()
      modifies this
      ensures Valid()
      ensures var r := MkdirAllPath(old(root), cwd, path);
        ok == r.Ok? && root == (if ok then r.value else old(root))
    {
      var r := MkdirAllPath(root, cwd, path);
      ok := r.Ok?;
      if ok {
        MkdirAllPathWellFormed(root, cwd, path);
        root := r.value;
      }
    }

    method WriteFile(path: string, data: Data, perm: int) returns (ok: bool)
      requires Valid()
      modifies this
      ensures Valid()
      ensures var r := WriteFilePath(old(root), cwd, path, data, perm);
        ok == r.Ok? && root == (if ok then r.value else old(root))
    {
      var r := WriteFilePath(root, cwd, path, data, perm);
      ok := r.Ok?;
      if ok {
        WriteFilePathWellFormed(root, cwd, path, data, perm);
        root := r.value;
      }
    }

    method Remove(path: string) returns (ok: bool)
      requires Valid()
      modifies this
      ensures Valid()
      ensures var r := RemovePath(old(root), cwd, path);
        ok == r.Ok? && root == (if ok then r.value else old(root))
    {
      var r := RemovePath(root, cwd, path);
      ok := r.Ok?;
      if ok {
        RemovePathWellFormed(root, cwd, path);
        root := r.value;
      }
    }

    method RemoveAll(path: string) returns (ok: bool)
      requires Valid()
      modifies this
      ensures Valid()
      ensures (root, ok) == RemoveAllPath(old(root), cwd, path)
    {
      var r := RemoveAllPath(root, cwd, path);
      RemoveAllPathWellFormed(root, cwd, path);
      root, ok := r.0, r.1;
    }
  }
}
