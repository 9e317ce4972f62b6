/**
 * `filepath.Match(pattern, name)` on a system whose separator is '/'.
 *
 * Pattern syntax: `*` matches any run of non-'/' characters, `?` one non-'/'
 * character, `[...]` one character in (or, with a leading `^`, not in) a
 * non-empty list of characters and `lo-hi` ranges, `\c` the character c, and
 * every other character itself.  A pattern that breaks this syntax is
 * `BadPattern`, which callers that ignore the error read as "no match".
 *
 * `Match` follows Go's scan chunk by chunk (`Scan`), which keeps the first
 * place a chunk after `*` fits.  `MatchTokens` is the declarative relation
 * (some way of splitting the name fits the pattern): every match of the
 * scan is one of it (`ScanSound`), the two agree on a single chunk
 * (`LitsMatch`, `SuffixPattern`), and they part where a class can take '/'
 * (`ClassAcrossSlash`).
 */
module Glob {
  import opened Wrappers
  import Paths

  datatype Token =
    | Star
    | AnyChar
    | Lit(c: char)
    | Class(negated: bool, ranges: seq<(char, char)>)

  datatype MatchResult = Matched | NoMatch | BadPattern

  function Prepend(t: Token, rest: Option<seq<Token>>): Option<seq<Token>>
  {
    if rest.None? then None else Some([t] + rest.value)
  }

  /**
   * One class character, possibly escaped by `\`; as in Go's `getEsc` it may
   * not be '-' or ']' unescaped and must be followed by more of the pattern.
   */
  function ClassChar(s: string): (r: Option<(char, string)>)
    ensures r.Some? ==> |r.value.1| < |s| && r.value.1 != []
  {
    if s == [] || s[0] == '-' || s[0] == ']' then None
    else
      var t := if s[0] == '\\' then s[1..] else s;
      if t == [] || |t| == 1 then None
      else Some((t[0], t[1..]))
  }

  /** The ranges of a class after its `[` and optional `^`, up to the closing `]`. */
  function ClassRanges(s: string, acc: seq<(char, char)>): (r: Option<(seq<(char, char)>, string)>)
    ensures r.Some? ==> |r.value.1| < |s| && |r.value.0| > 0
    decreases |s|
  {
    if s != [] && s[0] == ']' && |acc| > 0 then Some((acc, s[1..]))
    else
      match ClassChar(s)
      case None => None
      case Some((lo, s1)) =>
        if s1[0] == '-' then
          match ClassChar(s1[1..])
          case None => None
          case Some((hi, s2)) => ClassRanges(s2, acc + [(lo, hi)])
        else ClassRanges(s1, acc + [(lo, lo)])
  }

  /** A class token from the text after `[`, with the rest of the pattern. */
  function ParseClass(s: string): (r: Option<(Token, string)>)
    ensures r.Some? ==> |r.value.1| < |s|
  {
    var negated := s != [] && s[0] == '^';
    var body := if negated then s[1..] else s;
    match ClassRanges(body, [])
    case None => None
    case Some((ranges, rest)) => Some((Class(negated, ranges), rest))
  }

  /** The tokens of a pattern, or `None` for a malformed one. */
  function Tokenize(p: string): Option<seq<Token>>
    decreases |p|
  {
    if p == [] then Some([])
    else if p[0] == '*' then Prepend(Star, Tokenize(p[1..]))
    else if p[0] == '?' then Prepend(AnyChar, Tokenize(p[1..]))
    else if p[0] == '\\' then
      if |p| == 1 then None else Prepend(Lit(p[1]), Tokenize(p[2..]))
    else if p[0] == '[' then
      match ParseClass(p[1..])
      case None => None
      case Some((tok, rest)) => Prepend(tok, Tokenize(rest))
    else Prepend(Lit(p[0]), Tokenize(p[1..]))
  }

  predicate InRanges(c: char, ranges: seq<(char, char)>)
  {
    exists i :: 0 <= i < |ranges| && ranges[i].0 <= c <= ranges[i].1
  }

  /** Whether a token other than `*` takes the character `c`: `?` takes any but '/', a class may take '/'. */
  predicate Takes(t: Token, c: char)
  {
    match t
    case Star => false
    case AnyChar => c != '/'
    case Lit(d) => c == d
    case Class(negated, ranges) => InRanges(c, ranges) != negated
  }

  /**
   * The declarative glob relation: whether the whole of `s` can be split so
   * that every `*` takes a run without '/' and every other token one
   * character.  `Scan` below is what Go computes; `ScanSound` relates the two.
   */
  predicate MatchTokens(ts: seq<Token>, s: string)
    decreases |ts| + |s|
  {
    if ts == [] then s == []
    else if ts[0].Star? then
      MatchTokens(ts[1..], s) || (s != [] && s[0] != '/' && MatchTokens(ts, s[1..]))
    else s != [] && Takes(ts[0], s[0]) && MatchTokens(ts[1..], s[1..])
  }

  /** The length of the chunk that opens `ts`: its tokens up to the next `*`. */
  function ChunkLen(ts: seq<Token>): (n: nat)
    ensures n <= |ts|
    ensures forall i :: 0 <= i < n ==> !ts[i].Star?
    ensures n < |ts| ==> ts[n].Star?
  {
    if ts == [] || ts[0].Star? then 0 else 1 + ChunkLen(ts[1..])
  }

  /** What `scanChunk` cuts from the front of a pattern. */
  datatype Cut = Cut(star: bool, chunk: seq<Token>, rest: seq<Token>)

  /**
   * `scanChunk`: whether the pattern opens with stars, the chunk after them
   * (no `*` in it) and the tokens after the chunk (empty, or opening with `*`).
   */
  function ScanChunk(ts: seq<Token>): (c: Cut)
    requires ts != []
    ensures c.star == ts[0].Star?
    ensures |c.rest| < |ts|
    ensures c.rest != [] ==> c.rest[0].Star? && c.chunk != []
    ensures c.star || c.chunk != []
    decreases |ts|
  {
    if ts[0].Star? then
      if |ts| > 1 && ts[1].Star? then ScanChunk(ts[1..])
      else
        var n := ChunkLen(ts[1..]);
        Cut(true, ts[1..][..n], ts[1..][n..])
    else
      var n := ChunkLen(ts);
      Cut(false, ts[..n], ts[n..])
  }

  /**
   * `matchChunk`: a chunk (no `*`) against the front of `s`, one character
   * per token; the text it leaves, or `None`.
   */
  function MatchChunk(chunk: seq<Token>, s: string): (r: Option<string>)
    ensures r.Some? ==> |chunk| <= |s| && r.value == s[|chunk|..]
  {
    if chunk == [] then Some(s)
    else if s != [] && Takes(chunk[0], s[0]) then MatchChunk(chunk[1..], s[1..])
    else None
  }

  /**
   * Go's scan (`filepath.Match`'s loop): skip the leading stars, cut the
   * chunk up to the next `*` and match it at the front of `s`.  A match is
   * kept if text remains only when more pattern remains; otherwise, when the
   * chunk followed a `*`, it is retried after each further character up to
   * the first '/', and the FIRST position where it fits is kept, never
   * revisited.  A trailing `*` takes any rest without '/'.
   */
  predicate Scan(ts: seq<Token>, s: string)
    decreases |ts|, |s| + 1
  {
    if ts == [] then s == []
    else
      var c := ScanChunk(ts);
      if c.star && c.chunk == [] then '/' !in s
      else
        var m := MatchChunk(c.chunk, s);
        if m.Some? && (m.value == [] || c.rest != []) then Scan(c.rest, m.value)
        else c.star && Retry(c.chunk, c.rest, s, 0)
  }

  /** The retry loop of `Scan`: the star takes `s[..i + 1]` and the chunk is tried after it. */
  predicate Retry(chunk: seq<Token>, rest: seq<Token>, s: string, i: nat)
    requires i <= |s|
    decreases |rest| + 1, |s| - i
  {
    if i == |s| || s[i] == '/' then false
    else
      var m := MatchChunk(chunk, s[i + 1..]);
      if m.Some? && (m.value == [] || rest != []) then Scan(rest, m.value)
      else Retry(chunk, rest, s, i + 1)
  }

  /** `filepath.Match`: matched, not matched, or `ErrBadPattern`. */
  function Match(pattern: string, name: string): MatchResult
  {
    match Tokenize(pattern)
    case None => BadPattern
    case Some(ts) => if Scan(ts, name) then Matched else NoMatch
  }

  /** A chunk that fits the front of `s`, followed by tokens matching what it leaves, matches `s`. */
  lemma {:induction false} ChunkThen(chunk: seq<Token>, rest: seq<Token>, s: string)
    requires MatchChunk(chunk, s).Some?
    requires MatchTokens(rest, MatchChunk(chunk, s).value)
    ensures MatchTokens(chunk + rest, s)
  {
    if chunk != [] {
      assert s != [] && Takes(chunk[0], s[0]) && !chunk[0].Star?;
      assert MatchChunk(chunk, s) == MatchChunk(chunk[1..], s[1..]);
      ChunkThen(chunk[1..], rest, s[1..]);
      var ts := chunk + rest;
      assert ts[0] == chunk[0] && ts[1..] == chunk[1..] + rest;
    } else {
      assert chunk + rest == rest;
    }
  }

  /** The stars `scanChunk` skips may take nothing. */
  lemma {:induction false} CutStars(ts: seq<Token>, s: string)
    requires ts != [] && MatchTokens(ScanChunk(ts).chunk + ScanChunk(ts).rest, s)
    ensures MatchTokens(ts, s)
    decreases |ts|
  {
    var c := ScanChunk(ts);
    if ts[0].Star? {
      if |ts| > 1 && ts[1].Star? {
        CutStars(ts[1..], s);
      } else {
        var n := ChunkLen(ts[1..]);
        assert c.chunk + c.rest == ts[1..];
      }
    } else {
      assert c.chunk + c.rest == ts;
    }
  }

  /** A leading star takes a prefix without '/'. */
  lemma {:induction false} StarTakes(ts: seq<Token>, s: string, k: nat)
    requires ts != [] && ts[0].Star?
    requires k <= |s| && forall j :: 0 <= j < k ==> s[j] != '/'
    requires MatchTokens(ts, s[k..])
    ensures MatchTokens(ts, s)
    decreases k
  {
    if k > 0 {
      assert s[k - 1..][1..] == s[k..];
      StarTakes(ts, s, k - 1);
    }
  }

  /** Every match Go's scan finds is a match of the declarative relation. */
  lemma {:induction false} ScanSound(ts: seq<Token>, s: string)
    requires Scan(ts, s)
    ensures MatchTokens(ts, s)
    decreases |ts|, |s| + 1
  {
    if ts != [] {
      var c := ScanChunk(ts);
      if c.star && c.chunk == [] {
        var e: string := [];
        assert c.chunk + c.rest == [] && s[|s|..] == e;
        CutStars(ts, e);
        StarTakes(ts, s, |s|);
      } else {
        var m := MatchChunk(c.chunk, s);
        if m.Some? && (m.value == [] || c.rest != []) {
          ScanSound(c.rest, m.value);
          ChunkThen(c.chunk, c.rest, s);
          CutStars(ts, s);
        } else {
          RetrySound(ts, c.chunk, c.rest, s, 0);
        }
      }
    }
  }

  lemma {:induction false} RetrySound(ts: seq<Token>, chunk: seq<Token>, rest: seq<Token>, s: string, i: nat)
    requires ts != [] && ts[0].Star? && ScanChunk(ts) == Cut(true, chunk, rest)
    requires i <= |s| && forall j :: 0 <= j < i ==> s[j] != '/'
    requires Retry(chunk, rest, s, i)
    ensures MatchTokens(ts, s)
    decreases |rest| + 1, |s| - i
  {
    var m := MatchChunk(chunk, s[i + 1..]);
    if m.Some? && (m.value == [] || rest != []) {
      ScanSound(rest, m.value);
      ChunkThen(chunk, rest, s[i + 1..]);
      CutStars(ts, s[i + 1..]);
      StarTakes(ts, s, i + 1);
    } else {
      RetrySound(ts, chunk, rest, s, i + 1);
    }
  }

  /** Tokens that can only match '/' by a literal '/' or a class. */
  predicate SlashFree(ts: seq<Token>)
  {
    forall i :: 0 <= i < |ts| ==> ts[i] != Lit('/') && !ts[i].Class?
  }

  lemma {:induction false} SlashFreeTokensNoSlash(ts: seq<Token>, s: string)
    requires SlashFree(ts)
    requires MatchTokens(ts, s)
    ensures '/' !in s
    decreases |ts| + |s|
  {
    if ts != [] {
      if ts[0].Star? {
        if MatchTokens(ts[1..], s) {
          SlashFreeTokensNoSlash(ts[1..], s);
        } else {
          SlashFreeTokensNoSlash(ts, s[1..]);
          assert s == [s[0]] + s[1..];
        }
      } else {
        SlashFreeTokensNoSlash(ts[1..], s[1..]);
        assert s == [s[0]] + s[1..];
      }
    }
  }

  /**
   * `*` and `?` never match '/': a pattern without '/' and without classes
   * only ever matches a name without '/' (which is why the exclusion test
   * also matches each pattern against the base name).
   */
  lemma SlashFreeMatchesNoSlash(ts: seq<Token>, s: string)
    requires SlashFree(ts)
    requires Scan(ts, s)
    ensures '/' !in s
  {
    ScanSound(ts, s);
    SlashFreeTokensNoSlash(ts, s);
  }

  /** Text with no character the pattern syntax treats specially. */
  predicate Plain(x: string)
  {
    forall i :: 0 <= i < |x| ==> x[i] != '*' && x[i] != '?' && x[i] != '[' && x[i] != '\\'
  }

  /** The tokens matching `x` literally. */
  function Lits(x: string): (r: seq<Token>)
    ensures |r| == |x| && forall i :: 0 <= i < |x| ==> r[i] == Lit(x[i])
  {
    if x == [] then [] else [Lit(x[0])] + Lits(x[1..])
  }

  lemma {:induction false} TokenizePlain(x: string)
    requires Plain(x)
    ensures Tokenize(x) == Some(Lits(x))
  {
    if x != [] {
      assert Plain(x[1..]) by {
        forall i | 0 <= i < |x[1..]| ensures x[1..][i] == x[i + 1] { }
      }
      TokenizePlain(x[1..]);
    }
  }

  /** Two non-empty sequences are equal exactly when their heads and their tails are. */
  lemma HeadTailEqual<T>(a: seq<T>, b: seq<T>)
    requires a != [] && b != []
    ensures a == b <==> a[0] == b[0] && a[1..] == b[1..]
  {
    if a[0] == b[0] && a[1..] == b[1..] {
      assert a == [a[0]] + a[1..];
      assert b == [b[0]] + b[1..];
    }
  }

  lemma {:induction false} LitsMatchTokens(x: string, s: string)
    ensures MatchTokens(Lits(x), s) <==> s == x
  {
    if x != [] {
      var ts := Lits(x);
      assert ts[0] == Lit(x[0]) && ts[1..] == Lits(x[1..]);
      if s != [] {
        LitsMatchTokens(x[1..], s[1..]);
        HeadTailEqual(s, x);
      }
    }
  }

  /** Literal tokens fit the front of `s` exactly when `s` starts with their text. */
  lemma {:induction false} LitsChunk(x: string, s: string)
    ensures MatchChunk(Lits(x), s) == if |x| <= |s| && s[..|x|] == x then Some(s[|x|..]) else None
  {
    if x != [] {
      var ts := Lits(x);
      assert ts[0] == Lit(x[0]) && ts[1..] == Lits(x[1..]);
      if s != [] {
        LitsChunk(x[1..], s[1..]);
        if |x| <= |s| {
          HeadTailEqual(s[..|x|], x);
          assert s[..|x|][1..] == s[1..][..|x| - 1];
          assert s[1..][|x| - 1..] == s[|x|..];
        }
      }
    }
  }

  /** Literal text is one chunk, so Go's scan and the declarative relation agree on it. */
  lemma LitsMatch(x: string, s: string)
    ensures Scan(Lits(x), s) <==> s == x
  {
    if x != [] {
      var ts := Lits(x);
      assert ChunkLen(ts) == |x|;
      assert ts[..|x|] == ts && ts[|x|..] == [];
      assert ScanChunk(ts) == Cut(false, ts, []);
      LitsChunk(x, s);
      if s == x {
        assert s[..|x|] == x && s[|x|..] == [];
      }
    }
  }

  /**
   * `*` followed by literal text without '/' matches, declaratively, exactly
   * the names without '/' that end with that text.
   */
  lemma {:induction false} StarSuffix(x: string, s: string)
    requires '/' !in x
    ensures MatchTokens([Star] + Lits(x), s) <==> '/' !in s && Paths.HasSuffix(s, x)
    decreases |s|
  {
    var ts := [Star] + Lits(x);
    assert ts[0] == Star && ts[1..] == Lits(x);
    LitsMatchTokens(x, s);
    if s != [] {
      StarSuffix(x, s[1..]);
      Paths.HasSuffixTail(s, x);
      assert s == [s[0]] + s[1..];
    }
  }

  /** Go's retry loop for a final literal chunk reaches the position where the text ends the name. */
  lemma {:induction false} RetryFindsSuffix(x: string, s: string, i: nat)
    requires x != [] && '/' !in s
    requires i < |s| - |x| && s[|s| - |x|..] == x
    ensures Retry(Lits(x), [], s, i)
    decreases |s| - i
  {
    LitsChunk(x, s[i + 1..]);
    if i + 1 < |s| - |x| {
      assert s[i + 1..][..|x|] == x ==> |s[i + 1..]| > |x|;
      RetryFindsSuffix(x, s, i + 1);
    } else {
      assert s[i + 1..] == x;
      assert s[i + 1..][..|x|] == x && s[i + 1..][|x|..] == [];
    }
  }

  /** Go's scan of `*` + literal text finds every suffix match. */
  lemma ScanSuffix(x: string, s: string)
    requires '/' !in x && '/' !in s && Paths.HasSuffix(s, x)
    ensures Scan([Star] + Lits(x), s)
  {
    var ts := [Star] + Lits(x);
    assert ts[1..] == Lits(x);
    if x == [] {
      assert ScanChunk(ts) == Cut(true, [], []);
    } else {
      var body := Lits(x);
      assert ChunkLen(body) == |x|;
      assert body[..|x|] == body && body[|x|..] == [];
      assert ScanChunk(ts) == Cut(true, body, []);
      LitsChunk(x, s);
      if |s| == |x| {
        assert s[..|x|] == s[|s| - |x|..] && s[|x|..] == [];
      } else {
        RetryFindsSuffix(x, s, 0);
      }
    }
  }

  /**
   * The glob `"*" + x` for plain `x` without '/': a suffix test on a single
   * path element (one final chunk, where Go's scan and the declarative
   * relation agree).
   */
  lemma SuffixPattern(x: string, s: string)
    requires Plain(x) && '/' !in x
    ensures Match("*" + x, s) == if '/' !in s && Paths.HasSuffix(s, x) then Matched else NoMatch
  {
    TokenizePlain(x);
    assert ("*" + x)[1..] == x;
    assert Tokenize("*" + x) == Some([Star] + Lits(x));
    StarSuffix(x, s);
    if Scan([Star] + Lits(x), s) {
      ScanSound([Star] + Lits(x), s);
    }
    if '/' !in s && Paths.HasSuffix(s, x) {
      ScanSuffix(x, s);
    }
  }

  /**
   * Where Go's scan and the declarative relation part: `[^x]` takes '/', so
   * `*[^x]*b` matches "a/b" declaratively (`*` takes "a", the class '/',
   * `*b` "b"), but Go keeps the first place the class fits, "a", and the
   * final `*b` cannot cross the '/' left over.
   */
  /** The tokens of `*[^x]*b`: a star, a negated class, a star and a literal. */
  lemma ClassPatternTokens()
    ensures Tokenize("*[^x]*b") == Some([Star, Class(true, [('x', 'x')]), Star, Lit('b')])
  {
    var e: string := [];
    assert "b"[1..] == e && "*b"[1..] == "b";
    assert Tokenize(e) == Some([]);
    assert Tokenize("b") == Prepend(Lit('b'), Tokenize(e));
    assert Tokenize("*b") == Prepend(Star, Tokenize("b"));
    var none_t: seq<Token> := [];
    assert [Lit('b')] + none_t == [Lit('b')] && [Star] + [Lit('b')] == [Star, Lit('b')];
    assert [Class(true, [('x', 'x')])] + [Star, Lit('b')] == [Class(true, [('x', 'x')]), Star, Lit('b')];
    assert [Star] + [Class(true, [('x', 'x')]), Star, Lit('b')] == [Star, Class(true, [('x', 'x')]), Star, Lit('b')];
    assert "x]*b"[1..] == "]*b" && "]*b"[1..] == "*b";
    assert ClassChar("x]*b") == Some(('x', "]*b"));
    assert ClassRanges("]*b", [('x', 'x')]) == Some(([('x', 'x')], "*b"));
    var none: seq<(char, char)> := [];
    assert none + [('x', 'x')] == [('x', 'x')];
    assert ClassRanges("x]*b", none) == Some(([('x', 'x')], "*b"));
    assert "^x]*b"[1..] == "x]*b";
    assert ParseClass("^x]*b") == Some((Class(true, [('x', 'x')]), "*b"));
    assert "[^x]*b"[1..] == "^x]*b" && "*[^x]*b"[1..] == "[^x]*b";
    assert Tokenize("*b") == Some([Star, Lit('b')]);
    assert Tokenize("[^x]*b") == Prepend(Class(true, [('x', 'x')]), Tokenize("*b"));
    assert Tokenize("[^x]*b") == Some([Class(true, [('x', 'x')]), Star, Lit('b')]);
  }

  lemma ClassAcrossSlash()
    ensures Tokenize("*[^x]*b") == Some([Star, Class(true, [('x', 'x')]), Star, Lit('b')])
    ensures MatchTokens([Star, Class(true, [('x', 'x')]), Star, Lit('b')], "a/b")
    ensures Match("*[^x]*b", "a/b") == NoMatch
  {
    var k := Class(true, [('x', 'x')]);
    var ts := [Star, k, Star, Lit('b')];
    var tail := [Star, Lit('b')];
    assert ts[1..] == [k] + tail && ts[2..] == tail;
    assert tail[1..] == [Lit('b')] && [Lit('b')][1..] == [];

    ClassPatternTokens();

    assert "a/b"[1..] == "/b" && "/b"[1..] == "b" && "b"[1..] == "";
    assert MatchTokens([Lit('b')], "b");
    assert MatchTokens(tail, "b");
    assert MatchTokens([k] + tail, "/b");
    assert MatchTokens(ts, "a/b");

    assert ChunkLen(tail[1..]) == 1;
    assert ScanChunk(tail) == Cut(true, [Lit('b')], []);
    assert !Scan(tail, "/b");
    assert ChunkLen(ts[1..]) == 1;
    assert ScanChunk(ts) == Cut(true, [k], tail);
    assert MatchChunk([k], "a/b") == Some("/b");
    assert !Scan(ts, "a/b");
  }

  /** `*.log` matches a name ending in ".log". */
  lemma LogMatchesName()
    ensures Match("*.log", "x.log") == Matched
  {
    assert "*.log" == "*" + ".log";
    SuffixPattern(".log", "x.log");
  }

  /** `*` does not cross '/'. */
  lemma LogSkipsNestedPath()
    ensures Match("*.log", "a/b/x.log") == NoMatch
  {
    assert "*.log" == "*" + ".log";
    SuffixPattern(".log", "a/b/x.log");
    assert "a/b/x.log"[1] == '/';
  }

  /** The literal text must end the name. */
  lemma LogSkipsLongerName()
    ensures Match("*.log", "x.logx") == NoMatch
  {
    assert "*.log" == "*" + ".log";
    SuffixPattern(".log", "x.logx");
  }

  /** An unclosed class is a malformed pattern. */
  lemma OpenClassIsBad()
    ensures Match("[", "x") == BadPattern
  {
    assert ParseClass("") == None;
  }

  lemma LogPatternExamples()
    ensures Match("*.log", "x.log") == Matched
    ensures Match("*.log", "a/b/x.log") == NoMatch
    ensures Match("*.log", "x.logx") == NoMatch
    ensures Match("[", "x") == BadPattern
  {
    LogMatchesName();
    LogSkipsNestedPath();
    LogSkipsLongerName();
    OpenClassIsBad();
  }
}
