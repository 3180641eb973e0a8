/** Route patterns of the backend router (virtue-scroll-api/src/router.ts).

    A pattern such as `/api/users/:id` is turned into an anchored regular expression by
    replacing every `/:name` (with `name` a maximal run of `\w` characters) by `/([^/]+)`;
    the application also registers the pattern `.*` as a catch-all. This module models the
    rewritten regex as a sequence of atoms, gives the anchored-match relation of that regex,
    and proves that on the patterns the router is given, matching is exactly a segment-by-
    segment comparison of the `/`-separated pieces of pattern and path.
 */
module Pattern {
  import opened Text

  /** One element of a compiled route regex. */
  datatype Atom =
    | Lit(c: char)   // the character itself
    | NonSlashRun    // `([^/]+)`: one or more characters other than `/`
    | AnyRun         // `.*`: zero or more characters other than line terminators

  type Regex = seq<Atom>

  /** What `.` refuses to match in a JavaScript regex without the `s` flag. */
  predicate IsLineTerminator(c: char) {
    c == '\n' || c == '\r' || c == '\U{2028}' || c == '\U{2029}'
  }

  predicate NoLineTerminator(s: string) {
    forall k :: 0 <= k < |s| ==> !IsLineTerminator(s[k])
  }

  /** `^re$` matches `s` (the regex is anchored at both ends, router.ts line 14). */
  predicate Matches(re: Regex, s: string)
    decreases |re|
  {
    if re == [] then s == []
    else match re[0]
      case Lit(c) => |s| > 0 && s[0] == c && Matches(re[1..], s[1..])
      case NonSlashRun => exists k | 1 <= k <= |s| :: '/' !in s[..k] && Matches(re[1..], s[k..])
      case AnyRun => exists k | 0 <= k <= |s| :: NoLineTerminator(s[..k]) && Matches(re[1..], s[k..])
  }

  // ---------------------------------------------------------------------------------------
  // Compiling a pattern string

  /** Length of the longest prefix of `s` made of `\w` characters (what `(\w+)` consumes). */
  function WordRun(s: string): (n: nat)
    ensures n <= |s|
    ensures forall k :: 0 <= k < n ==> IsWordChar(s[k])
    ensures n == |s| || !IsWordChar(s[n])
  {
    if s != [] && IsWordChar(s[0]) then 1 + WordRun(s[1..]) else 0
  }

  /** `pattern.replace(/\/:(\w+)/g, '/([^/]+)')`, with every other character read as itself. */
  function Rewrite(p: string): Regex
    decreases |p|
  {
    if p == [] then []
    else if |p| >= 3 && p[0] == '/' && p[1] == ':' && IsWordChar(p[2]) then
      [Lit('/'), NonSlashRun] + Rewrite(p[2 + WordRun(p[2..])..])
    else
      [Lit(p[0])] + Rewrite(p[1..])
  }

  /** Characters with a meaning of their own in a JavaScript regex. */
  predicate IsRegexMeta(c: char) {
    c in {'\\', '^', '$', '.', '|', '?', '*', '+', '(', ')', '[', ']', '{', '}'}
  }

  /** A piece of the form `:name` with a non-empty `\w` name: a path parameter. */
  predicate IsParamPiece(q: string) {
    |q| >= 2 && q[0] == ':' && forall k :: 1 <= k < |q| ==> IsWordChar(q[k])
  }

  /** A piece after a `/` that starts like a parameter is entirely a parameter. */
  predicate WholeParam(q: string) {
    (|q| >= 2 && q[0] == ':' && IsWordChar(q[1])) ==> IsParamPiece(q)
  }

  /** A pattern made of literal text and whole `:name` pieces, with no regex metacharacter.
      All path patterns the application registers have this form. */
  predicate IsPlainPattern(p: string) {
    && (forall k :: 0 <= k < |p| ==> !IsRegexMeta(p[k]))
    && var pieces := Split(p, '/');
       forall i :: 1 <= i < |pieces| ==> WholeParam(pieces[i])
  }

  /** The patterns this model gives a meaning to: plain path patterns and the catch-all. */
  predicate IsRoutePattern(p: string) {
    p == ".*" || IsPlainPattern(p)
  }

  /** The regex `new RegExp('^' + rewritten + '$')` denotes (router.ts line 14). */
  function Compile(p: string): Regex
    requires IsRoutePattern(p)
  {
    if p == ".*" then [AnyRun] else Rewrite(p)
  }

  // ---------------------------------------------------------------------------------------
  // The segment view of a pattern

  datatype Segment = Literal(text: string) | Param(name: string)

  function ParsePiece(q: string): Segment {
    if IsParamPiece(q) then Param(q[1..]) else Literal(q)
  }

  function ParseAll(qs: seq<string>): (segs: seq<Segment>)
    ensures |segs| == |qs|
    ensures forall i :: 0 <= i < |qs| ==> segs[i] == ParsePiece(qs[i])
  {
    if qs == [] then [] else [ParsePiece(qs[0])] + ParseAll(qs[1..])
  }

  /** The pieces of a pattern: the first is always literal (no `/` precedes it). */
  function Segments(p: string): (segs: seq<Segment>)
    ensures |segs| == Count(p, '/') + 1
  {
    var pieces := Split(p, '/');
    [Literal(pieces[0])] + ParseAll(pieces[1..])
  }

  predicate SegmentMatches(seg: Segment, part: string) {
    match seg
    case Literal(t) => part == t
    case Param(_) => part != []
  }

  /** Same number of pieces, equal literal pieces, non-empty parameter pieces. */
  predicate SegmentsMatch(segs: seq<Segment>, parts: seq<string>) {
    |segs| == |parts| && forall i :: 0 <= i < |segs| ==> SegmentMatches(segs[i], parts[i])
  }

  /** Which paths a registered pattern accepts, stated without regexes: the catch-all
      accepts every path without line terminators; a plain pattern accepts a path iff the
      two have the same number of `/`-separated pieces, literal pieces are equal and every
      parameter piece of the path is non-empty (a parameter never spans a `/`). */
  predicate Accepts(p: string, path: string) {
    if p == ".*" then NoLineTerminator(path)
    else SegmentsMatch(Segments(p), Split(path, '/'))
  }

  function Lits(t: string): (re: Regex)
    ensures |re| == |t|
  {
    if t == [] then [] else [Lit(t[0])] + Lits(t[1..])
  }

  function SegmentAtoms(seg: Segment): Regex {
    match seg
    case Literal(t) => Lits(t)
    case Param(_) => [NonSlashRun]
  }

  /** The regex of a sequence of segments, joined by literal slashes. */
  function Atoms(segs: seq<Segment>): Regex
    requires |segs| > 0
    decreases |segs|
  {
    if |segs| == 1 then SegmentAtoms(segs[0])
    else SegmentAtoms(segs[0]) + ([Lit('/')] + Atoms(segs[1..]))
  }

  predicate SlashFreeLiterals(segs: seq<Segment>) {
    forall i :: 0 <= i < |segs| && segs[i].Literal? ==> '/' !in segs[i].text
  }

  // ---------------------------------------------------------------------------------------
  // Rewrite == Atoms . Segments

  /** One character that is not `/` is read as itself. */
  lemma RewriteLiteralStep(x: string, y: string)
    requires x != [] && x[0] != '/'
    ensures Rewrite(x + y) == [Lit(x[0])] + Rewrite(x[1..] + y)
  {
    assert (x + y)[0] == x[0] && (x + y)[1..] == x[1..] + y;
    RewriteHead(x + y);
  }

  lemma NotInTail(x: string, c: char)
    requires x != [] && c !in x
    ensures x[0] != c && c !in x[1..]
  {
    assert x[0] in x;
    assert forall k | 0 <= k < |x| - 1 :: x[1..][k] == x[k + 1];
  }

  lemma {:induction false} RewriteLiteralPrefix(x: string, y: string)
    requires '/' !in x
    ensures Rewrite(x + y) == Lits(x) + Rewrite(y)
    decreases |x|
  {
    if x != [] {
      NotInTail(x, '/');
      RewriteLiteralStep(x, y);
      RewriteLiteralPrefix(x[1..], y);
      assert [Lit(x[0])] + (Lits(x[1..]) + Rewrite(y)) == Lits(x) + Rewrite(y);
    } else {
      assert x + y == y;
    }
  }

  lemma RewriteParamPiece(q: string, r: string)
    requires IsParamPiece(q)
    requires r == [] || r[0] == '/'
    ensures Rewrite(['/'] + q + r) == [Lit('/'), NonSlashRun] + Rewrite(r)
  {
    var p := ['/'] + q + r;
    assert p[0] == '/' && p[1] == ':' && p[2] == q[1];
    var w := p[2..];
    assert w == q[1..] + r;
    var n := WordRun(w);
    assert forall k | 0 <= k < |q| - 1 :: w[k] == q[k + 1];
    assert |q| - 1 < |w| ==> w[|q| - 1] == '/';
    assert n == |q| - 1;
    assert p[2 + n..] == r;
  }

  /** A slash followed by a non-parameter piece does not start a `/:name` match. */
  lemma NoParamAfterSlash(q: string, r: string)
    requires WholeParam(q) && !IsParamPiece(q)
    requires r == [] || r[0] == '/'
    ensures var p := ['/'] + q + r; !(|p| >= 3 && p[1] == ':' && IsWordChar(p[2]))
  {
    var p := ['/'] + q + r;
    if |q| >= 2 {
      assert p[1] == q[0] && p[2] == q[1];
    } else if |q| == 1 {
      assert |p| >= 3 ==> p[2] == r[0];
    } else {
      assert |p| >= 2 ==> p[1] == r[0];
    }
  }

  /** Where no `/:name` starts, `Rewrite` reads one character as itself. */
  lemma RewriteHead(p: string)
    requires p != [] && !(|p| >= 3 && p[0] == '/' && p[1] == ':' && IsWordChar(p[2]))
    ensures Rewrite(p) == [Lit(p[0])] + Rewrite(p[1..])
  {
  }

  /** A `/` followed by a non-parameter piece is read as itself. */
  lemma RewriteSlashBeforeLiteral(q: string, r: string)
    requires WholeParam(q) && !IsParamPiece(q)
    requires r == [] || r[0] == '/'
    ensures Rewrite(['/'] + q + r) == [Lit('/')] + Rewrite(q + r)
  {
    var p := ['/'] + q + r;
    NoParamAfterSlash(q, r);
    assert p[0] == '/' && p[1..] == q + r;
    RewriteHead(p);
  }

  lemma RewriteLiteralPiece(q: string, r: string)
    requires '/' !in q && WholeParam(q) && !IsParamPiece(q)
    requires r == [] || r[0] == '/'
    ensures Rewrite(['/'] + q + r) == [Lit('/')] + Lits(q) + Rewrite(r)
  {
    RewriteSlashBeforeLiteral(q, r);
    RewriteLiteralPrefix(q, r);
    assert [Lit('/')] + (Lits(q) + Rewrite(r)) == [Lit('/')] + Lits(q) + Rewrite(r);
  }

  lemma RewritePiece(q: string, r: string)
    requires '/' !in q && WholeParam(q)
    requires r == [] || r[0] == '/'
    ensures Rewrite(['/'] + q + r) == [Lit('/')] + SegmentAtoms(ParsePiece(q)) + Rewrite(r)
  {
    if IsParamPiece(q) {
      RewriteParamPiece(q, r);
    } else {
      RewriteLiteralPiece(q, r);
    }
  }

  /** The first piece after a `/` is rewritten on its own, ahead of the rest. */
  lemma RewriteFirstPiece(qs: seq<string>)
    requires |qs| > 1
    requires '/' !in qs[0] && WholeParam(qs[0])
    ensures Rewrite(['/'] + Join(qs, '/'))
      == [Lit('/')] + SegmentAtoms(ParsePiece(qs[0])) + Rewrite(['/'] + Join(qs[1..], '/'))
  {
    var rest := ['/'] + Join(qs[1..], '/');
    assert ['/'] + Join(qs, '/') == ['/'] + qs[0] + rest;
    RewritePiece(qs[0], rest);
  }

  lemma AtomsCons(segs: seq<Segment>)
    requires |segs| > 1
    ensures Atoms(segs) == SegmentAtoms(segs[0]) + ([Lit('/')] + Atoms(segs[1..]))
  {
  }

  lemma {:induction false} RewriteTail(qs: seq<string>)
    requires |qs| > 0
    requires forall i :: 0 <= i < |qs| ==> '/' !in qs[i] && WholeParam(qs[i])
    ensures Rewrite(['/'] + Join(qs, '/')) == [Lit('/')] + Atoms(ParseAll(qs))
    decreases |qs|
  {
    var segs := ParseAll(qs);
    if |qs| == 1 {
      RewritePiece(qs[0], []);
      assert ['/'] + qs[0] + [] == ['/'] + Join(qs, '/');
    } else {
      RewriteFirstPiece(qs);
      RewriteTail(qs[1..]);
      assert segs[1..] == ParseAll(qs[1..]);
      AtomsCons(segs);
      var a, b := SegmentAtoms(segs[0]), [Lit('/')] + Atoms(segs[1..]);
      assert [Lit('/')] + a + b == [Lit('/')] + (a + b);
    }
  }

  /** On plain patterns the textual rewrite is the segment regex. */
  lemma RewriteIsAtoms(p: string)
    requires IsPlainPattern(p)
    ensures Rewrite(p) == Atoms(Segments(p))
  {
    var pieces := Split(p, '/');
    assert Segments(p) == [Literal(pieces[0])] + ParseAll(pieces[1..]);
    JoinSplit(p, '/');
    if |pieces| == 1 {
      assert p == pieces[0];
      RewriteLiteralPrefix(p, []);
      assert p + [] == p;
    } else {
      assert p == pieces[0] + (['/'] + Join(pieces[1..], '/'));
      assert forall i :: 0 <= i < |pieces| - 1 ==> pieces[1..][i] == pieces[i + 1];
      RewritePieces(pieces[0], pieces[1..]);
    }
  }

  /** `RewriteIsAtoms` for a pattern of more than one piece, stated on its pieces. */
  lemma RewritePieces(first: string, qs: seq<string>)
    requires '/' !in first && |qs| > 0
    requires forall i :: 0 <= i < |qs| ==> '/' !in qs[i] && WholeParam(qs[i])
    ensures Rewrite(first + (['/'] + Join(qs, '/'))) == Atoms([Literal(first)] + ParseAll(qs))
  {
    var segs := [Literal(first)] + ParseAll(qs);
    RewriteLiteralPrefix(first, ['/'] + Join(qs, '/'));
    RewriteTail(qs);
    assert segs[1..] == ParseAll(qs);
  }

  // ---------------------------------------------------------------------------------------
  // Matching of segment regexes

  lemma {:induction false} MatchLits(t: string, re: Regex, s: string)
    ensures Matches(Lits(t) + re, s) <==> |s| >= |t| && s[..|t|] == t && Matches(re, s[|t|..])
    decreases |t|
  {
    if t != [] {
      var all := Lits(t) + re;
      assert all[0] == Lit(t[0]);
      assert all[1..] == Lits(t[1..]) + re;
      if |s| > 0 {
        MatchLits(t[1..], re, s[1..]);
        if |s| >= |t| {
          assert s[1..][|t| - 1..] == s[|t|..];
          assert s[..|t|] == [s[0]] + s[1..][..|t| - 1];
        }
      }
    } else {
      assert Lits(t) + re == re;
    }
  }

  lemma MatchSlashHead(rest: Regex, s: string)
    ensures Matches([Lit('/')] + rest, s) <==> |s| > 0 && s[0] == '/' && Matches(rest, s[1..])
  {
    var re := [Lit('/')] + rest;
    assert re[0] == Lit('/') && re[1..] == rest;
  }

  lemma MatchLiteralThenSlash(t: string, rest: Regex, s: string)
    requires '/' !in t
    ensures Matches(Lits(t) + ([Lit('/')] + rest), s)
        <==> '/' in s && s[..IndexOf(s, '/')] == t && Matches(rest, s[IndexOf(s, '/') + 1..])
  {
    MatchLits(t, [Lit('/')] + rest, s);
    if |s| >= |t| {
      MatchSlashHead(rest, s[|t|..]);
      assert |s| > |t| ==> s[|t|..][1..] == s[|t| + 1..] && s[|t|..][0] == s[|t|];
      if |s| > |t| && s[|t|] == '/' && s[..|t|] == t {
        IndexOfIs(s, '/', |t|);
      }
    }
    if '/' in s && s[..IndexOf(s, '/')] == t {
      assert IndexOf(s, '/') == |t|;
    }
  }

  lemma MatchParamThenSlash(rest: Regex, s: string)
    ensures Matches([NonSlashRun] + ([Lit('/')] + rest), s)
        <==> '/' in s && IndexOf(s, '/') > 0 && Matches(rest, s[IndexOf(s, '/') + 1..])
  {
    var tail := [Lit('/')] + rest;
    var re := [NonSlashRun] + tail;
    assert re[0] == NonSlashRun && re[1..] == tail;
    if Matches(re, s) {
      var k :| 1 <= k <= |s| && '/' !in s[..k] && Matches(tail, s[k..]);
      MatchSlashHead(rest, s[k..]);
      assert s[k..][0] == s[k] && s[k..][1..] == s[k + 1..];
      IndexOfIs(s, '/', k);
    }
    if '/' in s && IndexOf(s, '/') > 0 && Matches(rest, s[IndexOf(s, '/') + 1..]) {
      var i := IndexOf(s, '/');
      MatchSlashHead(rest, s[i..]);
      assert s[i..][0] == s[i] && s[i..][1..] == s[i + 1..];
      assert 1 <= i <= |s| && '/' !in s[..i] && Matches(tail, s[i..]);
    }
  }

  lemma MatchSegmentThenSlash(seg: Segment, rest: Regex, s: string)
    requires seg.Literal? ==> '/' !in seg.text
    ensures Matches(SegmentAtoms(seg) + ([Lit('/')] + rest), s)
        <==> '/' in s && SegmentMatches(seg, s[..IndexOf(s, '/')]) && Matches(rest, s[IndexOf(s, '/') + 1..])
  {
    match seg
    case Literal(t) => MatchLiteralThenSlash(t, rest, s);
    case Param(_) => MatchParamThenSlash(rest, s);
  }

  lemma MatchLastSegment(seg: Segment, s: string)
    requires seg.Literal? ==> '/' !in seg.text
    ensures Matches(SegmentAtoms(seg), s) <==> '/' !in s && SegmentMatches(seg, s)
  {
    match seg
    case Literal(t) =>
      MatchLits(t, [], s);
      assert Lits(t) + [] == Lits(t);
    case Param(_) =>
      var re: Regex := [NonSlashRun];
      assert re[1..] == [];
      if s != [] && '/' !in s {
        assert s[..|s|] == s;
        assert Matches(re[1..], s[|s|..]);
      }
  }

  lemma SegmentsMatchCons(segs: seq<Segment>, head: string, tail: seq<string>)
    requires |segs| > 1
    ensures SegmentsMatch(segs, [head] + tail)
        <==> SegmentMatches(segs[0], head) && SegmentsMatch(segs[1..], tail)
  {
    var parts := [head] + tail;
    if SegmentsMatch(segs, parts) {
      forall j | 0 <= j < |segs| - 1 ensures SegmentMatches(segs[1..][j], tail[j]) {
        assert segs[1..][j] == segs[j + 1] && parts[j + 1] == tail[j];
      }
    }
    if SegmentMatches(segs[0], head) && SegmentsMatch(segs[1..], tail) {
      forall j | 0 <= j < |segs| ensures SegmentMatches(segs[j], parts[j]) {
        if j > 0 { assert segs[j] == segs[1..][j - 1] && parts[j] == tail[j - 1]; }
      }
    }
  }

  lemma SplitAtIndexOf(s: string)
    requires '/' in s
    ensures Split(s, '/') == [s[..IndexOf(s, '/')]] + Split(s[IndexOf(s, '/') + 1..], '/')
  {
  }

  lemma SlashFreeTail(segs: seq<Segment>)
    requires |segs| > 1 && SlashFreeLiterals(segs)
    ensures SlashFreeLiterals(segs[1..]) && (segs[0].Literal? ==> '/' !in segs[0].text)
  {
    forall j | 0 <= j < |segs| - 1 && segs[1..][j].Literal? ensures '/' !in segs[1..][j].text {
      assert segs[1..][j] == segs[j + 1];
    }
  }

  /** The regex of a segment sequence accepts exactly the paths that match piece by piece. */
  lemma {:induction false} MatchAtoms(segs: seq<Segment>, s: string)
    requires |segs| > 0 && SlashFreeLiterals(segs)
    ensures Matches(Atoms(segs), s) <==> SegmentsMatch(segs, Split(s, '/'))
    decreases |segs|
  {
    if |segs| == 1 {
      MatchLastSegment(segs[0], s);
    } else {
      SlashFreeTail(segs);
      MatchSegmentThenSlash(segs[0], Atoms(segs[1..]), s);
      if '/' in s {
        var i := IndexOf(s, '/');
        MatchAtoms(segs[1..], s[i + 1..]);
        SplitAtIndexOf(s);
        SegmentsMatchCons(segs, s[..i], Split(s[i + 1..], '/'));
      } else {
        assert |Split(s, '/')| == 1;
      }
    }
  }

  lemma MatchAnyRun(s: string)
    ensures Matches([AnyRun], s) <==> NoLineTerminator(s)
  {
    var re: Regex := [AnyRun];
    assert re[1..] == [];
    if NoLineTerminator(s) {
      assert s[..|s|] == s;
      assert Matches(re[1..], s[|s|..]);
    }
  }

  /** The compiled regex of a registered pattern accepts exactly the paths `Accepts` names. */
  lemma CompiledMatch(p: string, path: string)
    requires IsRoutePattern(p)
    ensures Matches(Compile(p), path) <==> Accepts(p, path)
  {
    if p == ".*" {
      MatchAnyRun(path);
    } else {
      RewriteIsAtoms(p);
      var segs := Segments(p);
      assert SlashFreeLiterals(segs) by {
        forall i | 0 <= i < |segs| && segs[i].Literal? ensures '/' !in segs[i].text {
          if i > 0 { assert segs[i] == ParsePiece(Split(p, '/')[i]); }
        }
      }
      MatchAtoms(segs, path);
    }
  }

  // ---------------------------------------------------------------------------------------
  // Anchoring

  /** A plain pattern and any path it accepts have the same number of `/`. */
  lemma SameSlashCount(p: string, path: string)
    requires IsPlainPattern(p) && Matches(Compile(p), path)
    ensures Count(path, '/') == Count(p, '/')
  {
    CompiledMatch(p, path);
  }

  /** Adding a trailing `/` to an accepted path makes it rejected. */
  lemma TrailingSlashRejected(p: string, path: string)
    requires IsPlainPattern(p) && Matches(Compile(p), path)
    ensures !Matches(Compile(p), path + "/")
  {
    SameSlashCount(p, path);
    assert multiset(path + "/") == multiset(path) + multiset{'/'};
    CompiledMatch(p, path + "/");
  }

  lemma LeadingSlashFirstPiece(s: string)
    requires |s| > 0 && s[0] == '/'
    ensures Split(s, '/')[0] == []
  {
    assert s[0] in s;
    assert IndexOf(s, '/') == 0;
  }

  lemma EmptyFirstPiece(s: string)
    requires |Split(s, '/')| > 1 && Split(s, '/')[0] == []
    ensures |s| > 0 && s[0] == '/'
  {
    assert '/' in s;
    assert s[..IndexOf(s, '/')] == [];
  }

  /** Putting a non-empty text in front of a path that starts with `/` either makes its first
      piece non-empty or adds pieces. */
  lemma PrefixPieces(x: string, path: string)
    requires x != [] && |path| > 0 && path[0] == '/'
    ensures Split(x + path, '/')[0] != [] || |Split(x + path, '/')| > |Split(path, '/')|
  {
    assert multiset(x + path) == multiset(x) + multiset(path);
    if '/' !in x {
      assert x + path == x + ['/'] + path[1..];
      SplitAtFirst(x, path[1..], '/');
    } else {
      assert multiset(x)['/'] > 0;
    }
  }

  /** A pattern starting with `/` rejects an accepted path once anything is put in front of it. */
  lemma PrefixRejected(p: string, x: string, path: string)
    requires IsPlainPattern(p) && |p| > 0 && p[0] == '/'
    requires Matches(Compile(p), path) && x != []
    ensures !Matches(Compile(p), x + path)
  {
    CompiledMatch(p, path);
    CompiledMatch(p, x + path);
    LeadingSlashFirstPiece(p);
    assert Segments(p)[0] == Literal([]);
    assert Split(path, '/')[0] == [];
    EmptyFirstPiece(path);
    PrefixPieces(x, path);
  }

  /** A pattern with no parameter piece. */
  predicate IsLiteralPattern(p: string) {
    forall i :: 0 <= i < |Segments(p)| ==> Segments(p)[i].Literal?
  }

  lemma LiteralSegments(p: string)
    requires IsLiteralPattern(p)
    ensures forall i :: 0 <= i < |Segments(p)| ==> Segments(p)[i] == Literal(Split(p, '/')[i])
  {
    var segs := Segments(p);
    var pieces := Split(p, '/');
    forall i | 0 <= i < |segs| ensures segs[i] == Literal(pieces[i]) {
      if i > 0 {
        assert segs[i] == ParsePiece(pieces[i]);
      }
    }
  }

  lemma LiteralSegmentsMatch(segs: seq<Segment>, pieces: seq<string>, parts: seq<string>)
    requires |segs| == |pieces|
    requires forall i :: 0 <= i < |segs| ==> segs[i] == Literal(pieces[i])
    ensures SegmentsMatch(segs, parts) <==> parts == pieces
  {
    if SegmentsMatch(segs, parts) {
      assert forall i :: 0 <= i < |parts| ==> parts[i] == pieces[i];
    }
  }

  /** A parameter-free plain pattern matches exactly one path: its own text. So an extra
      prefix, an extra suffix or a trailing `/` all fail to match. */
  lemma LiteralPatternMatchesOnlyItself(p: string, path: string)
    requires IsPlainPattern(p) && IsLiteralPattern(p)
    ensures Matches(Compile(p), path) <==> path == p
  {
    CompiledMatch(p, path);
    LiteralSegments(p);
    LiteralSegmentsMatch(Segments(p), Split(p, '/'), Split(path, '/'));
    JoinSplit(p, '/');
    JoinSplit(path, '/');
  }

  /** A parameter never captures an empty piece or a piece with a `/`. */
  lemma ParamPieceCaptured(p: string, path: string, i: nat)
    requires IsPlainPattern(p) && Matches(Compile(p), path)
    requires i < |Segments(p)| && Segments(p)[i].Param?
    ensures i < |Split(path, '/')|
    ensures Split(path, '/')[i] != [] && '/' !in Split(path, '/')[i]
  {
    CompiledMatch(p, path);
  }
}
