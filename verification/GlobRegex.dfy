/** The glob compilers of the comment ratchet (scripts/comment_ratchet.py, a character loop)
    and the structure ratchet (scripts/structure_ratchet.py, a split and a table lookup).

    Regexes are abstract syntax; a compiled pattern is the list of pieces the source joins
    and anchors at the end. Both compilers are proved to emit the same pieces, and the
    pieces to accept exactly the paths the glob denotes. */
module GlobRegex {
  import opened Basics

  // ---------------------------------------------------------------- regexes

  datatype Regex =
    | Lit(c: char)
    | NotSlash            // [^/]
    | Dot                 // . without DOTALL
    | Star(body: Regex)
    | Opt(body: Regex)
    | Cat(left: Regex, right: Regex)

  ghost predicate Accepts(r: Regex, s: string)
    decreases r, |s|
  {
    match r
    case Lit(c) => s == [c]
    case NotSlash => |s| == 1 && s[0] != '/'
    case Dot => |s| == 1 && s[0] != '\n'
    case Star(q) => s == "" || exists k | 0 < k <= |s| :: Accepts(q, s[..k]) && Accepts(r, s[k..])
    case Opt(q) => s == "" || Accepts(q, s)
    case Cat(p, q) => exists k | 0 <= k <= |s| :: Accepts(p, s[..k]) && Accepts(q, s[k..])
  }

  /** The joined pieces, matched from the start and anchored at the end. */
  ghost predicate Matches(pieces: seq<Regex>, path: string) {
    if pieces == [] then path == ""
    else exists k | 0 <= k <= |path| :: Accepts(pieces[0], path[..k]) && Matches(pieces[1..], path[k..])
  }

  // ---------------------------------------------------- what a glob denotes

  predicate FirstSlashAt(s: string, k: nat) { k < |s| && s[k] == '/' && forall i :: 0 <= i < k ==> s[i] != '/' }

  /** Zero or more whole directories: slash-free names, each followed by a slash. */
  ghost predicate Directories(s: string) {
    s == "" || exists k | 0 <= k < |s| :: FirstSlashAt(s, k) && Directories(s[k+1..])
  }

  predicate Special(c: char) { c == '*' || c == '?' }

  predicate IsWildcard(part: string) { part == "**/" || part == "**" || part == "*" || part == "?" }

  /** The first symbol of a glob, read longest first. */
  function Symbol(glob: string): (t: string)
    requires glob != ""
    ensures t != "" && t <= glob
    ensures Special(glob[0]) <==> IsWildcard(t)
  {
    if "**/" <= glob then "**/"
    else if "**" <= glob then "**"
    else assert [glob[0]] <= glob; [glob[0]]
  }

  /** The text a symbol may stand for; `newlines` says whether `**` may run over a line end. */
  ghost predicate Stands(t: string, s: string, newlines: bool) {
    if t == "**/" then Directories(s) && (newlines || '\n' !in s)
    else if t == "**" then newlines || '\n' !in s
    else if t == "*" then '/' !in s
    else if t == "?" then |s| == 1 && s[0] != '/'
    else s == t
  }

  ghost predicate Denotes(glob: string, path: string, newlines: bool)
    decreases |glob|
  {
    if glob == "" then path == ""
    else
      var t := Symbol(glob);
      exists k | 0 <= k <= |path| :: Stands(t, path[..k], newlines) && Denotes(glob[|t|..], path[k..], newlines)
  }

  // ---------------------------------------------------------- the compilers

  const ANY_DIRECTORIES: Regex := Opt(Cat(Star(Dot), Lit('/')))

  function Piece(t: string): Regex
    requires t != ""
  {
    if t == "**/" then ANY_DIRECTORIES
    else if t == "**" then Star(Dot)
    else if t == "*" then Star(NotSlash)
    else if t == "?" then NotSlash
    else Lit(t[0])
  }

  /** The pieces of a glob, symbol by symbol. */
  function Pieces(glob: string): seq<Regex>
    decreases |glob|
  {
    if glob == "" then [] else var t := Symbol(glob); [Piece(t)] + Pieces(glob[|t|..])
  }

  lemma PiecesStep(glob: string, i: nat, piece: Regex, width: nat)
    requires i < |glob| && piece == Piece(Symbol(glob[i..])) && width == |Symbol(glob[i..])|
    ensures i + width <= |glob| && Pieces(glob[i..]) == [piece] + Pieces(glob[i + width..])
  {
    assert glob[i..][width..] == glob[i + width..];
  }

  /** The piece for a single character. */
  function CharPiece(c: char): Regex { if c == '*' then Star(NotSlash) else if c == '?' then NotSlash else Lit(c) }

  lemma SymbolPiece(glob: string)
    requires glob != ""
    ensures "**/" <= glob ==> Symbol(glob) == "**/" && Piece(Symbol(glob)) == ANY_DIRECTORIES
    ensures !("**/" <= glob) && "**" <= glob ==> Symbol(glob) == "**" && Piece(Symbol(glob)) == Star(Dot)
    ensures !("**/" <= glob) && !("**" <= glob) ==> |Symbol(glob)| == 1 && Piece(Symbol(glob)) == CharPiece(glob[0])
  {}

  /** The piece for the symbol at `i`, and how far that symbol reaches. */
  method TakePiece(glob: string, i: nat) returns (piece: Regex, next: nat)
    requires i < |glob|
    ensures i < next <= |glob| && Pieces(glob[i..]) == [piece] + Pieces(glob[next..])
  {
    SymbolPiece(glob[i..]);
    if "**/" <= glob[i..] {
      piece, next := ANY_DIRECTORIES, i + 3;
    } else if "**" <= glob[i..] {
      piece, next := Star(Dot), i + 2;
    } else {
      piece, next := CharPiece(glob[i]), i + 1;
    }
    PiecesStep(glob, i, piece, next - i);
  }

  /** The character loop of the comment ratchet. */
  method CompileByLoop(glob: string) returns (out: seq<Regex>)
    ensures out == Pieces(glob)
  {
    out := [];
    var i := 0;
    assert glob[0..] == glob;
    while i < |glob|
      invariant 0 <= i <= |glob|
      invariant out + Pieces(glob[i..]) == Pieces(glob)
    {
      var piece, next := TakePiece(glob, i);
      Associative(out, [piece], Pieces(glob[next..]));
      out, i := out + [piece], next;
    }
  }

  function LiteralRun(glob: string): (n: nat)
    ensures n <= |glob|
    ensures forall i :: 0 <= i < n ==> !Special(glob[i])
    ensures n < |glob| ==> Special(glob[n])
  {
    if glob == "" || Special(glob[0]) then 0 else 1 + LiteralRun(glob[1..])
  }

  /** `re.split` on a captured wildcard: literal runs (maybe empty) and wildcards in turn. */
  function SplitParts(glob: string): seq<string>
    decreases |glob|, 1
  {
    SplitFrom(glob, LiteralRun(glob))
  }

  /** The split, given the length of the literal run in front. */
  function SplitFrom(glob: string, n: nat): seq<string>
    requires n <= |glob|
    decreases |glob|, 0
  {
    if n == |glob| then [glob]
    else var t := Symbol(glob[n..]); [glob[..n], t] + SplitParts(glob[n + |t|..])
  }

  function Escaped(run: string): seq<Regex> {
    if run == "" then [] else [Lit(run[0])] + Escaped(run[1..])
  }

  /** The table lookup: a wildcard has its own piece, anything else is escaped. */
  function PartPieces(part: string): seq<Regex> {
    if IsWildcard(part) then [Piece(part)] else Escaped(part)
  }

  function JoinParts(parts: seq<string>): seq<Regex> {
    if parts == [] then [] else PartPieces(parts[0]) + JoinParts(parts[1..])
  }

  /** The split-and-map compiler of the structure ratchet. */
  function CompileBySplit(glob: string): seq<Regex> { JoinParts(SplitParts(glob)) }

  // -------------------------------------------------------- the two agree

  lemma {:induction false} PiecesOfRun(run: string, rest: string)
    requires forall i :: 0 <= i < |run| ==> !Special(run[i])
    ensures Pieces(run + rest) == Escaped(run) + Pieces(rest)
    decreases |run|
  {
    if run == "" {
      NoLiteral(rest);
    } else {
      PiecesOfRun(run[1..], rest);
      OneMoreLiteral(run, rest);
    }
  }

  lemma NoLiteral(rest: string)
    ensures Pieces("" + rest) == Escaped("") + Pieces(rest)
  {
    assert "" + rest == rest && [] + Pieces(rest) == Pieces(rest);
  }

  lemma OneMoreLiteral(run: string, rest: string)
    requires run != "" && !Special(run[0]) && Pieces(run[1..] + rest) == Escaped(run[1..]) + Pieces(rest)
    ensures Pieces(run + rest) == Escaped(run) + Pieces(rest)
  {
    FirstOff(run, rest);
    LiteralInFront(run[0], run[1..] + rest, Escaped(run[1..]), Pieces(rest));
    assert Escaped(run) == [Lit(run[0])] + Escaped(run[1..]);
  }

  lemma FirstOff(run: string, rest: string)
    requires run != ""
    ensures run + rest == [run[0]] + (run[1..] + rest)
  {}

  lemma LiteralInFront(c: char, glob: string, a: seq<Regex>, b: seq<Regex>)
    requires !Special(c) && Pieces(glob) == a + b
    ensures Pieces([c] + glob) == [Lit(c)] + a + b
  {
    LiteralStep(c, glob);
    ConsAppend(Lit(c), a, b);
  }

  lemma ConsAppend<T>(x: T, xs: seq<T>, ys: seq<T>)
    ensures [x] + (xs + ys) == [x] + xs + ys
  {}

  lemma LiteralStep(c: char, rest: string)
    requires !Special(c)
    ensures Symbol([c] + rest) == [c]
    ensures Pieces([c] + rest) == [Lit(c)] + Pieces(rest)
  {
    assert ([c] + rest)[1..] == rest;
  }

  lemma WildcardStep(rest: string)
    requires rest != "" && Special(rest[0])
    ensures Pieces(rest) == PartPieces(Symbol(rest)) + Pieces(rest[|Symbol(rest)|..])
  {}

  lemma JoinCons(part: string, tail: seq<string>)
    ensures JoinParts([part] + tail) == PartPieces(part) + JoinParts(tail)
  {
    assert ([part] + tail)[1..] == tail;
  }

  lemma JoinTwo(run: string, t: string, tail: seq<string>)
    ensures JoinParts([run, t] + tail) == PartPieces(run) + PartPieces(t) + JoinParts(tail)
  {
    assert [run, t] + tail == [run] + ([t] + tail);
    JoinCons(run, [t] + tail);
    JoinCons(t, tail);
    Associative(PartPieces(run), PartPieces(t), JoinParts(tail));
  }

  lemma JoinOne(run: string)
    ensures JoinParts([run]) == PartPieces(run)
  {}

  lemma RunIsEscaped(run: string)
    requires forall i :: 0 <= i < |run| ==> !Special(run[i])
    ensures PartPieces(run) == Escaped(run)
  {}

  /** The two compilers emit the same regex for every glob. */
  lemma {:induction false} CompilersAgree(glob: string)
    ensures CompileBySplit(glob) == Pieces(glob)
    decreases |glob|
  {
    var n := LiteralRun(glob);
    if n == |glob| {
      LastRun(glob);
    } else {
      var t := Symbol(glob[n..]);
      CompilersAgree(glob[n + |t|..]);
      PiecesSplit(glob, n, t);
      SplitCompiled(glob, n, t);
    }
  }

  lemma PiecesSplit(glob: string, n: nat, t: string)
    requires n == LiteralRun(glob) < |glob| && t == Symbol(glob[n..])
    ensures Pieces(glob) == Escaped(glob[..n]) + PartPieces(t) + Pieces(glob[n + |t|..])
  {
    CutAt(glob, n, |t|);
    RunThenWildcard(glob, glob[..n], glob[n..], t, glob[n + |t|..]);
  }

  lemma CutAt(glob: string, n: nat, m: nat)
    requires n + m <= |glob|
    ensures glob == glob[..n] + glob[n..] && glob[n..][m..] == glob[n + m..]
  {}

  lemma SplitCompiled(glob: string, n: nat, t: string)
    requires n == LiteralRun(glob) < |glob| && t == Symbol(glob[n..])
    ensures CompileBySplit(glob) == Escaped(glob[..n]) + PartPieces(t) + CompileBySplit(glob[n + |t|..])
  {
    SplitStep(glob, n, t);
    JoinTwo(glob[..n], t, SplitParts(glob[n + |t|..]));
    RunIsEscaped(glob[..n]);
  }

  lemma LastRun(glob: string)
    requires LiteralRun(glob) == |glob|
    ensures CompileBySplit(glob) == Pieces(glob)
  {
    PiecesOfRun(glob, "");
    RunIsEscaped(glob);
    assert glob + "" == glob;
    assert SplitParts(glob) == SplitFrom(glob, |glob|) == [glob];
    JoinOne(glob);
  }

  lemma RunThenWildcard(glob: string, run: string, rest: string, t: string, next: string)
    requires forall i :: 0 <= i < |run| ==> !Special(run[i])
    requires rest != "" && Special(rest[0]) && t == Symbol(rest) && glob == run + rest && next == rest[|t|..]
    ensures Pieces(glob) == Escaped(run) + PartPieces(t) + Pieces(next)
  {
    PiecesOfRun(run, rest);
    WildcardStep(rest);
    Associative(Escaped(run), PartPieces(t), Pieces(next));
  }

  lemma SplitStep(glob: string, n: nat, t: string)
    requires n == LiteralRun(glob) < |glob| && t == Symbol(glob[n..])
    ensures SplitParts(glob) == [glob[..n], t] + SplitParts(glob[n + |t|..])
  {
    assert SplitParts(glob) == SplitFrom(glob, n);
    SplitFromStep(glob, n, t);
  }

  lemma SplitFromStep(glob: string, n: nat, t: string)
    requires n < |glob| && t == Symbol(glob[n..])
    ensures SplitFrom(glob, n) == [glob[..n], t] + SplitParts(glob[n + |t|..])
  {}

  // ------------------------------------------------- languages of the pieces

  lemma {:induction false} StarLanguage(r: Regex, barred: char, s: string)
    requires (r == NotSlash && barred == '/') || (r == Dot && barred == '\n')
    ensures Accepts(Star(r), s) <==> barred !in s
    decreases |s|
  {
    if s != "" {
      StarLanguage(r, barred, s[1..]);
      assert s == s[..1] + s[1..];
      assert Accepts(r, s[..1]) <==> s[0] != barred;
    }
  }

  lemma {:induction false} DirectoriesEndInSlash(s: string)
    ensures Directories(s) <==> s == "" || s[|s|-1] == '/'
    decreases |s|
  {
    if '/' in s {
      var k := FirstSlash(s);
      DirectoriesEndInSlash(s[k+1..]);
      FirstDirectory(s, k);
    }
  }

  lemma FirstDirectory(s: string, k: nat)
    requires k < |s| && s[k] == '/' && forall i :: 0 <= i < k ==> s[i] != '/'
    ensures Directories(s) <==> Directories(s[k+1..])
  {
    assert FirstSlashAt(s, k);
    if Directories(s) {
      var j :| 0 <= j < |s| && FirstSlashAt(s, j) && Directories(s[j+1..]);
      assert j == k;
    }
  }

  lemma FirstSlash(s: string) returns (k: nat)
    requires '/' in s
    ensures k < |s| && s[k] == '/' && forall i :: 0 <= i < k ==> s[i] != '/'
  {
    k := 0;
    while s[k] != '/'
      invariant k < |s| && (forall i :: 0 <= i < k ==> s[i] != '/') && '/' in s[k..]
      decreases |s| - k
    {
      assert s[k..] == [s[k]] + s[k+1..];
      k := k + 1;
    }
  }

  lemma DirectoryPieceLanguage(s: string)
    ensures Accepts(ANY_DIRECTORIES, s) <==> Directories(s) && '\n' !in s
  {
    DirectoriesEndInSlash(s);
    if s != "" {
      var k := |s| - 1;
      StarLanguage(Dot, '\n', s[..k]);
      assert s == s[..k] + s[k..];
      assert s[k..] == [s[k]];
      assert Accepts(Cat(Star(Dot), Lit('/')), s) <==> Accepts(Star(Dot), s[..k]) && Accepts(Lit('/'), s[k..]) by {
        forall j | 0 <= j <= |s| && Accepts(Lit('/'), s[j..]) ensures j == k {
          assert |s[j..]| == 1;
        }
      }
    }
  }

  lemma PieceLanguage(glob: string, s: string)
    requires glob != ""
    ensures Accepts(Piece(Symbol(glob)), s) <==> Stands(Symbol(glob), s, false)
  {
    DirectoryPieceLanguage(s);
    StarLanguage(Dot, '\n', s);
    StarLanguage(NotSlash, '/', s);
  }

  // ------------------------------------------------------------ main results

  /** For every glob and every path: accepted exactly when the glob denotes the path
      with each `**` kept inside one line. */
  lemma {:induction false} PiecesMatchDenotation(glob: string, path: string)
    ensures Matches(Pieces(glob), path) <==> Denotes(glob, path, false)
    decreases |glob|
  {
    if glob != "" {
      var t := Symbol(glob);
      var rest := Pieces(glob[|t|..]);
      assert Pieces(glob)[1..] == rest;
      forall k | 0 <= k <= |path|
        ensures Accepts(Piece(t), path[..k]) <==> Stands(t, path[..k], false)
        ensures Matches(rest, path[k..]) <==> Denotes(glob[|t|..], path[k..], false)
      {
        PieceLanguage(glob, path[..k]);
        PiecesMatchDenotation(glob[|t|..], path[k..]);
      }
    }
  }

  lemma {:induction false} NewlineFreeMeaning(glob: string, path: string)
    requires '\n' !in path
    ensures Denotes(glob, path, false) <==> Denotes(glob, path, true)
    decreases |glob|
  {
    if glob != "" {
      var t := Symbol(glob);
      forall k | 0 <= k <= |path|
        ensures Stands(t, path[..k], false) <==> Stands(t, path[..k], true)
        ensures Denotes(glob[|t|..], path[k..], false) <==> Denotes(glob[|t|..], path[k..], true)
      {
        NewlineFreeMeaning(glob[|t|..], path[k..]);
      }
    }
  }

  /** Both compilers accept exactly the newline-free paths the glob denotes. */
  lemma CompiledGlobsKeepTheirMeaning(glob: string, path: string)
    requires '\n' !in path
    ensures Matches(Pieces(glob), path) <==> Denotes(glob, path, true)
    ensures Matches(CompileBySplit(glob), path) <==> Denotes(glob, path, true)
  {
    PiecesMatchDenotation(glob, path);
    NewlineFreeMeaning(glob, path);
    CompilersAgree(glob);
  }

  /** With a newline in the path the meaning is lost: `**` denotes it, the regex rejects it. */
  lemma NewlineBreaksDoubleStar()
    ensures Denotes("**", "\n", true) && !Matches(Pieces("**"), "\n")
  {
    assert Symbol("**") == "**";
    assert "\n"[..1] == "\n";
    assert Stands("**", "\n"[..1], true) && Denotes("", "\n"[1..], true);
    PiecesMatchDenotation("**", "\n");
    forall k | 0 <= k <= 1 && Denotes("", "\n"[k..], false) ensures k == 1 {
      assert |"\n"[k..]| == 1 - k;
    }
  }

  // ------------------------------------------ when newlines do no harm either

  predicate HasDoubleStar(glob: string) { exists i :: 0 <= i < |glob| - 1 && glob[i] == '*' && glob[i+1] == '*' }

  predicate Wide(t: string) { t == "**" || t == "**/" }

  predicate WideAhead(glob: string)
    decreases |glob|
  {
    glob != "" && var t := Symbol(glob); Wide(t) || WideAhead(glob[|t|..])
  }

  lemma {:induction false} WideAheadMeansDoubleStar(glob: string)
    ensures WideAhead(glob) <==> HasDoubleStar(glob)
    decreases |glob|
  {
    if glob != "" {
      var t := Symbol(glob);
      assert |glob| > 1 && glob[0] == '*' && glob[1] == '*' ==> glob[..2] == "**";
      if Wide(t) {
        assert "**" <= glob;
        assert glob[0] == "**"[0] && glob[1] == "**"[1];
      } else {
        var rest := glob[1..];
        assert |t| == 1 && glob[|t|..] == rest;
        WideAheadMeansDoubleStar(rest);
        assert forall i :: 0 <= i < |rest| ==> rest[i] == glob[i+1];
        if HasDoubleStar(glob) {
          var i :| 0 <= i < |glob| - 1 && glob[i] == '*' && glob[i+1] == '*';
          assert rest[i-1] == '*' && rest[i] == '*';
        }
        if HasDoubleStar(rest) {
          var i :| 0 <= i < |rest| - 1 && rest[i] == '*' && rest[i+1] == '*';
          assert glob[i+1] == '*' && glob[i+2] == '*';
        }
      }
    }
  }

  lemma {:induction false} NarrowMeaning(glob: string, path: string)
    requires !WideAhead(glob)
    ensures Denotes(glob, path, false) <==> Denotes(glob, path, true)
    decreases |glob|
  {
    if glob != "" {
      var t := Symbol(glob);
      forall k | 0 <= k <= |path|
        ensures Denotes(glob[|t|..], path[k..], false) <==> Denotes(glob[|t|..], path[k..], true)
      {
        NarrowMeaning(glob[|t|..], path[k..]);
      }
    }
  }

  /** How often a line starts right after a slash; `prev` is the character before `s`. */
  function Crossings(prev: char, s: string): nat
    decreases |s|
  {
    if s == "" then 0 else (if prev == '/' && s[0] == '\n' then 1 else 0) + Crossings(s[0], s[1..])
  }

  function Last(prev: char, s: string): char { if s == "" then prev else s[|s|-1] }

  lemma {:induction false} CrossingsConcat(prev: char, a: string, b: string)
    ensures Crossings(prev, a + b) == Crossings(prev, a) + Crossings(Last(prev, a), b)
    decreases |a|
  {
    if a == "" {
      assert a + b == b;
    } else {
      assert (a + b)[1..] == a[1..] + b;
      CrossingsConcat(a[0], a[1..], b);
      assert Last(prev, a) == Last(a[0], a[1..]);
    }
  }

  lemma {:induction false} FewCrossings(prev: char, s: string)
    requires '/' !in s || '\n' !in s
    ensures Crossings(prev, s) <= (if prev == '/' && '\n' in s then 1 else 0)
    decreases |s|
  {
    if s != "" {
      FewCrossings(s[0], s[1..]);
    }
  }

  /** The regexes cross few lines: each symbol at most one. */
  lemma {:induction false} EachSymbolCrossesOnce(glob: string, path: string, prev: char)
    requires Denotes(glob, path, false)
    ensures Crossings(prev, path) <= |glob|
    decreases |glob|
  {
    if glob != "" {
      var t := Symbol(glob);
      var k :| 0 <= k <= |path| && Stands(t, path[..k], false) && Denotes(glob[|t|..], path[k..], false);
      EachSymbolCrossesOnce(glob[|t|..], path[k..], Last(prev, path[..k]));
      StandsCrossesOnce(t, path[..k], prev);
      CrossingsSplit(prev, path, k);
    }
  }

  lemma CrossingsSplit(prev: char, s: string, k: nat)
    requires k <= |s|
    ensures Crossings(prev, s) == Crossings(prev, s[..k]) + Crossings(Last(prev, s[..k]), s[k..])
  {
    assert s == s[..k] + s[k..];
    CrossingsConcat(prev, s[..k], s[k..]);
  }

  lemma StandsCrossesOnce(t: string, s: string, prev: char)
    requires Stands(t, s, false) && (Wide(t) || |t| == 1)
    ensures Crossings(prev, s) <= 1
  {
    if t == "?" || (!Wide(t) && t != "*") {
      assert |s| == 1;
      assert Crossings(s[0], s[1..]) == 0;
    } else {
      FewCrossings(prev, s);
    }
  }

  /** Whole directories, `n` of them named by a line end. */
  function Lines(n: nat): string { if n == 0 then "/" else "/\n" + Lines(n - 1) }

  lemma {:induction false} LinesCross(n: nat, prev: char)
    ensures Crossings(prev, Lines(n)) >= n && Directories(Lines(n)) && Lines(n)[|Lines(n)|-1] == '/'
  {
    if n > 0 {
      LinesCross(n - 1, '\n');
      CrossingsConcat(prev, "/\n", Lines(n - 1));
      assert "/\n"[1..] == "\n";
    }
    DirectoriesEndInSlash(Lines(n));
  }

  /** A short path the glob denotes, with `wide` for each symbol that may run over lines. */
  function Shortest(glob: string, wide: string): string
    decreases |glob|
  {
    if glob == "" then ""
    else
      var t := Symbol(glob);
      (if Wide(t) then wide else if t == "*" then "" else if t == "?" then "x" else t) + Shortest(glob[|t|..], wide)
  }

  lemma {:induction false} ShortestIsDenoted(glob: string, wide: string)
    requires Directories(wide)
    ensures Denotes(glob, Shortest(glob, wide), true)
    decreases |glob|
  {
    if glob != "" {
      var t := Symbol(glob);
      var rest := Shortest(glob[|t|..], wide);
      var part := if Wide(t) then wide else if t == "*" then "" else if t == "?" then "x" else t;
      ShortestIsDenoted(glob[|t|..], wide);
      assert (part + rest)[..|part|] == part && (part + rest)[|part|..] == rest;
      assert Stands(t, part, true);
    }
  }

  lemma {:induction false} ShortestCrosses(glob: string, wide: string, n: nat, prev: char)
    requires WideAhead(glob) && forall c :: Crossings(c, wide) >= n
    ensures Crossings(prev, Shortest(glob, wide)) >= n
    decreases |glob|
  {
    var t := Symbol(glob);
    var rest := Shortest(glob[|t|..], wide);
    var part := if Wide(t) then wide else if t == "*" then "" else if t == "?" then "x" else t;
    CrossingsConcat(prev, part, rest);
    if !Wide(t) { ShortestCrosses(glob[|t|..], wide, n, Last(prev, part)); }
  }

  /** Paths with newlines included, a compiled glob keeps its meaning exactly when it has no `**`. */
  lemma MeaningIsKeptWithoutDoubleStar(glob: string)
    ensures (forall path :: Matches(Pieces(glob), path) <==> Denotes(glob, path, true)) <==> !HasDoubleStar(glob)
  {
    WideAheadMeansDoubleStar(glob);
    if HasDoubleStar(glob) {
      var n := |glob| + 1;
      var path := Shortest(glob, Lines(n));
      LinesCross(n, 'x');
      ShortestIsDenoted(glob, Lines(n));
      forall c ensures Crossings(c, Lines(n)) >= n { LinesCross(n, c); }
      ShortestCrosses(glob, Lines(n), n, 'x');
      PiecesMatchDenotation(glob, path);
      if Denotes(glob, path, false) { EachSymbolCrossesOnce(glob, path, 'x'); }
    } else {
      forall path ensures Matches(Pieces(glob), path) <==> Denotes(glob, path, true) {
        PiecesMatchDenotation(glob, path);
        NarrowMeaning(glob, path);
      }
    }
  }

  // ------------------------------------------------- the built-in exclusions

  lemma {:induction false} LiteralPrefix(run: string, glob: string, path: string)
    requires forall i :: 0 <= i < |run| ==> !Special(run[i])
    ensures Denotes(run + glob, path, true) <==> run <= path && Denotes(glob, path[|run|..], true)
    decreases |run|
  {
    if run == "" {
      assert run + glob == glob && path[0..] == path;
    } else {
      var tail := run[1..];
      assert run + glob == [run[0]] + (tail + glob);
      LiteralDenotes(run[0], tail + glob, path);
      if path != "" && path[0] == run[0] {
        LiteralPrefix(tail, glob, path[1..]);
        assert run == [run[0]] + tail && path == [path[0]] + path[1..];
        if run <= path {
          assert path[1..][|tail|..] == path[|run|..];
        }
      }
    }
  }

  lemma LiteralDenotes(c: char, glob: string, path: string)
    requires !Special(c)
    ensures Denotes([c] + glob, path, true) <==> path != "" && path[0] == c && Denotes(glob, path[1..], true)
  {
    LiteralStep(c, glob);
    assert ([c] + glob)[1..] == glob;
    assert path != "" ==> path[..1] == [path[0]];
  }

  lemma DoubleStarDenotesAll(path: string)
    ensures Denotes("**", path, true)
  {
    assert Symbol("**") == "**" && path[..|path|] == path;
    assert Stands("**", path[..|path|], true) && Denotes("**"[2..], path[|path|..], true);
  }

  // `**` + `/name/` + `**`, the shape of every built-in exclude, covers exactly the paths below a directory `name`.
  lemma {:induction false} ExcludesADirectory(glob: string, name: string, path: string)
    requires forall i :: 0 <= i < |name| ==> !Special(name[i])
    requires glob == "**/" + (name + "/" + "**") && '\n' !in path
    ensures Matches(Pieces(glob), path)
      <==> exists k | 0 <= k <= |path| :: (k == 0 || path[k-1] == '/') && name + "/" <= path[k..]
  {
    CompiledGlobsKeepTheirMeaning(glob, path);
    UnderADirectory(name + "/", path);
  }

  lemma UnderADirectory(run: string, path: string)
    requires forall i :: 0 <= i < |run| ==> !Special(run[i])
    ensures Denotes("**/" + (run + "**"), path, true)
      <==> exists k | 0 <= k <= |path| :: (k == 0 || path[k-1] == '/') && run <= path[k..]
  {
    var glob := "**/" + (run + "**");
    assert glob[3..] == run + "**" && Symbol(glob) == "**/";
    forall k | 0 <= k <= |path|
      ensures Stands("**/", path[..k], true) <==> k == 0 || path[k-1] == '/'
    {
      DirectoriesEndInSlash(path[..k]);
    }
    forall k | 0 <= k <= |path|
      ensures Denotes(run + "**", path[k..], true) <==> run <= path[k..]
    {
      LiteralPrefix(run, "**", path[k..]);
      if run <= path[k..] {
        DoubleStarDenotesAll(path[k..][|run|..]);
      }
    }
  }
}
