/** What each token of the JS tokenizer says of the text (scripts/usage_track_scan.py:181-205, 226-315).

    Tiles cut the text, from its start to the lexer's position, into tokens, template parts and
    gaps. Each is what the text reads as at that place, and each token's line is the true one. */
module JsReading {
  import opened Basics
  import opened JsTokens
  import opened JsMatching

  datatype Source = Source(text: string, cc: CharClasses, line: int)

  const REGEX_WORDS: set<string> := {
    "return", "typeof", "instanceof", "in", "of", "new", "delete", "void",
    "throw", "case", "do", "else", "yield", "await"
  }

  const HOLE: string := "${}"

  /** A slash after these tokens opens a regex literal, not a division. */
  predicate RegexAllowed(toks: seq<Tok>) {
    toks == [] ||
    var prev := toks[|toks|-1];
    if prev.kind.Name? then prev.text in REGEX_WORDS
    else (prev.kind.Punct? || prev.kind.Op?) && prev.text !in [")", "]", "++", "--"]
  }

  datatype Reading = Gap(end: nat) | Whole(kind: Kind, text: string, end: nat) | Backtick | Stuck

  /** What a match of the token pattern at `pos` is. */
  function ReadingOf(src: Source, pos: nat, m: Match): (r: Reading)
    requires pos < m.end <= |src.text| && (m.lexeme.Quoted? ==> m.end >= pos + 2)
    ensures r.Gap? || r.Whole?
  {
    var value := src.text[pos..m.end];
    match m.lexeme
    case Space => Gap(m.end)
    case Newline => Gap(m.end)
    case LineComment => Gap(m.end)
    case Quoted => Whole(Str, Unescape(value[1..|value|-1]), m.end)
    case Word => Whole(Name, value, m.end)
    case Numeral => Whole(Number, value, m.end)
    case Operator => Whole(Op, value, m.end)
    case Single => Whole(Punct, value, m.end)
  }

  /** What the token pattern makes of the text at `pos`. */
  function Plain(src: Source, pos: nat): (r: Reading)
    requires pos < |src.text|
    ensures r.Gap? || r.Whole?
  {
    ReadingOf(src, pos, Scan(src.cc, src.text, pos))
  }

  function ReadAt(src: Source, regex: bool, pos: nat): Reading
    requires pos < |src.text|
  {
    var c := src.text[pos];
    if c == '`' then Backtick
    else if At(src.text, pos, "/*") then
      var close := CommentClose(src.text, pos + 2);
      if close.Some? then Gap(close.value + 2) else Stuck
    else if c == '/' && !At(src.text, pos, "//") && regex && RegexEnd(src.text, pos).Some? then
      Whole(Regex, src.text[pos..RegexEnd(src.text, pos).value], RegexEnd(src.text, pos).value)
    else if c in "\"'" && StringEnd(src.text, pos).None? then Stuck
    else Plain(src, pos)
  }

  function LineAt(src: Source, pos: nat): int {
    src.line + Newlines(if pos <= |src.text| then src.text[..pos] else src.text)
  }

  lemma LineMoves(src: Source, a: nat, b: nat)
    requires a <= b <= |src.text|
    ensures LineAt(src, b) == LineAt(src, a) + Newlines(src.text[a..b])
  {
    NewlinesUpTo(src.text, a, b);
  }

  /** The end of the template part read from `start`: past the backtick, or past the `${`. */
  function PartEnd(text: string, start: nat): nat
    requires start <= |text|
  {
    var e := TemplateTextEnd(text, start);
    if e < |text| && text[e] == '`' then e + 1 else e + 2
  }

  /** What the template part read from `start` means. */
  function PieceAt(text: string, start: nat): string {
    if start > |text| then "" else Unescape(text[start..TemplateTextEnd(text, start)])
  }

  /** What the parts of template `t` mean, tile by tile. */
  function Pieces(text: string, tiles: seq<Tile>, t: nat): seq<string> {
    if tiles == [] then []
    else
      var last := tiles[|tiles|-1];
      Pieces(text, tiles[..|tiles|-1], t) + if last.tok == t then [PieceAt(text, last.start + 1)] else []
  }

  /** The pieces, each with a hole after it, and how many holes that makes. */
  function WithHoles(pieces: seq<string>): (string, nat) {
    if pieces == [] then ("", 0)
    else
      var before := WithHoles(pieces[..|pieces|-1]);
      (before.0 + pieces[|pieces|-1] + HOLE, before.1 + 1)
  }

  /** The pieces with a hole between any two, and how many holes that makes. */
  function Joined(pieces: seq<string>): (string, nat) {
    if pieces == [] then ("", 0)
    else var before := WithHoles(pieces[..|pieces|-1]); (before.0 + pieces[|pieces|-1], before.1)
  }

  /** The text and hole count that the tiles of template `t` tell. */
  function Told(text: string, tiles: seq<Tile>, t: nat): (string, nat) { Joined(Pieces(text, tiles, t)) }

  lemma {:induction false} PiecesUntouched(text: string, a: seq<Tile>, b: seq<Tile>, t: nat)
    requires a <= b && forall k :: |a| <= k < |b| ==> b[k].tok != t
    ensures Pieces(text, b, t) == Pieces(text, a, t)
    decreases |b|
  {
    if |a| < |b| {
      PiecesUntouched(text, a, b[..|b|-1], t);
    } else {
      assert a == b;
    }
  }

  // ------------------------------------------------------- faithful readings

  /** The tiles are adjacent and cover the text from 0 to `pos`. */
  ghost predicate Chain(tiles: seq<Tile>, pos: nat) {
    && (tiles == [] ==> pos == 0)
    && (tiles != [] ==> tiles[0].start == 0 && tiles[|tiles|-1].end == pos)
    && (forall k :: 0 <= k < |tiles| - 1 ==> tiles[k].end == tiles[k+1].start)
    && (forall k :: 0 <= k < |tiles| ==> tiles[k].start < tiles[k].end)
  }

  /** Every token has a first tile, in order. */
  ghost predicate Firsts(s: LexState) {
    && |s.first| == |s.toks|
    && (forall i :: 0 <= i < |s.first| ==> s.first[i] < |s.tiles| && s.tiles[s.first[i]].tok == i)
    && (forall i, j :: 0 <= i < j < |s.first| ==> s.first[i] < s.first[j])
    && (forall k :: 0 <= k < |s.tiles| ==> s.tiles[k].tok < |s.toks|)
    && (forall k :: 0 <= k < |s.tiles| && s.tiles[k].tok >= 0 ==> s.first[s.tiles[k].tok] <= k)
  }

  /** Tile `k` is what the text reads as where it starts. */
  ghost predicate Explained(src: Source, s: LexState, k: nat)
    requires Firsts(s) && k < |s.tiles|
  {
    var p := s.tiles[k];
    p.start < |src.text| &&
    if p.tok < 0 then ReadAt(src, false, p.start) == Gap(p.end)
    else
      var t := s.toks[p.tok];
      if t.kind.Template? then
        src.text[p.start] == (if k == s.first[p.tok] then '`' else '}') && p.end == PartEnd(src.text, p.start + 1)
      else k == s.first[p.tok] && ReadAt(src, RegexAllowed(s.toks[..p.tok]), p.start) == Whole(t.kind, t.text, p.end)
  }

  ghost predicate AllExplained(src: Source, s: LexState)
    requires Firsts(s)
  {
    forall k :: 0 <= k < |s.tiles| ==> Explained(src, s, k)
  }

  ghost predicate Lines(src: Source, s: LexState)
    requires Firsts(s)
  {
    forall i :: 0 <= i < |s.toks| ==> s.toks[i].line == LineAt(src, s.tiles[s.first[i]].start)
  }

  /** A template's token tells its parts, once the template is read. */
  ghost predicate Templates(src: Source, s: LexState) {
    forall i :: 0 <= i < |s.toks| && s.toks[i].kind.Template? && i !in s.unread ==>
      (s.toks[i].text, s.toks[i].holes) == Told(src.text, s.tiles, i)
  }

  /** The hole lies between two consecutive parts of one template; its tokens are those read there. */
  ghost predicate Between(s: LexState, h: Hole) {
    && h.before < h.after < |s.tiles| && 0 <= s.tiles[h.before].tok == s.tiles[h.after].tok
    && (forall k :: h.before < k < h.after ==> s.tiles[k].tok != s.tiles[h.after].tok)
    && (forall i :: 0 <= i < |s.first| ==> (InHole(h, i) <==> h.before < s.first[i] < h.after))
  }

  ghost predicate Ends(holes: seq<Hole>, k: nat) { exists h <- holes :: h.after == k }

  /** Before every further part of a template there is a hole. */
  ghost predicate HolesFound(s: LexState)
    requires Firsts(s)
  {
    && (forall h <- s.holes :: h.to <= |s.toks| && Between(s, h))
    && (forall k :: 0 <= k < |s.tiles| && s.tiles[k].tok >= 0 && k != s.first[s.tiles[k].tok] ==> Ends(s.holes, k))
  }

  ghost predicate Faithful(src: Source, s: LexState, pos: nat) {
    Chain(s.tiles, pos) && Firsts(s) && AllExplained(src, s) && Lines(src, s) && Templates(src, s) && HolesFound(s)
  }

  // ------------------------------------------------- how the reading grows

  lemma ChainGrows(tiles: seq<Tile>, p: Tile)
    requires Chain(tiles, p.start) && p.start < p.end
    ensures Chain(tiles + [p], p.end)
  {}

  /** Two states whose tokens up to `s` agree explain the tiles of `s` alike. */
  lemma ExplainedSame(src: Source, s: LexState, r: LexState, k: nat)
    requires Firsts(s) && Firsts(r) && k < |s.tiles| && s.tiles <= r.tiles && s.first <= r.first && s.toks <= r.toks
    requires Explained(src, s, k)
    ensures Explained(src, r, k)
  {
    var t := s.tiles[k].tok;
    if t >= 0 { assert r.toks[..t] == s.toks[..t]; }
  }

  lemma AllExplainedGrows(src: Source, s: LexState, r: LexState)
    requires Firsts(s) && Firsts(r) && s.tiles <= r.tiles && s.first <= r.first && s.toks <= r.toks
    requires AllExplained(src, s) && |r.tiles| == |s.tiles| + 1 && Explained(src, r, |s.tiles|)
    ensures AllExplained(src, r)
  {
    forall k | 0 <= k < |r.tiles| ensures Explained(src, r, k) {
      if k < |s.tiles| { ExplainedSame(src, s, r, k); }
    }
  }

  lemma BetweenGrows(s: LexState, r: LexState, h: Hole)
    requires s.tiles <= r.tiles && s.first <= r.first && h.to <= |s.first| && Between(s, h)
    requires forall i :: |s.first| <= i < |r.first| ==> r.first[i] >= |s.tiles|
    ensures Between(r, h)
  {}

  function WithGap(s: LexState, start: nat, end: nat): LexState { s.(tiles := s.tiles + [Tile(start, end, -1)]) }

  lemma GapHoles(s: LexState, start: nat, end: nat)
    requires Firsts(s) && HolesFound(s)
    ensures Firsts(WithGap(s, start, end)) && HolesFound(WithGap(s, start, end))
  {
    var r := WithGap(s, start, end);
    assert Firsts(r);
    forall h <- r.holes ensures Between(r, h) { BetweenGrows(s, r, h); }
  }

  lemma GapTemplates(src: Source, s: LexState, start: nat, end: nat)
    requires Templates(src, s)
    ensures Templates(src, WithGap(s, start, end))
  {
    var r := WithGap(s, start, end);
    forall i | 0 <= i < |s.toks| ensures Told(src.text, r.tiles, i) == Told(src.text, s.tiles, i) {
      PiecesUntouched(src.text, s.tiles, r.tiles, i);
    }
  }

  lemma GapRead(src: Source, s: LexState, pos: nat, end: nat)
    requires Faithful(src, s, pos) && pos < |src.text| && pos < end && ReadAt(src, false, pos) == Gap(end)
    ensures Faithful(src, WithGap(s, pos, end), end)
  {
    var r := WithGap(s, pos, end);
    ChainGrows(s.tiles, Tile(pos, end, -1));
    GapHoles(s, pos, end);
    GapTemplates(src, s, pos, end);
    AllExplainedGrows(src, s, r);
  }

  /** `r` is `s` with one more token, read from one tile; its matching may differ in any way. */
  ghost predicate Grown(s: LexState, r: LexState, t: Tok, start: nat, end: nat) {
    && r.toks == s.toks + [t] && r.tiles == s.tiles + [Tile(start, end, |s.toks|)] && r.first == s.first + [|s.tiles|]
    && r.holes == s.holes
  }

  lemma TokHoles(s: LexState, r: LexState, t: Tok, start: nat, end: nat)
    requires Firsts(s) && HolesFound(s) && Grown(s, r, t, start, end)
    ensures Firsts(r) && HolesFound(r)
  {
    TokFirsts(s, r, t, start, end);
    forall h <- r.holes ensures h.to <= |r.toks| && Between(r, h) { BetweenGrows(s, r, h); }
  }

  lemma TokFirsts(s: LexState, r: LexState, t: Tok, start: nat, end: nat)
    requires Firsts(s) && Grown(s, r, t, start, end)
    ensures Firsts(r)
  {}

  lemma TokTemplates(src: Source, s: LexState, r: LexState, t: Tok, start: nat, end: nat)
    requires Templates(src, s) && Grown(s, r, t, start, end)
    requires if t.kind.Template? then r.unread == s.unread + [|s.toks|] else r.unread == s.unread
    ensures Templates(src, r)
  {
    forall i | 0 <= i < |s.toks| ensures Told(src.text, r.tiles, i) == Told(src.text, s.tiles, i) {
      PiecesUntouched(src.text, s.tiles, r.tiles, i);
    }
    if t.kind.Template? { assert r.unread[|s.unread|] == |s.toks|; }
    forall i | i in s.unread ensures i in r.unread {}
  }

  lemma TokLines(src: Source, s: LexState, r: LexState, t: Tok, start: nat, end: nat)
    requires Firsts(s) && Firsts(r) && Lines(src, s) && Grown(s, r, t, start, end) && t.line == LineAt(src, start)
    ensures Lines(src, r)
  {}

  lemma TokRead(src: Source, s: LexState, r: LexState, t: Tok, pos: nat, end: nat)
    requires Faithful(src, s, pos) && Grown(s, r, t, pos, end) && pos < |src.text| && pos < end
    requires t.line == LineAt(src, pos)
    requires if t.kind.Template? then r.unread == s.unread + [|s.toks|] else r.unread == s.unread
    requires if t.kind.Template? then src.text[pos] == '`' && end == PartEnd(src.text, pos + 1)
             else ReadAt(src, RegexAllowed(s.toks), pos) == Whole(t.kind, t.text, end)
    ensures Faithful(src, r, end)
  {
    ChainGrows(s.tiles, Tile(pos, end, |s.toks|));
    TokHoles(s, r, t, pos, end);
    TokTemplates(src, s, r, t, pos, end);
    TokLines(src, s, r, t, pos, end);
    assert r.toks[..|s.toks|] == s.toks;
    AllExplainedGrows(src, s, r);
  }

  /** The next part of the template read last, after the hole `h`. */
  function WithPart(s: LexState, at: nat, start: nat, end: nat, h: Hole): LexState {
    s.(tiles := s.tiles + [Tile(start, end, at)], holes := s.holes + [h])
  }

  lemma PartHoles(s: LexState, at: nat, start: nat, end: nat, h: Hole)
    requires Firsts(s) && HolesFound(s) && at < |s.toks| && h.after == |s.tiles| && h.to == |s.toks|
    requires Between(WithPart(s, at, start, end, h), h)
    ensures Firsts(WithPart(s, at, start, end, h)) && HolesFound(WithPart(s, at, start, end, h))
  {
    var r := WithPart(s, at, start, end, h);
    PartFirsts(s, at, start, end, h);
    forall g | g in r.holes ensures g.to <= |r.toks| && Between(r, g) {
      if g in s.holes { BetweenGrows(s, r, g); }
    }
    assert r.holes[|s.holes|] == h;
    forall k | 0 <= k < |r.tiles| && r.tiles[k].tok >= 0 && k != r.first[r.tiles[k].tok] ensures Ends(r.holes, k) {
      if k < |s.tiles| { EndsGrows(s.holes, r.holes, k); }
    }
  }

  lemma PartFirsts(s: LexState, at: nat, start: nat, end: nat, h: Hole)
    requires Firsts(s) && at < |s.toks|
    ensures Firsts(WithPart(s, at, start, end, h))
  {}

  lemma EndsGrows(a: seq<Hole>, b: seq<Hole>, k: nat)
    requires a <= b && Ends(a, k)
    ensures Ends(b, k)
  {
    var h :| h in a && h.after == k;
    assert h in b;
  }

  lemma PartTemplates(src: Source, s: LexState, at: nat, start: nat, end: nat, h: Hole)
    requires Templates(src, s) && at in s.unread
    ensures Templates(src, WithPart(s, at, start, end, h))
  {
    var r := WithPart(s, at, start, end, h);
    forall i | 0 <= i < |s.toks| && i != at ensures Told(src.text, r.tiles, i) == Told(src.text, s.tiles, i) {
      PiecesUntouched(src.text, s.tiles, r.tiles, i);
    }
  }

  lemma PartExplained(src: Source, s: LexState, r: LexState, at: nat, pos: nat)
    requires Firsts(s) && Firsts(r) && AllExplained(src, s) && at < |s.toks| && s.toks[at].kind.Template?
    requires pos < |src.text| && src.text[pos] == '}' && r.toks == s.toks && r.first == s.first
    requires r.tiles == s.tiles + [Tile(pos, PartEnd(src.text, pos + 1), at)]
    ensures AllExplained(src, r)
  {
    assert s.first[at] < |s.tiles|;
    assert Explained(src, r, |s.tiles|);
    AllExplainedGrows(src, s, r);
  }

  lemma LinesKept(src: Source, s: LexState, r: LexState)
    requires Firsts(s) && Firsts(r) && Lines(src, s) && r.toks == s.toks && r.first == s.first && s.tiles <= r.tiles
    ensures Lines(src, r)
  {
    forall i | 0 <= i < |s.toks| ensures r.toks[i].line == LineAt(src, r.tiles[r.first[i]].start) {
      assert r.tiles[s.first[i]] == s.tiles[s.first[i]];
    }
  }

  lemma PartRead(src: Source, s: LexState, at: nat, pos: nat, h: Hole)
    requires Faithful(src, s, pos) && at < |s.toks| && at in s.unread && s.toks[at].kind.Template?
    requires pos < |src.text| && src.text[pos] == '}' && h.after == |s.tiles| && h.to == |s.toks|
    requires Between(WithPart(s, at, pos, PartEnd(src.text, pos + 1), h), h)
    ensures Faithful(src, WithPart(s, at, pos, PartEnd(src.text, pos + 1), h), PartEnd(src.text, pos + 1))
  {
    var end := PartEnd(src.text, pos + 1);
    var r := WithPart(s, at, pos, end, h);
    ChainGrows(s.tiles, Tile(pos, end, at));
    PartHoles(s, at, pos, end, h);
    PartTemplates(src, s, at, pos, end, h);
    PartExplained(src, s, r, at, pos);
    LinesKept(src, s, r);
  }

  /** The tokens read between two parts are those with a first tile there. */
  lemma HoleBetween(s: LexState, r: LexState, at: nat, start: nat, end: nat, h: Hole)
    requires Firsts(s) && Firsts(r) && Extends(s, r) && at < |s.toks| && s.tiles != [] && s.tiles[|s.tiles|-1].tok == at
    requires h == Hole(|s.toks|, |r.toks|, |s.tiles| - 1, |r.tiles|)
    ensures Between(WithPart(r, at, start, end, h), h)
  {
    assert forall i :: 0 <= i < |s.first| ==> r.first[i] == s.first[i] < |s.tiles|;
  }

  // ----------------------------------------------- a template token filled in

  /** The template token `at` gets its text and hole count, and is no longer being read. */
  function Filled(s: LexState, at: nat, t: Tok): LexState
    requires at < |s.toks| && s.unread != []
  {
    Patched(s, at, t).(unread := s.unread[..|s.unread|-1])
  }

  lemma FilledExplained(src: Source, s: LexState, at: nat, t: Tok, k: nat)
    requires at < |s.toks| && s.unread != [] && t.kind.Template? && s.toks[at].kind.Template?
    requires Firsts(s) && Firsts(Filled(s, at, t)) && k < |s.tiles| && Explained(src, s, k)
    ensures Explained(src, Filled(s, at, t), k)
  {
    var r, j := Filled(s, at, t), s.tiles[k].tok;
    if j > 0 {
      assert r.toks[..j][j-1] == r.toks[j-1] && s.toks[..j][j-1] == s.toks[j-1];
      assert RegexAllowed(r.toks[..j]) == RegexAllowed(s.toks[..j]);
    }
  }

  lemma FilledTemplates(src: Source, s: LexState, at: nat, t: Tok)
    requires Templates(src, s) && at < |s.toks| && s.unread != [] && s.unread[|s.unread|-1] == at
    requires (t.text, t.holes) == Told(src.text, s.tiles, at)
    ensures Templates(src, Filled(s, at, t))
  {
    var r := Filled(s, at, t);
    assert s.unread == r.unread + [at];
  }

  lemma FilledHoles(s: LexState, at: nat, t: Tok)
    requires Firsts(s) && HolesFound(s) && at < |s.toks| && s.unread != []
    ensures Firsts(Filled(s, at, t)) && HolesFound(Filled(s, at, t))
  {
    var r := Filled(s, at, t);
    assert Firsts(r);
    forall h <- r.holes ensures Between(r, h) { assert Between(s, h); }
  }

  lemma FilledRead(src: Source, s: LexState, at: nat, t: Tok, pos: nat)
    requires Faithful(src, s, pos) && at < |s.toks| && s.unread != [] && s.unread[|s.unread|-1] == at
    requires s.toks[at].kind.Template? && t.kind.Template? && t.line == s.toks[at].line
    requires (t.text, t.holes) == Told(src.text, s.tiles, at)
    ensures Faithful(src, Filled(s, at, t), pos)
  {
    var r := Filled(s, at, t);
    FilledHoles(s, at, t);
    forall k | 0 <= k < |r.tiles| ensures Explained(src, r, k) { FilledExplained(src, s, at, t, k); }
    FilledTemplates(src, s, at, t);
  }

  // ------------------------------------------------------- the lexer's steps

  // `Sound` and its like below are folded: each quantifies over a `u` that means nothing, so that the
  // verifier unfolds it only where the `...Means` lemma beside it asks it to.

  predicate LookSound(s: LexState, pos: nat, u: int) { true }

  predicate LookFollows(s: LexState, r: LexState, u: int) { true }

  predicate LookHalted(s: LexState, blamed: int, u: int) { true }

  predicate LookReads(pos: nat, r: Reading, u: int) { true }

  predicate LookTemplate(s: LexState, pos: nat, parts: seq<string>, u: int) { true }

  predicate LookPart(s: LexState, e: nat, parts: seq<string>, u: int) { true }

  /** Everything before `pos` is matched and read faithfully. */
  ghost predicate Sound(src: Source, s: LexState, pos: nat) {
    forall u: int {:trigger LookSound(s, pos, u)} :: LookSound(s, pos, u) ==> Matched(s) && Faithful(src, s, pos)
  }

  lemma SoundMeans(src: Source, s: LexState, pos: nat)
    ensures Sound(src, s, pos) <==> Matched(s) && Faithful(src, s, pos)
  {
    assert LookSound(s, pos, 0);
  }

  /** `Extends`, kept folded in the same way. */
  ghost predicate Follows(s: LexState, r: LexState) {
    forall u: int {:trigger LookFollows(s, r, u)} :: LookFollows(s, r, u) ==> Extends(s, r)
  }

  lemma FollowsMeans(s: LexState, r: LexState)
    ensures Follows(s, r) <==> Extends(s, r)
  {
    assert LookFollows(s, r, 0);
  }

  lemma FollowsTransitive(a: LexState, b: LexState, c: LexState)
    requires Follows(a, b) && Follows(b, c)
    ensures Follows(a, c)
  {
    FollowsMeans(a, b);
    FollowsMeans(b, c);
    FollowsMeans(a, c);
    ExtendsTransitive(a, b, c);
  }

  /** The lexer stands at `pos`, counting the right line. */
  ghost predicate Good(src: Source, s: LexState, line: int, pos: nat) {
    Sound(src, s, pos) && line == LineAt(src, pos)
  }

  /** Why the lexer gives up at `pos`: something that never closes, or a `}` that nothing opened. */
  predicate Blocked(src: Source, s: LexState, pos: nat) {
    if pos >= |src.text| then s.unread != [] || s.braces != []
    else ReadAt(src, RegexAllowed(s.toks), pos).Stuck? || (src.text[pos] == '}' && s.braces == [] && s.unread == [])
  }

  /** The line the error names: that of the template whose text never ends (the lexer is then past
      its last part), else that of the innermost open brace at the end, else the lexer's own. */
  function Blamed(src: Source, s: LexState, pos: nat): int {
    if pos == |src.text| + 2 && s.unread != [] && s.unread[|s.unread|-1] < |s.toks| then
      s.toks[s.unread[|s.unread|-1]].line
    else if pos >= |src.text| && s.unread == [] && s.braces != [] && s.braces[|s.braces|-1] < |s.toks| then
      s.toks[s.braces[|s.braces|-1]].line
    else LineAt(src, pos)
  }

  /** The lexer cannot go on, and blames that line; folded like `Sound`. */
  ghost predicate Halted(src: Source, s: LexState, line: int, blamed: int) {
    forall u: int {:trigger LookHalted(s, blamed, u)} :: LookHalted(s, blamed, u) ==>
      HaltedSomewhere(src, s, line, blamed)
  }

  ghost predicate HaltedSomewhere(src: Source, s: LexState, line: int, blamed: int) {
    exists pos: nat :: Good(src, s, line, pos) && Blocked(src, s, pos) && blamed == Blamed(src, s, pos)
  }

  lemma HaltedAt(src: Source, s: LexState, line: int, pos: nat)
    requires Good(src, s, line, pos) && Blocked(src, s, pos)
    ensures Halted(src, s, line, Blamed(src, s, pos))
  {
    assert HaltedSomewhere(src, s, line, Blamed(src, s, pos));
  }

  /** What the text reads as at `pos`; folded like `Sound`. */
  ghost predicate Reads(src: Source, regex: bool, pos: nat, r: Reading) {
    forall u: int {:trigger LookReads(pos, r, u)} :: LookReads(pos, r, u) ==>
      pos < |src.text| && ReadAt(src, regex, pos) == r
  }

  lemma ReadsMeans(src: Source, regex: bool, pos: nat, r: Reading)
    ensures Reads(src, regex, pos, r) <==> pos < |src.text| && ReadAt(src, regex, pos) == r
  {
    assert LookReads(pos, r, 0);
  }

  lemma MatchedSame(s: LexState, r: LexState)
    requires Matched(s) && r.toks == s.toks && r.braces == s.braces && r.closes == s.closes && r.holes == s.holes
    ensures Matched(r)
  {
    forall k | 0 <= k < |r.toks| ensures BlockOk(r, k) { BlocksSame(s, r, k); }
  }

  lemma GapStep(src: Source, floor: LexState, s: LexState, line: int, pos: nat, end: nat)
    requires Good(src, s, line, pos) && pos < |src.text| && pos < end <= |src.text|
    requires Reads(src, RegexAllowed(s.toks), pos, Gap(end)) && Follows(floor, s)
    ensures Good(src, WithGap(s, pos, end), line + Newlines(src.text[pos..end]), end)
    ensures Follows(floor, WithGap(s, pos, end))
  {
    GapSound(src, s, pos, end);
    LineMoves(src, pos, end);
    FollowsMeans(s, WithGap(s, pos, end));
    FollowsTransitive(floor, s, WithGap(s, pos, end));
  }

  lemma GapSound(src: Source, s: LexState, pos: nat, end: nat)
    requires Sound(src, s, pos) && pos < |src.text| && pos < end <= |src.text|
    requires Reads(src, RegexAllowed(s.toks), pos, Gap(end))
    ensures Sound(src, WithGap(s, pos, end), end)
  {
    SoundMeans(src, s, pos);
    ReadsMeans(src, RegexAllowed(s.toks), pos, Gap(end));
    GapRead(src, s, pos, end);
    MatchedSame(s, WithGap(s, pos, end));
    SoundMeans(src, WithGap(s, pos, end), end);
  }

  /** The tile of the token just added to `s`. */
  function Laid(s: LexState, start: nat, end: nat): LexState {
    s.(tiles := s.tiles + [Tile(start, end, |s.toks| - 1)], first := s.first + [|s.tiles|])
  }

  function TokHere(s: LexState, kind: Kind, text: string, line: int): Tok { Tok(kind, text, line, Block(s.braces), 0) }

  lemma LaidExtends(s: LexState, t: Tok, pos: nat, end: nat)
    ensures Extends(s, Laid(WithTok(s, t), pos, end))
    ensures Extends(s, Laid(Opened(s, t), pos, end))
  {}

  /** Laying the tile of the token just added, once the matching is known to be kept. */
  lemma TokSound(src: Source, s: LexState, base: LexState, t: Tok, pos: nat, end: nat)
    requires Sound(src, s, pos) && Matched(base) && base.toks == s.toks + [t]
    requires base.tiles == s.tiles && base.first == s.first && base.holes == s.holes && base.unread == s.unread
    requires pos < |src.text| && pos < end && t.line == LineAt(src, pos) && !t.kind.Template?
    requires Reads(src, RegexAllowed(s.toks), pos, Whole(t.kind, t.text, end))
    ensures Sound(src, Laid(base, pos, end), end)
  {
    MatchedSame(base, Laid(base, pos, end));
    TokFaithful(src, s, base, t, pos, end);
    SoundMeans(src, Laid(base, pos, end), end);
  }

  lemma TokFaithful(src: Source, s: LexState, base: LexState, t: Tok, pos: nat, end: nat)
    requires Sound(src, s, pos) && base.toks == s.toks + [t]
    requires base.tiles == s.tiles && base.first == s.first && base.holes == s.holes && base.unread == s.unread
    requires pos < |src.text| && pos < end && t.line == LineAt(src, pos) && !t.kind.Template?
    requires Reads(src, RegexAllowed(s.toks), pos, Whole(t.kind, t.text, end))
    ensures Faithful(src, Laid(base, pos, end), end)
  {
    SoundMeans(src, s, pos);
    ReadsMeans(src, RegexAllowed(s.toks), pos, Whole(t.kind, t.text, end));
    TokRead(src, s, Laid(base, pos, end), t, pos, end);
  }

  lemma PlainMatched(src: Source, s: LexState, pos: nat, t: Tok)
    requires Sound(src, s, pos) && !IsOpen(t) && !IsClose(t) && t.block == Block(s.braces)
    ensures Matched(WithTok(s, t))
  {
    SoundMeans(src, s, pos);
    PlainOk(s, t);
  }

  lemma OpenMatched(src: Source, s: LexState, pos: nat, t: Tok)
    requires Sound(src, s, pos) && IsOpen(t) && t.block == Block(s.braces)
    ensures Matched(Opened(s, t))
  {
    SoundMeans(src, s, pos);
    OpenOk(s, t);
  }

  lemma CloseMatched(src: Source, s: LexState, pos: nat, t: Tok)
    requires Sound(src, s, pos) && s.braces != [] && IsClose(t) && t.block == Block(s.braces[..|s.braces|-1])
    ensures Matched(Closed(s, t))
  {
    SoundMeans(src, s, pos);
    CloseOk(s, t);
  }

  lemma LaidFollows(floor: LexState, s: LexState, t: Tok, pos: nat, end: nat)
    requires Follows(floor, s)
    ensures Follows(floor, Laid(WithTok(s, t), pos, end)) && Follows(floor, Laid(Opened(s, t), pos, end))
  {
    LaidExtends(s, t, pos, end);
    FollowsMeans(s, Laid(WithTok(s, t), pos, end));
    FollowsMeans(s, Laid(Opened(s, t), pos, end));
    FollowsTransitive(floor, s, Laid(WithTok(s, t), pos, end));
    FollowsTransitive(floor, s, Laid(Opened(s, t), pos, end));
  }

  lemma WholeStep(src: Source, floor: LexState, s: LexState, line: int, pos: nat, end: nat, kind: Kind, text: string)
    requires Good(src, s, line, pos) && pos < |src.text| && pos < end <= |src.text| && Follows(floor, s)
    requires Reads(src, RegexAllowed(s.toks), pos, Whole(kind, text, end)) && !kind.Template?
    requires kind.Punct? ==> text != "{" && text != "}"
    ensures var r := Laid(WithTok(s, TokHere(s, kind, text, line)), pos, end);
      Good(src, r, line + Newlines(src.text[pos..end]), end) && Follows(floor, r)
  {
    var t := TokHere(s, kind, text, line);
    PlainMatched(src, s, pos, t);
    TokSound(src, s, WithTok(s, t), t, pos, end);
    LaidFollows(floor, s, t, pos, end);
    LineMoves(src, pos, end);
  }

  lemma OpenStep(src: Source, floor: LexState, s: LexState, line: int, pos: nat)
    requires Good(src, s, line, pos) && pos < |src.text| && Follows(floor, s)
    requires Reads(src, RegexAllowed(s.toks), pos, Whole(Punct, "{", pos + 1))
    ensures var r := Laid(Opened(s, TokHere(s, Punct, "{", line)), pos, pos + 1);
      Good(src, r, line + Newlines(src.text[pos..pos+1]), pos + 1) && Follows(floor, r)
  {
    var t := TokHere(s, Punct, "{", line);
    OpenMatched(src, s, pos, t);
    TokSound(src, s, Opened(s, t), t, pos, pos + 1);
    LaidFollows(floor, s, t, pos, pos + 1);
    LineMoves(src, pos, pos + 1);
  }

  function BraceHere(s: LexState, line: int): Tok
    requires s.braces != []
  {
    Tok(Punct, "}", line, Block(s.braces[..|s.braces|-1]), 0)
  }

  lemma CloseStep(src: Source, floor: LexState, s: LexState, line: int, pos: nat)
    requires Good(src, s, line, pos) && pos < |src.text| && |s.braces| > |floor.braces|
    requires Reads(src, RegexAllowed(s.toks), pos, Whole(Punct, "}", pos + 1))
    requires Follows(floor, s)
    ensures Good(src, Laid(Closed(s, BraceHere(s, line)), pos, pos + 1), line + Newlines(src.text[pos..pos+1]), pos + 1)
    ensures Follows(floor, Laid(Closed(s, BraceHere(s, line)), pos, pos + 1))
  {
    CloseSound(src, s, line, pos);
    CloseFollows(src, floor, s, BraceHere(s, line), pos, pos + 1);
    LineMoves(src, pos, pos + 1);
  }

  lemma CloseSound(src: Source, s: LexState, line: int, pos: nat)
    requires Good(src, s, line, pos) && pos < |src.text| && s.braces != []
    requires Reads(src, RegexAllowed(s.toks), pos, Whole(Punct, "}", pos + 1))
    ensures Sound(src, Laid(Closed(s, BraceHere(s, line)), pos, pos + 1), pos + 1)
  {
    var t := BraceHere(s, line);
    CloseMatched(src, s, pos, t);
    TokSound(src, s, Closed(s, t), t, pos, pos + 1);
  }

  lemma CloseFollows(src: Source, floor: LexState, s: LexState, t: Tok, pos: nat, end: nat)
    requires Sound(src, s, pos) && Follows(floor, s) && |s.braces| > |floor.braces|
    ensures Follows(floor, Laid(Closed(s, t), pos, end))
  {
    SoundMeans(src, s, pos);
    FollowsMeans(floor, s);
    FollowsMeans(floor, Laid(Closed(s, t), pos, end));
    ClosedExtends(floor, s, t);
    LaidClosedExtends(floor, s, t, pos, end);
  }

  lemma LaidClosedExtends(floor: LexState, s: LexState, t: Tok, pos: nat, end: nat)
    requires s.braces != [] && Extends(floor, s) && Extends(floor, Closed(s, t))
    ensures Extends(floor, Laid(Closed(s, t), pos, end))
  {}

  /** A template's token before its text is known, with its first part already laid. */
  function Begun(s: LexState, line: int, pos: nat, end: nat): LexState {
    Laid(WithTok(s, TokHere(s, Template, "", line)), pos, end).(unread := s.unread + [|s.toks|])
  }

  lemma TemplateStep(src: Source, s: LexState, line: int, pos: nat)
    requires Good(src, s, line, pos) && pos < |src.text| && src.text[pos] == '`'
    ensures Sound(src, Begun(s, line, pos, PartEnd(src.text, pos + 1)), PartEnd(src.text, pos + 1))
  {
    BegunMatched(src, s, line, pos);
    BegunFaithful(src, s, line, pos);
    SoundMeans(src, Begun(s, line, pos, PartEnd(src.text, pos + 1)), PartEnd(src.text, pos + 1));
  }

  lemma BegunMatched(src: Source, s: LexState, line: int, pos: nat)
    requires Sound(src, s, pos) && pos < |src.text|
    ensures Matched(Begun(s, line, pos, PartEnd(src.text, pos + 1)))
  {
    SoundMeans(src, s, pos);
    PlainOk(s, TokHere(s, Template, "", line));
    MatchedSame(WithTok(s, TokHere(s, Template, "", line)), Begun(s, line, pos, PartEnd(src.text, pos + 1)));
  }

  lemma BegunFaithful(src: Source, s: LexState, line: int, pos: nat)
    requires Good(src, s, line, pos) && pos < |src.text| && src.text[pos] == '`'
    ensures Faithful(src, Begun(s, line, pos, PartEnd(src.text, pos + 1)), PartEnd(src.text, pos + 1))
  {
    SoundMeans(src, s, pos);
    var end := PartEnd(src.text, pos + 1);
    TokRead(src, s, Begun(s, line, pos, end), TokHere(s, Template, "", line), pos, end);
  }

  lemma NothingTold(src: Source, s: LexState, pos: nat)
    requires Sound(src, s, pos)
    ensures Pieces(src.text, s.tiles, |s.toks|) == []
  {
    SoundMeans(src, s, pos);
    PiecesUntouched(src.text, [], s.tiles, |s.toks|);
  }

  lemma BegunFollows(s: LexState, line: int, pos: nat, end: nat)
    ensures Follows(s, Begun(s, line, pos, end))
  {
    FollowsMeans(s, Begun(s, line, pos, end));
  }

  lemma SameLine(src: Source, pos: nat)
    requires pos < |src.text| && src.text[pos] != '\n'
    ensures LineAt(src, pos + 1) == LineAt(src, pos)
  {
    LineMoves(src, pos, pos + 1);
    NoNewlines(src.text[pos..pos+1]);
  }

  /** A hole has been read, from `s` to `r`, up to the `}` before `next`, where the template goes on. */
  function GoneOn(src: Source, s: LexState, r: LexState, at: nat, next: nat): LexState
    requires s.tiles != [] && 0 < next <= |src.text|
  {
    WithPart(r, at, next - 1, PartEnd(src.text, next), Hole(|s.toks|, |r.toks|, |s.tiles| - 1, |r.tiles|))
  }

  lemma PartStep(src: Source, s: LexState, from: nat, r: LexState, at: nat, next: nat)
    requires 0 < next <= |src.text| && src.text[next-1] == '}'
    requires Sound(src, s, from) && Sound(src, r, next - 1) && Follows(s, r) && r.braces == s.braces
    requires at < |s.toks| && s.tiles != [] && s.tiles[|s.tiles|-1].tok == at && at in r.unread
    requires s.toks[at].kind.Template?
    ensures Sound(src, GoneOn(src, s, r, at, next), PartEnd(src.text, next))
  {
    GoneOnMatched(src, s, from, r, at, next);
    PartFaithful(src, s, from, r, at, next - 1, Hole(|s.toks|, |r.toks|, |s.tiles| - 1, |r.tiles|));
    SoundMeans(src, GoneOn(src, s, r, at, next), PartEnd(src.text, next));
  }

  lemma GoneOnMatched(src: Source, s: LexState, from: nat, r: LexState, at: nat, next: nat)
    requires 0 < next <= |src.text| && s.tiles != []
    requires Sound(src, s, from) && Sound(src, r, next - 1) && Follows(s, r) && r.braces == s.braces
    ensures Matched(GoneOn(src, s, r, at, next))
  {
    var h := Hole(|s.toks|, |r.toks|, |s.tiles| - 1, |r.tiles|);
    PartMatched(src, s, from, r, next - 1, h);
    MatchedSame(WithHole(r, h), GoneOn(src, s, r, at, next));
  }

  lemma PartMatched(src: Source, s: LexState, from: nat, r: LexState, pos: nat, h: Hole)
    requires Sound(src, s, from) && Sound(src, r, pos) && Follows(s, r) && r.braces == s.braces
    requires h.from == |s.toks| && h.to == |r.toks|
    ensures Matched(WithHole(r, h))
  {
    SoundMeans(src, s, from);
    SoundMeans(src, r, pos);
    FollowsMeans(s, r);
    HoleSealed(s, r, h);
    HoleOk(r, h);
  }

  lemma PartFaithful(src: Source, s: LexState, from: nat, r: LexState, at: nat, pos: nat, h: Hole)
    requires Sound(src, s, from) && Sound(src, r, pos) && Follows(s, r)
    requires at < |s.toks| && s.tiles != [] && s.tiles[|s.tiles|-1].tok == at && at in r.unread
    requires s.toks[at].kind.Template?
    requires pos < |src.text| && src.text[pos] == '}' && h == Hole(|s.toks|, |r.toks|, |s.tiles| - 1, |r.tiles|)
    ensures Faithful(src, WithPart(r, at, pos, PartEnd(src.text, pos + 1), h), PartEnd(src.text, pos + 1))
  {
    SoundMeans(src, s, from);
    SoundMeans(src, r, pos);
    FollowsMeans(s, r);
    HoleBetween(s, r, at, pos, PartEnd(src.text, pos + 1), h);
    PartRead(src, r, at, pos, h);
  }

  lemma PartFollows(a: LexState, s: LexState, at: nat, pos: nat, end: nat, h: Hole)
    requires Follows(a, s) && at >= |a.toks|
    ensures Follows(a, WithPart(s, at, pos, end, h))
  {
    FollowsMeans(a, s);
    FollowsMeans(a, WithPart(s, at, pos, end, h));
  }

  lemma BracesKept(s: LexState, r: LexState)
    requires Follows(s, r)
    ensures s.braces <= r.braces
  {
    FollowsMeans(s, r);
  }

  /** A hole's code leaves the template around it as it was. */
  lemma TemplateKept(text: string, s: LexState, r: LexState, at: nat)
    requires Follows(s, r) && at < |s.toks|
    ensures |r.toks| >= |s.toks| && r.toks[at] == s.toks[at] && Pieces(text, r.tiles, at) == Pieces(text, s.tiles, at)
  {
    FollowsMeans(s, r);
    PiecesUntouched(text, s.tiles, r.tiles, at);
  }

  lemma FillStep(src: Source, s: LexState, at: nat, t: Tok, pos: nat)
    requires Sound(src, s, pos) && at < |s.toks| && s.unread != [] && s.unread[|s.unread|-1] == at
    requires s.toks[at].kind.Template? && t.kind.Template? && t.line == s.toks[at].line && t.block == s.toks[at].block
    requires (t.text, t.holes) == Told(src.text, s.tiles, at)
    ensures Sound(src, Filled(s, at, t), pos)
  {
    SoundMeans(src, s, pos);
    PatchOk(s, at, t);
    MatchedSame(Patched(s, at, t), Filled(s, at, t));
    FilledRead(src, s, at, t, pos);
    SoundMeans(src, Filled(s, at, t), pos);
  }

  lemma FillFollows(a: LexState, s: LexState, at: nat, t: Tok)
    requires Follows(a, s) && |a.toks| <= at < |s.toks| && s.unread != []
    ensures Follows(a, Filled(s, at, t))
  {
    FollowsMeans(a, s);
    FollowsMeans(a, Filled(s, at, t));
  }

  /** A template begun in state `before` is being read; its part at `pos` is its last tile so far. */
  ghost predicate Within(src: Source, before: LexState, s: LexState, begun: int, pos: nat) {
    var at := |before.toks|;
    && 0 < pos <= |src.text| && Sound(src, s, PartEnd(src.text, pos)) && Follows(before, s)
    && s.unread == before.unread + [at] && s.braces == before.braces
    && at < |s.toks| && s.toks[at].kind.Template? && s.toks[at].line == begun
    && s.tiles != [] && s.tiles[|s.tiles|-1] == Tile(pos - 1, PartEnd(src.text, pos), at)
  }

  function Join(parts: seq<string>): string {
    if parts == [] then "" else Join(parts[..|parts|-1]) + parts[|parts|-1]
  }

  /** Within a template, whose `parts` and `count` of holes are those before its part at `pos`; folded like `Sound`. */
  ghost predicate InTemplate(src: Source, before: LexState, s: LexState, begun: int, pos: nat, parts: seq<string>,
                             count: nat) {
    forall u: int {:trigger LookTemplate(s, pos, parts, u)} :: LookTemplate(s, pos, parts, u) ==>
      && Within(src, before, s, begun, pos)
      && (Join(parts), count) == WithHoles(Pieces(src.text, s.tiles[..|s.tiles|-1], |before.toks|))
  }

  /** What the pieces tell, when the last of them ends at `e`: with a hole after it unless a backtick is there. */
  function ToldUpTo(text: string, e: nat, pieces: seq<string>): (string, nat) {
    if e < |text| && text[e] == '`' then Joined(pieces) else WithHoles(pieces)
  }

  /** The same, where that part, which ends at `e`, is among them. */
  ghost predicate InPart(src: Source, before: LexState, s: LexState, begun: int, pos: nat, e: nat, parts: seq<string>,
                         count: nat) {
    forall u: int {:trigger LookPart(s, e, parts, u)} :: LookPart(s, e, parts, u) ==>
      && Within(src, before, s, begun, pos) && e == TemplateTextEnd(src.text, pos)
      && (Join(parts), count) == ToldUpTo(src.text, e, Pieces(src.text, s.tiles, |before.toks|))
  }

  /** `parts`, with the part between `pos` and `e` and the hole that may follow it. */
  function MoreParts(text: string, pos: nat, e: nat, parts: seq<string>): seq<string>
    requires pos <= e <= |text|
  {
    var more := parts + [Unescape(text[pos..e])];
    if e < |text| && text[e] == '`' then more else more + [HOLE]
  }

  function MoreHoles(text: string, e: nat, count: nat): nat {
    if e < |text| && text[e] == '`' then count else count + 1
  }

  lemma PartsTold(text: string, pos: nat, parts: seq<string>, count: nat, pieces: seq<string>)
    requires pos <= |text| && (Join(parts), count) == WithHoles(pieces)
    ensures var e := TemplateTextEnd(text, pos);
      ToldUpTo(text, e, pieces + [PieceAt(text, pos)])
        == (Join(MoreParts(text, pos, e, parts)), MoreHoles(text, e, count))
  {
    var piece := PieceAt(text, pos);
    var more := parts + [piece];
    assert (pieces + [piece])[..|pieces|] == pieces;
    assert more[..|parts|] == parts && (more + [HOLE])[..|more|] == more;
  }

  lemma PartIn(src: Source, before: LexState, s: LexState, begun: int, pos: nat, parts: seq<string>, count: nat)
    requires InTemplate(src, before, s, begun, pos, parts, count) && pos <= |src.text|
    ensures var e := TemplateTextEnd(src.text, pos);
      InPart(src, before, s, begun, pos, e, MoreParts(src.text, pos, e, parts), MoreHoles(src.text, e, count))
  {
    assert LookTemplate(s, pos, parts, 0);
    PiecesNext(src.text, s.tiles, |before.toks|, pos);
    PartsTold(src.text, pos, parts, count, Pieces(src.text, s.tiles[..|s.tiles|-1], |before.toks|));
  }

  /** What the tokenizer needs to know of a template while reading it. */
  lemma PartFacts(src: Source, before: LexState, s: LexState, begun: int, pos: nat, e: nat, parts: seq<string>,
                  count: nat)
    requires InPart(src, before, s, begun, pos, e, parts, count)
    ensures 0 < pos <= e <= |src.text| && s.tiles != [] && |before.toks| < |s.toks|
    ensures Sound(src, s, if e < |src.text| && src.text[e] == '`' then e + 1 else e + 2)
    ensures s.unread == before.unread + [|before.toks|] && s.braces == before.braces
    ensures s.toks[|before.toks|].line == begun && s.toks[|before.toks|].kind.Template? && Follows(before, s)
  {
    PartMeans(src, before, s, begun, pos, e, parts, count);
    PartStops(src.text, pos);
  }

  lemma LastPartTold(src: Source, before: LexState, s: LexState, begun: int, pos: nat, e: nat, parts: seq<string>,
                     count: nat)
    requires InPart(src, before, s, begun, pos, e, parts, count) && e < |src.text| && src.text[e] == '`'
    ensures (Join(parts), count) == Told(src.text, s.tiles, |before.toks|)
  {
    PartMeans(src, before, s, begun, pos, e, parts, count);
  }

  lemma PartMeans(src: Source, before: LexState, s: LexState, begun: int, pos: nat, e: nat, parts: seq<string>,
                  count: nat)
    requires InPart(src, before, s, begun, pos, e, parts, count)
    ensures Within(src, before, s, begun, pos) && e == TemplateTextEnd(src.text, pos)
    ensures (Join(parts), count) == ToldUpTo(src.text, e, Pieces(src.text, s.tiles, |before.toks|))
  {
    assert LookPart(s, e, parts, 0);
  }

  lemma PartStops(text: string, pos: nat)
    requires pos <= |text|
    ensures var e := TemplateTextEnd(text, pos);
      PartEnd(text, pos) == if e < |text| && text[e] == '`' then e + 1 else e + 2
  {}

  lemma TemplateBegins(src: Source, s: LexState, line: int, start: nat, begun: LexState)
    requires 0 < start <= |src.text| && src.text[start-1] == '`' && Good(src, s, line, start - 1)
    requires begun == Begun(s, line, start - 1, PartEnd(src.text, start))
    ensures InTemplate(src, s, begun, line, start, [], 0) && line == LineAt(src, start)
  {
    TemplateStep(src, s, line, start - 1);
    NothingTold(src, s, start - 1);
    BegunFollows(s, line, start - 1, PartEnd(src.text, start));
    SameLine(src, start - 1);
    assert begun.tiles[..|s.tiles|] == s.tiles;
    assert Within(src, s, begun, line, start);
  }

  lemma TemplateGoesOn(src: Source, before: LexState, s: LexState, r: LexState, begun: int, pos: nat, e: nat,
                       parts: seq<string>, count: nat, next: nat)
    requires InPart(src, before, s, begun, pos, e, parts, count) && s.tiles != []
    requires e < |src.text| ==> src.text[e] != '`'
    requires 0 < next <= |src.text| && src.text[next-1] == '}'
    requires Sound(src, r, next - 1) && Follows(s, r) && r.braces == s.braces && r.unread == s.unread
    ensures InTemplate(src, before, GoneOn(src, s, r, |before.toks|, next), begun, next, parts, count)
  {
    assert LookPart(s, e, parts, 0);
    var at := |before.toks|;
    var q := GoneOn(src, s, r, at, next);
    TemplateKept(src.text, s, r, at);
    assert q.tiles[..|q.tiles|-1] == r.tiles;
    GoneOnWithin(src, before, s, r, begun, pos, next);
  }

  lemma GoneOnWithin(src: Source, before: LexState, s: LexState, r: LexState, begun: int, pos: nat, next: nat)
    requires Within(src, before, s, begun, pos)
    requires 0 < next <= |src.text| && src.text[next-1] == '}'
    requires Sound(src, r, next - 1) && Follows(s, r) && r.braces == s.braces && r.unread == s.unread
    ensures Within(src, before, GoneOn(src, s, r, |before.toks|, next), begun, next)
  {
    var at := |before.toks|;
    assert r.unread[|before.unread|] == at;
    TemplateKept(src.text, s, r, at);
    FollowsTransitive(before, s, r);
    PartStep(src, s, PartEnd(src.text, pos), r, at, next);
    GoneOnFollows(src, before, s, r, at, next);
  }

  lemma GoneOnFollows(src: Source, a: LexState, s: LexState, r: LexState, at: nat, next: nat)
    requires Follows(a, r) && at >= |a.toks| && s.tiles != [] && 0 < next <= |src.text|
    ensures Follows(a, GoneOn(src, s, r, at, next))
  {
    PartFollows(a, r, at, next - 1, PartEnd(src.text, next), Hole(|s.toks|, |r.toks|, |s.tiles| - 1, |r.tiles|));
  }

  lemma PiecesNext(text: string, tiles: seq<Tile>, t: nat, pos: nat)
    requires tiles != [] && tiles[|tiles|-1].tok == t && tiles[|tiles|-1].start + 1 == pos
    ensures Pieces(text, tiles, t) == Pieces(text, tiles[..|tiles|-1], t) + [PieceAt(text, pos)]
  {}

  lemma TemplateUnclosed(src: Source, before: LexState, s: LexState, begun: int, pos: nat, parts: seq<string>,
                         count: nat)
    requires InPart(src, before, s, begun, pos, |src.text|, parts, count)
    ensures Halted(src, s, LineAt(src, |src.text|), begun)
  {
    PartFacts(src, before, s, begun, pos, |src.text|, parts, count);
    assert src.text[..|src.text|] == src.text;
    HaltedAt(src, s, LineAt(src, |src.text|), |src.text| + 2);
  }

  lemma TemplateEnds(src: Source, before: LexState, s: LexState, begun: int, pos: nat, e: nat, parts: seq<string>,
                     count: nat, t: Tok)
    requires e < |src.text| && src.text[e] == '`' && |before.toks| < |s.toks| && s.unread != []
    requires InPart(src, before, s, begun, pos, e, parts, count)
    requires t == Tok(Template, Join(parts), begun, s.toks[|before.toks|].block, count)
    ensures Sound(src, Filled(s, |before.toks|, t), e + 1)
    ensures Follows(before, Filled(s, |before.toks|, t)) && Filled(s, |before.toks|, t).unread == before.unread
  {
    LastPartTold(src, before, s, begun, pos, e, parts, count);
    PartFacts(src, before, s, begun, pos, e, parts, count);
    FilledUnread(before.unread, s, |before.toks|, t);
    FillFollows(before, s, |before.toks|, t);
    FillStep(src, s, |before.toks|, t, e + 1);
  }

  lemma FilledUnread(unread: seq<nat>, s: LexState, at: nat, t: Tok)
    requires s.unread == unread + [at] && at < |s.toks|
    ensures Filled(s, at, t).unread == unread
  {}
}
