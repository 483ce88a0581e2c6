/** What a successful run of the JS tokenizer says of its text, and a failed one
    (scripts/usage_track_scan.py:181-205, 226-329), in terms of the patterns alone. */
module JsMeaning {
  import opened Basics
  import opened JsTokens
  import opened JsPatterns
  import opened JsMatching
  import opened JsReading
  import opened JsLexer

  /** A row of characters and escapes, and the characters it means. */
  ghost predicate Says(raw: string, value: string) {
    exists us: seq<Spelled> :: raw == Spelling(us) && value == Meaning(us) && forall u <- us :: u.Bare? ==> u.c != '\\'
  }

  /** The alternative of the token pattern that gives tokens of that kind. */
  function LexemeOf(kind: Kind): Option<Lexeme> {
    match kind
    case Str => Some(Quoted)
    case Name => Some(Word)
    case Number => Some(Numeral)
    case Op => Some(Operator)
    case Punct => Some(Single)
    case _ => None
  }

  /** `text[pos..e]` is a token of that kind, and says `value`. */
  ghost predicate TokenAt(src: Source, kind: Kind, value: string, pos: nat, e: nat) {
    && pos < e <= |src.text|
    && (if kind.Regex? then IsRegex(src.text, pos, e)
        else LexemeOf(kind).Some? && MatchesFirst(src.cc, src.text, pos, LexemeOf(kind).value, e))
    && (if kind.Str? then pos + 2 <= e && Says(src.text[pos+1..e-1], value) else value == src.text[pos..e])
    && src.text[pos] != '`' && !At(src.text, pos, "/*") && (src.text[pos] in "\"'" ==> kind.Str?)
  }

  /** `text[pos..e]` is white space or a comment. */
  ghost predicate GapAt(src: Source, pos: nat, e: nat) {
    if At(src.text, pos, "/*") then pos + 4 <= e && FirstClose(src.text, pos + 2, e - 2)
    else exists l :: l in {Space, Newline, LineComment} && MatchesFirst(src.cc, src.text, pos, l, e)
  }

  ghost predicate Closes(text: string, from: nat) { exists e: nat :: FirstClose(text, from, e) }

  ghost predicate NeverCloses(text: string, pos: nat) {
    && pos < |text|
    && if At(text, pos, "/*") then !Closes(text, pos + 2)
       else text[pos] in "\"'" && forall e: nat :: !StringAt(text, pos, e)
  }

  /** A slash that opens no comment, and a regex literal there. */
  ghost predicate RegexHere(text: string, pos: nat) {
    pos < |text| && text[pos] == '/' && !At(text, pos, "//") && !At(text, pos, "/*")
    && exists e: nat :: IsRegex(text, pos, e)
  }

  lemma StringMeans(text: string, pos: nat, e: nat)
    requires StringAt(text, pos, e)
    ensures Says(text[pos+1..e-1], Unescape(text[pos+1..e-1]))
  {
    var us := BodiesMeanTheirCharacters(StringBody(text[pos]), text, pos + 1, e - 1);
  }

  lemma QuotedMeans(src: Source, pos: nat, e: nat)
    requires pos + 2 <= e <= |src.text|
    requires MatchesFirst(src.cc, src.text, pos, Quoted, e) && !At(src.text, pos, "/*") && src.text[pos] != '`'
    ensures TokenAt(src, Str, Unescape(src.text[pos+1..e-1]), pos, e)
  {
    MatchesFirstMeans(src.cc, src.text, pos, Quoted, e);
    StringMeans(src.text, pos, e);
  }

  /** No quote is read but as the start of a string, or as white space if that is what the classes say. */
  lemma QuotesStartStrings(src: Source, pos: nat, l: Lexeme, e: nat, f: nat)
    requires MatchesFirst(src.cc, src.text, pos, l, e) && StringAt(src.text, pos, f)
    ensures l in {Space, Newline, LineComment, Quoted}
  {
    MatchesFirstMeans(src.cc, src.text, pos, l, e);
    assert Matches(src.cc, Quoted, src.text, pos, f);
  }

  lemma WholeMeans(src: Source, pos: nat, kind: Kind, l: Lexeme, e: nat)
    requires pos < e <= |src.text|
    requires MatchesFirst(src.cc, src.text, pos, l, e) && !At(src.text, pos, "/*") && src.text[pos] != '`'
    requires l in {Word, Numeral, Operator, Single} && LexemeOf(kind) == Some(l) && src.text[pos] !in "\"'"
    ensures TokenAt(src, kind, src.text[pos..e], pos, e)
  {
    MatchesFirstMeans(src.cc, src.text, pos, l, e);
  }

  lemma PlainMeans(src: Source, pos: nat)
    requires pos < |src.text| && !At(src.text, pos, "/*") && src.text[pos] != '`'
    requires src.text[pos] in "\"'" ==> StringEnd(src.text, pos).Some?
    ensures match Plain(src, pos)
      case Gap(e) => GapAt(src, pos, e)
      case Whole(kind, value, e) => !kind.Regex? && TokenAt(src, kind, value, pos, e)
      case _ => true
  {
    var m := Scan(src.cc, src.text, pos);
    ScanIsThePattern(src.cc, src.text, pos, m.lexeme, m.end);
    if src.text[pos] in "\"'" {
      StringsEndThere(src.text, pos);
      QuotesStartStrings(src, pos, m.lexeme, m.end, StringEnd(src.text, pos).value);
    }
    match m.lexeme
    case Quoted =>
      QuotedMeans(src, pos, m.end);
      WithoutEnds(src.text, pos, m.end);
    case Word => WholeMeans(src, pos, Name, Word, m.end);
    case Numeral => WholeMeans(src, pos, Number, Numeral, m.end);
    case Operator => WholeMeans(src, pos, Op, Operator, m.end);
    case Single => WholeMeans(src, pos, Punct, Single, m.end);
    case _ =>
  }

  lemma ReadingMeans(src: Source, regex: bool, pos: nat)
    requires pos < |src.text|
    ensures match ReadAt(src, regex, pos)
      case Gap(e) => GapAt(src, pos, e)
      case Whole(kind, value, e) =>
        TokenAt(src, kind, value, pos, e) && (kind.Regex? <==> regex && RegexHere(src.text, pos))
      case Backtick => src.text[pos] == '`'
      case Stuck => NeverCloses(src.text, pos)
  {
    var text := src.text;
    SlashStar(text, pos);
    CommentsEndThere(text, pos + 2);
    if text[pos] in "\"'" { StringsEndThere(text, pos); }
    if text[pos] == '/' { RegexesEndThere(text, pos); }
    if text[pos] != '`' && !At(text, pos, "/*") && (text[pos] in "\"'" ==> StringEnd(text, pos).Some?) {
      PlainMeans(src, pos);
    }
  }

  lemma SlashStar(text: string, pos: nat)
    requires pos < |text|
    ensures At(text, pos, "/*") ==> text[pos] == '/' && text[pos+1] == '*'
    ensures At(text, pos, "//") ==> text[pos] == '/' && text[pos+1] == '/'
  {
    assert pos + 2 <= |text| ==> text[pos..pos+2] == [text[pos], text[pos+1]];
  }

  // ------------------------------------------------------------ whole runs

  /** After such a token a slash divides. */
  predicate IsOperand(t: Tok) {
    || t.kind.Str? || t.kind.Template? || t.kind.Number? || t.kind.Regex?
    || (t.kind.Name? && t.text !in REGEX_WORDS)
    || ((t.kind.Op? || t.kind.Punct?) && t.text in {")", "]", "++", "--"})
  }

  /** The first `n` tokens leave the lexer where a regex literal may stand. */
  predicate RegexMayStand(toks: seq<Tok>, n: nat)
    requires n <= |toks|
  {
    n == 0 || !IsOperand(toks[n-1])
  }

  lemma RegexesStandThere(toks: seq<Tok>, n: nat)
    requires n <= |toks|
    ensures RegexAllowed(toks[..n]) <==> RegexMayStand(toks, n)
  {}

  lemma {:induction false} ChainEnds(tiles: seq<Tile>, k: nat, pos: nat)
    requires Chain(tiles, pos) && k < |tiles|
    ensures tiles[k].start < tiles[k].end <= pos
    decreases |tiles| - k
  {
    if k + 1 < |tiles| { ChainEnds(tiles, k + 1, pos); }
  }

  /** A part of a template: its sign, all the units after it, and the backtick or `${` that ends it. */
  ghost predicate PartAt(text: string, sign: char, pos: nat, e: nat) {
    && pos < e <= |text| && text[pos] == sign
    && if text[e-1] == '`' && pos + 1 < e then TemplateTextAt(text, pos + 1, e - 1)
       else pos + 2 < e && text[e-2] == '$' && text[e-1] == '{' && TemplateTextAt(text, pos + 1, e - 2)
  }

  lemma PartEndsThere(text: string, sign: char, pos: nat)
    requires pos < |text| && text[pos] == sign && PartEnd(text, pos + 1) <= |text|
    ensures PartAt(text, sign, pos, PartEnd(text, pos + 1))
  {
    TemplateTextsEndThere(text, pos + 1);
  }

  /** Tile `k` of a read text is written there: a gap, a token of its kind, or a part of a template. */
  ghost predicate WrittenAt(src: Source, s: LexState, k: nat)
    requires k < |s.tiles| && s.tiles[k].tok < |s.toks| == |s.first|
  {
    var p := s.tiles[k];
    if p.tok < 0 then GapAt(src, p.start, p.end)
    else
      var t := s.toks[p.tok];
      if t.kind.Template? then PartAt(src.text, if k == s.first[p.tok] then '`' else '}', p.start, p.end)
      else
        && k == s.first[p.tok] && TokenAt(src, t.kind, t.text, p.start, p.end)
        && (t.kind.Regex? <==> RegexMayStand(s.toks, p.tok) && RegexHere(src.text, p.start))
  }

  /** On success every stretch of the text is read by its patterns: tokens with the text they say, a regex
      literal exactly where no operand comes before and one matches, and gaps that are white space or comments. */
  lemma TokensAreAsWritten(src: Source, s: LexState, k: nat)
    requires Done(src, s) && k < |s.tiles|
    ensures s.tiles[k].tok < |s.toks| == |s.first| && WrittenAt(src, s, k)
  {
    SoundMeans(src, s, |src.text|);
    ChainEnds(s.tiles, k, |src.text|);
    TileIsWritten(src, s, k);
  }

  lemma TileIsWritten(src: Source, s: LexState, k: nat)
    requires Firsts(s) && AllExplained(src, s) && k < |s.tiles| && s.tiles[k].end <= |src.text|
    ensures WrittenAt(src, s, k)
  {
    var p := s.tiles[k];
    assert Explained(src, s, k);
    if p.tok < 0 {
      ReadingMeans(src, false, p.start);
    } else if s.toks[p.tok].kind.Template? {
      PartEndsThere(src.text, src.text[p.start], p.start);
    } else {
      RegexesStandThere(s.toks, p.tok);
      ReadingMeans(src, RegexAllowed(s.toks[..p.tok]), p.start);
    }
  }

  /** What a template part means is the characters of all the units after its sign. */
  lemma PiecesSay(text: string, start: nat)
    requires start <= |text|
    ensures var e := TemplateTextEnd(text, start);
      TemplateTextAt(text, start, e) && Says(text[start..e], PieceAt(text, start))
  {
    var e := TemplateTextEnd(text, start);
    TemplateFound(text, start);
    var us := BodiesMeanTheirCharacters(TemplateBody, text, start, e);
  }

  /** A template token tells its parts in order with `${}` between any two, and one hole fewer than parts. */
  lemma TemplatesTellTheirParts(src: Source, s: LexState, i: nat)
    requires Done(src, s) && i < |s.toks| && s.toks[i].kind.Template?
    ensures var pieces := Pieces(src.text, s.tiles, i);
      && pieces != [] && s.toks[i].holes == |pieces| - 1 && s.toks[i].text == Interleaved(pieces, "${}")
  {
    SoundMeans(src, s, |src.text|);
    LinesAreTrue(src, s, i);
    SomePiece(src.text, s.tiles, i, s.first[i]);
    JoinedIsInterleaved(Pieces(src.text, s.tiles, i));
  }

  lemma {:induction false} SomePiece(text: string, tiles: seq<Tile>, t: nat, k: nat)
    requires k < |tiles| && tiles[k].tok == t
    ensures Pieces(text, tiles, t) != []
  {
    if k < |tiles| - 1 { SomePiece(text, tiles[..|tiles|-1], t, k); }
  }

  /** The strings with `sep` between any two. */
  function Interleaved(pieces: seq<string>, sep: string): string {
    if pieces == [] then "" else if |pieces| == 1 then pieces[0] else pieces[0] + sep + Interleaved(pieces[1..], sep)
  }

  lemma {:induction false} HolesAfterAll(pieces: seq<string>, last: string)
    ensures WithHoles(pieces).0 + last == Interleaved(pieces + [last], "${}") && WithHoles(pieces).1 == |pieces|
    decreases |pieces|
  {
    if pieces != [] {
      var init, x := pieces[..|pieces|-1], pieces[|pieces|-1];
      HolesAfterAll(init, x);
      InterleavedSnoc(pieces, last, "${}");
      assert init + [x] == pieces;
      assert WithHoles(pieces).0 + last == WithHoles(init).0 + x + ("${}" + last);
    }
  }

  lemma {:induction false} InterleavedSnoc(pieces: seq<string>, last: string, sep: string)
    requires pieces != []
    ensures Interleaved(pieces + [last], sep) == Interleaved(pieces, sep) + (sep + last)
  {
    if |pieces| > 1 {
      InterleavedSnoc(pieces[1..], last, sep);
      assert (pieces + [last])[1..] == pieces[1..] + [last];
    } else {
      assert (pieces + [last])[1..] == [last];
    }
  }

  lemma JoinedIsInterleaved(pieces: seq<string>)
    requires pieces != []
    ensures Joined(pieces) == (Interleaved(pieces, "${}"), |pieces| - 1)
  {
    var init, last := pieces[..|pieces|-1], pieces[|pieces|-1];
    HolesAfterAll(init, last);
    LastOfPieces(pieces);
  }

  lemma LastOfPieces(pieces: seq<string>)
    requires pieces != []
    ensures pieces[..|pieces|-1] + [pieces[|pieces|-1]] == pieces
  {}

  /** Each token's line is the source's first plus the newline characters before it. */
  lemma LinesCountNewlines(src: Source, s: LexState, i: nat)
    requires Done(src, s) && i < |s.toks|
    ensures |s.first| == |s.toks| && s.first[i] < |s.tiles| && s.tiles[s.first[i]].start < |src.text|
    ensures s.toks[i].line == src.line + |NewlinesIn(src.text[..s.tiles[s.first[i]].start])|
  {
    LinesAreTrue(src, s, i);
    NewlinesAreCounted(src.text[..s.tiles[s.first[i]].start]);
  }

  /** Where the lexer gives up, what it stands at never closes by any reading of its pattern, a closing brace
      has no opening one, or the text ends with a template or a brace still open. */
  lemma FailuresAreReal(src: Source, s: LexState, line: int, blamed: int) returns (pos: nat)
    requires Halted(src, s, line, blamed)
    ensures Good(src, s, line, pos)
    ensures if pos >= |src.text| then s.unread != [] || s.braces != []
      else NeverCloses(src.text, pos) || (src.text[pos] == '}' && s.braces == [] && s.unread == [])
    ensures pos < |src.text| ==> blamed == src.line + |NewlinesIn(src.text[..pos])|
    ensures pos >= |src.text| && s.unread == [] ==>
      s.braces[|s.braces|-1] < |s.toks| && blamed == s.toks[s.braces[|s.braces|-1]].line
  {
    HaltedMeans(src, s, line, blamed);
    pos :| Good(src, s, line, pos) && Blocked(src, s, pos) && blamed == Blamed(src, s, pos);
    if pos < |src.text| {
      ReadingMeans(src, RegexAllowed(s.toks), pos);
      NewlinesAreCounted(src.text[..pos]);
    } else if s.unread == [] {
      OpenBracesExist(src, s, pos);
    }
  }

  lemma HaltedMeans(src: Source, s: LexState, line: int, blamed: int)
    requires Halted(src, s, line, blamed)
    ensures HaltedSomewhere(src, s, line, blamed)
  {
    assert LookHalted(s, blamed, 0);
  }
}
