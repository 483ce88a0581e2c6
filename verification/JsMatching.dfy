/** The brace matching of the JS tokenizer (scripts/usage_track_scan.py:208-224, 284-293, 317-321).

    What is proved of the matching: it is one to one and well-nested, respects the boundaries of
    template holes, and each token's block is the innermost pair around it. Here, that every way a
    token can be added keeps this. */
module JsMatching {

  datatype Kind = Name | Str | Template | Number | Regex | Op | Punct

  datatype Tok = Tok(kind: Kind, text: string, line: int, block: int, holes: nat)

  predicate IsOpen(t: Tok) { t.kind.Punct? && t.text == "{" }

  predicate IsClose(t: Tok) { t.kind.Punct? && t.text == "}" }

  /** A stretch of the text: a token's, a part of a template's, or (`tok` < 0) a gap between tokens. */
  datatype Tile = Tile(start: nat, end: nat, tok: int)

  /** One finished template hole: its tokens, and the tiles of the template before and after it. */
  datatype Hole = Hole(from: nat, to: nat, before: nat, after: nat)

  /** What the lexer has built; `first` is each token's first tile, `unread` the templates not yet closed. */
  datatype LexState = LexState(toks: seq<Tok>, braces: seq<nat>, closes: map<nat, nat>,
                     tiles: seq<Tile>, first: seq<nat>, holes: seq<Hole>, unread: seq<nat>)

  const NOTHING: LexState := LexState([], [], map[], [], [], [], [])

  // ------------------------------------------------------------ the matching

  /** Open braces are the unmatched `{` tokens, innermost last. */
  ghost predicate OpenBraces(s: LexState) {
    && (forall k :: 0 <= k < |s.braces| ==>
          s.braces[k] < |s.toks| && IsOpen(s.toks[s.braces[k]]) && s.braces[k] !in s.closes)
    && (forall j, k :: 0 <= j < k < |s.braces| ==> s.braces[j] < s.braces[k])
    && (forall i :: 0 <= i < |s.toks| && IsOpen(s.toks[i]) ==> i in s.closes || i in s.braces)
  }

  /** `closes` pairs `{` tokens with all the `}` tokens, one to one. */
  ghost predicate Pairing(s: LexState) {
    && (forall i <- s.closes :: i < s.closes[i] < |s.toks| && IsOpen(s.toks[i]) && IsClose(s.toks[s.closes[i]]))
    && (forall i, j :: i in s.closes && j in s.closes && s.closes[i] == s.closes[j] ==> i == j)
    && (forall j :: 0 <= j < |s.toks| && IsClose(s.toks[j]) ==> Closing(s.closes, j))
  }

  ghost predicate Closing(closes: map<nat, nat>, j: nat) { exists i <- closes :: closes[i] == j }

  /** Pairs do not cross, and no brace still open lies inside one. */
  ghost predicate Nested(s: LexState) {
    && (forall i, j :: i in s.closes && j in s.closes && i < j < s.closes[i] ==> s.closes[j] < s.closes[i])
    && (forall i, b :: i in s.closes && b in s.braces ==> !(i < b < s.closes[i]))
  }

  /** The `{` token `i` is before token `t` and not closed before it. */
  ghost predicate Encloses(s: LexState, i: int, t: nat) {
    0 <= i < |s.toks| && i < t && IsOpen(s.toks[i]) && (i in s.closes ==> t < s.closes[i])
  }

  /** The block of token `t` is its innermost enclosing `{`, or -1 when there is none. */
  ghost predicate BlockOk(s: LexState, t: nat)
    requires t < |s.toks|
  {
    var b := s.toks[t].block;
    (b == -1 || Encloses(s, b, t)) && forall i :: Encloses(s, i, t) ==> i <= b
  }

  ghost predicate Blocks(s: LexState) { forall t :: 0 <= t < |s.toks| ==> BlockOk(s, t) }

  predicate InHole(h: Hole, i: int) { h.from <= i < h.to }

  /** No pair crosses the boundary of the hole, and nothing in it is still open. */
  ghost predicate Sealed(closes: map<nat, nat>, braces: seq<nat>, h: Hole) {
    && (forall i <- closes :: InHole(h, i) <==> InHole(h, closes[i]))
    && (forall b <- braces :: !InHole(h, b))
  }

  ghost predicate HolesOk(s: LexState) { forall h <- s.holes :: h.to <= |s.toks| && Sealed(s.closes, s.braces, h) }

  ghost predicate Matched(s: LexState) { OpenBraces(s) && Pairing(s) && Nested(s) && Blocks(s) && HolesOk(s) }

  function Block(braces: seq<nat>): int { if braces == [] then -1 else braces[|braces|-1] }

  // -------------------------------------------------- how the matching grows

  function WithTok(s: LexState, t: Tok): LexState { s.(toks := s.toks + [t]) }

  /** Earlier tokens see the same pairs around them as before. */
  lemma EnclosesSame(s: LexState, r: LexState, i: int, t: nat)
    requires t < |s.toks| && s.toks <= r.toks
    requires forall k <- s.closes :: k in r.closes && r.closes[k] == s.closes[k]
    requires forall k <- r.closes :: k in s.closes || r.closes[k] >= |s.toks|
    ensures Encloses(s, i, t) <==> Encloses(r, i, t)
  {}

  lemma BlocksSame(s: LexState, r: LexState, t: nat)
    requires t < |s.toks| && BlockOk(s, t) && s.toks <= r.toks
    requires forall k <- s.closes :: k in r.closes && r.closes[k] == s.closes[k]
    requires forall k <- r.closes :: k in s.closes || r.closes[k] >= |s.toks|
    ensures BlockOk(r, t)
  {
    forall i ensures Encloses(s, i, t) <==> Encloses(r, i, t) {
      EnclosesSame(s, r, i, t);
    }
  }

  lemma BlockIsLast(s: LexState, braces: seq<nat>)
    requires OpenBraces(s) && braces <= s.braces
    ensures forall i <- braces :: i <= Block(braces)
    ensures braces != [] ==> Block(braces) in braces
  {
    forall i | i in braces ensures i <= Block(braces) {
      var k :| 0 <= k < |braces| && braces[k] == i;
      assert s.braces[k] == i && s.braces[|braces|-1] == Block(braces);
    }
  }

  /** The next token's enclosing braces are exactly those still open, the innermost being the last. */
  lemma NextBlock(s: LexState, r: LexState)
    requires OpenBraces(s) && Pairing(s) && |r.toks| == |s.toks| + 1 && r.toks[..|s.toks|] == s.toks
    requires r.closes == s.closes && r.toks[|s.toks|].block == Block(s.braces)
    ensures BlockOk(r, |s.toks|)
  {
    var n := |s.toks|;
    forall i ensures Encloses(r, i, n) <==> i in s.braces {
      if Encloses(r, i, n) { assert s.toks[i] == r.toks[i]; }
      if i in s.braces { assert s.toks[i] == r.toks[i]; }
    }
    BlockIsLast(s, s.braces);
  }

  lemma PlainPairs(s: LexState, t: Tok)
    requires OpenBraces(s) && Pairing(s) && !IsOpen(t) && !IsClose(t)
    ensures OpenBraces(WithTok(s, t)) && Pairing(WithTok(s, t))
  {
    var r := WithTok(s, t);
    forall j | 0 <= j < |r.toks|
      ensures IsOpen(r.toks[j]) || IsClose(r.toks[j]) ==> j < |s.toks| && r.toks[j] == s.toks[j]
    {}
  }

  lemma PlainOk(s: LexState, t: Tok)
    requires Matched(s) && !IsOpen(t) && !IsClose(t) && t.block == Block(s.braces)
    ensures Matched(WithTok(s, t))
  {
    PlainPairs(s, t);
    NextBlock(s, WithTok(s, t));
    forall k | 0 <= k < |s.toks| + 1 ensures BlockOk(WithTok(s, t), k) {
      if k < |s.toks| { BlocksSame(s, WithTok(s, t), k); }
    }
  }

  function Opened(s: LexState, t: Tok): LexState { WithTok(s, t).(braces := s.braces + [|s.toks|]) }

  lemma OpenedPairing(s: LexState, t: Tok)
    requires Pairing(s) && IsOpen(t)
    ensures Pairing(Opened(s, t))
  {
    var r := Opened(s, t);
    forall j | 0 <= j < |r.toks| && IsClose(r.toks[j]) ensures Closing(r.closes, j) {
      assert s.toks[j] == r.toks[j];
    }
  }

  lemma OpenedNested(s: LexState, t: Tok)
    requires Pairing(s) && Nested(s)
    ensures Nested(Opened(s, t))
  {
    var r := Opened(s, t);
    forall i, b | i in r.closes && b in r.braces ensures !(i < b < r.closes[i]) {
      assert b in s.braces || b == |s.toks|;
    }
  }

  lemma OpenedHoles(s: LexState, t: Tok)
    requires HolesOk(s)
    ensures HolesOk(Opened(s, t))
  {
    var r := Opened(s, t);
    forall h <- r.holes ensures Sealed(r.closes, r.braces, h) {
      forall b <- r.braces ensures !InHole(h, b) {
        assert b in s.braces || b == |s.toks|;
      }
    }
  }

  lemma OpenedBraces(s: LexState, t: Tok)
    requires OpenBraces(s) && Pairing(s) && IsOpen(t)
    ensures OpenBraces(Opened(s, t))
  {
    var r := Opened(s, t);
    assert r.braces[|s.braces|] == |s.toks|;
    forall i | 0 <= i < |r.toks| && IsOpen(r.toks[i]) ensures i in r.closes || i in r.braces {
      if i < |s.toks| { assert i in s.closes || i in s.braces; }
    }
  }

  lemma OpenOk(s: LexState, t: Tok)
    requires Matched(s) && IsOpen(t) && t.block == Block(s.braces)
    ensures Matched(Opened(s, t))
  {
    OpenedPairing(s, t);
    OpenedNested(s, t);
    OpenedHoles(s, t);
    OpenedBraces(s, t);
    NextBlock(s, Opened(s, t));
    forall k | 0 <= k < |s.toks| + 1 ensures BlockOk(Opened(s, t), k) {
      if k < |s.toks| { BlocksSame(s, Opened(s, t), k); }
    }
  }

  function Closed(s: LexState, t: Tok): LexState
    requires s.braces != []
  {
    WithTok(s, t).(braces := s.braces[..|s.braces|-1], closes := s.closes[s.braces[|s.braces|-1] := |s.toks|])
  }

  lemma ClosedBraces(s: LexState, t: Tok)
    requires OpenBraces(s) && s.braces != [] && IsClose(t)
    ensures OpenBraces(Closed(s, t))
  {
    var r := Closed(s, t);
    var b := s.braces[|s.braces|-1];
    assert s.braces == r.braces + [b];
    forall i | 0 <= i < |r.toks| && IsOpen(r.toks[i]) ensures i in r.closes || i in r.braces {
      assert i < |s.toks| && IsOpen(s.toks[i]);
    }
  }

  lemma LastBrace(s: LexState)
    requires OpenBraces(s) && s.braces != []
    ensures var b := s.braces[|s.braces|-1];
      && b in s.braces && b < |s.toks| && IsOpen(s.toks[b]) && b !in s.closes
      && forall x :: x in s.braces[..|s.braces|-1] <==> x in s.braces && x < b
  {
    var b, rest := s.braces[|s.braces|-1], s.braces[..|s.braces|-1];
    assert s.braces == rest + [b];
    forall x | x in rest ensures x < b {
      var k :| 0 <= k < |rest| && rest[k] == x;
      assert s.braces[k] == x;
    }
  }

  lemma ClosedPairing(s: LexState, t: Tok)
    requires OpenBraces(s) && Pairing(s) && s.braces != [] && IsClose(t)
    ensures Pairing(Closed(s, t))
  {
    LastBrace(s);
    var r, n := Closed(s, t), |s.toks|;
    var b := s.braces[|s.braces|-1];
    forall i <- r.closes ensures i < r.closes[i] < n + 1 && IsOpen(r.toks[i]) && IsClose(r.toks[r.closes[i]]) {
      if i != b { assert i in s.closes; }
    }
    forall i, j | i in r.closes && j in r.closes && r.closes[i] == r.closes[j] ensures i == j {
      if i != b { assert i in s.closes && s.closes[i] < n; }
      if j != b { assert j in s.closes && s.closes[j] < n; }
    }
    ClosedClosing(s, t);
  }

  lemma ClosedClosing(s: LexState, t: Tok)
    requires OpenBraces(s) && Pairing(s) && s.braces != []
    ensures forall j :: 0 <= j <= |s.toks| && IsClose(Closed(s, t).toks[j]) ==> Closing(Closed(s, t).closes, j)
  {
    LastBrace(s);
    var r, n := Closed(s, t), |s.toks|;
    var b := s.braces[|s.braces|-1];
    assert b in r.closes && r.closes[b] == n;
    forall j | 0 <= j < n && IsClose(s.toks[j]) ensures Closing(r.closes, j) {
      assert Closing(s.closes, j);
      var i :| i in s.closes && s.closes[i] == j;
      assert i in r.closes && r.closes[i] == j;
    }
  }

  lemma ClosedNested(s: LexState, t: Tok)
    requires OpenBraces(s) && Pairing(s) && Nested(s) && s.braces != []
    ensures Nested(Closed(s, t))
  {
    LastBrace(s);
    var r := Closed(s, t);
    var b := s.braces[|s.braces|-1];
    forall i, j | i in r.closes && j in r.closes && i < j < r.closes[i] ensures r.closes[j] < r.closes[i] {
      ClosedPairNested(s, t, i, j);
    }
    forall i, x | i in r.closes && x in r.braces ensures !(i < x < r.closes[i]) {
      assert x in s.braces && x < b;
    }
  }

  lemma ClosedPairNested(s: LexState, t: Tok, i: nat, j: nat)
    requires OpenBraces(s) && Pairing(s) && Nested(s) && s.braces != []
    requires var closes := Closed(s, t).closes; i in closes && j in closes && i < j < closes[i]
    ensures Closed(s, t).closes[j] < Closed(s, t).closes[i]
  {
    LastBrace(s);
    var b := s.braces[|s.braces|-1];
    if i != b && j != b { assert i in s.closes && j in s.closes; }
  }

  lemma ClosedHoles(s: LexState, t: Tok)
    requires OpenBraces(s) && HolesOk(s) && s.braces != []
    ensures HolesOk(Closed(s, t))
  {
    LastBrace(s);
    var r := Closed(s, t);
    var b := s.braces[|s.braces|-1];
    forall h <- r.holes ensures Sealed(r.closes, r.braces, h) {
      assert Sealed(s.closes, s.braces, h);
      forall i <- r.closes ensures InHole(h, i) <==> InHole(h, r.closes[i]) {
        if i != b { assert i in s.closes; }
      }
    }
  }

  /** A `}` sits outside the pair it closes: its block is the brace below. */
  lemma ClosedBlock(s: LexState, t: Tok)
    requires OpenBraces(s) && Pairing(s) && s.braces != [] && IsClose(t)
    requires t.block == Block(s.braces[..|s.braces|-1])
    ensures BlockOk(Closed(s, t), |s.toks|)
  {
    LastBrace(s);
    var r, n := Closed(s, t), |s.toks|;
    forall i ensures Encloses(r, i, n) <==> i in r.braces {
      if Encloses(r, i, n) { assert s.toks[i] == r.toks[i]; }
      if i in r.braces { assert s.toks[i] == r.toks[i]; }
    }
    BlockIsLast(s, r.braces);
  }

  lemma {:induction false} CloseOk(s: LexState, t: Tok)
    requires Matched(s) && IsClose(t) && s.braces != [] && t.block == Block(s.braces[..|s.braces|-1])
    ensures Matched(Closed(s, t))
  {
    ClosedBraces(s, t);
    ClosedPairing(s, t);
    ClosedNested(s, t);
    ClosedHoles(s, t);
    ClosedBlock(s, t);
    forall k | 0 <= k < |s.toks| + 1 ensures BlockOk(Closed(s, t), k) {
      if k < |s.toks| { BlocksSame(s, Closed(s, t), k); }
    }
  }

  /** Nothing before `s` is touched on the way to `r`, and what `r` closes was opened since. */
  ghost predicate Extends(s: LexState, r: LexState) {
    && s.toks <= r.toks && s.braces <= r.braces && s.tiles <= r.tiles && s.first <= r.first && s.holes <= r.holes
    && (forall i <- s.closes :: i in r.closes && r.closes[i] == s.closes[i])
    && (forall i <- r.closes :: i in s.closes || i >= |s.toks|)
    && (forall k :: |s.braces| <= k < |r.braces| ==> r.braces[k] >= |s.toks|)
    && (forall k :: |s.tiles| <= k < |r.tiles| ==> r.tiles[k].tok < 0 || r.tiles[k].tok >= |s.toks|)
    && (forall k :: |s.first| <= k < |r.first| ==> r.first[k] >= |s.tiles|)
  }

  lemma ExtendsTransitive(a: LexState, b: LexState, c: LexState)
    requires Extends(a, b) && Extends(b, c)
    ensures Extends(a, c)
  {}

  lemma ClosedExtends(a: LexState, s: LexState, t: Tok)
    requires Extends(a, s) && |s.braces| > |a.braces| && OpenBraces(s)
    ensures Extends(a, Closed(s, t))
  {
    var b := s.braces[|s.braces|-1];
    assert b !in s.closes && b >= |a.toks|;
  }

  /** The code of a template hole closes what it opens and nothing else. */
  lemma {:induction false} HoleSealed(s: LexState, r: LexState, h: Hole)
    requires OpenBraces(s) && Pairing(s) && Pairing(r) && Extends(s, r) && r.braces == s.braces
    requires h.from == |s.toks| && h.to == |r.toks|
    ensures Sealed(r.closes, r.braces, h)
  {
    forall i <- r.closes ensures InHole(h, i) <==> InHole(h, r.closes[i]) {
      if i in s.closes { assert r.closes[i] == s.closes[i]; }
    }
    forall b <- r.braces ensures !InHole(h, b) {
      assert b in s.braces;
    }
  }

  function WithHole(s: LexState, h: Hole): LexState { s.(holes := s.holes + [h]) }

  lemma HoleOk(s: LexState, h: Hole)
    requires Matched(s) && h.to <= |s.toks| && Sealed(s.closes, s.braces, h)
    ensures Matched(WithHole(s, h))
  {
    var r := WithHole(s, h);
    forall g <- r.holes ensures g.to <= |r.toks| && Sealed(r.closes, r.braces, g) {
      assert g in s.holes || g == h;
    }
    forall k | 0 <= k < |r.toks| ensures BlockOk(r, k) { BlocksSame(s, r, k); }
  }

  function Patched(s: LexState, at: nat, t: Tok): LexState
    requires at < |s.toks|
  {
    s.(toks := s.toks[at := t])
  }

  /** Filling in a token that is no brace moves no brace. */
  lemma PatchOk(s: LexState, at: nat, t: Tok)
    requires Matched(s) && at < |s.toks| && t.kind.Template? && s.toks[at].kind.Template? && t.block == s.toks[at].block
    ensures Matched(Patched(s, at, t))
  {
    var r := Patched(s, at, t);
    assert forall i :: 0 <= i < |s.toks| ==> (IsOpen(r.toks[i]) <==> IsOpen(s.toks[i]));
    assert forall i :: 0 <= i < |s.toks| ==> (IsClose(r.toks[i]) <==> IsClose(s.toks[i]));
    forall k | 0 <= k < |r.toks| ensures BlockOk(r, k) {
      assert BlockOk(s, k);
      forall i ensures Encloses(s, i, k) <==> Encloses(r, i, k) {}
    }
  }
}
