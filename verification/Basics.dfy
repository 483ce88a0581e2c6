/** Small shared vocabulary: options, decimal numerals, text and sequences. */
module Basics {

  datatype Option<+T> = None | Some(value: T)

  predicate IsDigit(c: char) { '0' <= c <= '9' }

  predicate AllDigits(s: string) { forall c <- s :: IsDigit(c) }

  /** The decimal numeral of a number, without leading zeros. */
  function Decimal(n: nat): (s: string)
    ensures s != "" && AllDigits(s)
  {
    if n < 10 then ['0' + n as char] else Decimal(n / 10) + ['0' + (n % 10) as char]
  }

  /** The number a string of digits stands for; leading zeros are allowed. */
  function Value(s: string): nat
    requires AllDigits(s)
  {
    if s == "" then 0 else assert IsDigit(s[|s|-1]); Value(s[..|s|-1]) * 10 + (s[|s|-1] - '0') as nat
  }

  lemma {:induction false} DecimalRoundTrip(n: nat)
    ensures Value(Decimal(n)) == n
  {
    if n >= 10 {
      DecimalRoundTrip(n / 10);
      var s := Decimal(n);
      assert s[..|s|-1] == Decimal(n / 10);
    }
  }

  // ------------------------------------------------------------------- text

  /** What `str.strip` and `str.split` take for whitespace. */
  predicate IsSpace(c: char) {
    || '\U{0009}' <= c <= '\U{000D}' || '\U{001C}' <= c <= '\U{0020}' || '\U{2000}' <= c <= '\U{200A}'
    || c in {'\U{0085}', '\U{00A0}', '\U{1680}', '\U{2028}', '\U{2029}', '\U{202F}', '\U{205F}', '\U{3000}'}
  }

  function Strip(s: string): string
    decreases |s|
  {
    if s == "" then s
    else if IsSpace(s[0]) then Strip(s[1..])
    else if IsSpace(s[|s|-1]) then Strip(s[..|s|-1])
    else s
  }

  /** Lower-casing as far as ASCII is concerned. */
  function Lower(s: string): string {
    if s == "" then "" else [if 'A' <= s[0] <= 'Z' then s[0] - 'A' + 'a' else s[0]] + Lower(s[1..])
  }

  /** `p` holds outside `s[a..b]`, and not at its ends. */
  ghost predicate Core(s: string, a: nat, b: nat, p: char -> bool) {
    && a <= b <= |s| && (forall k :: 0 <= k < |s| && !(a <= k < b) ==> p(s[k]))
    && (a < b ==> !p(s[a]) && !p(s[b-1]))
  }

  lemma CoreOfTail(s: string, a: nat, b: nat, p: char -> bool)
    requires s != "" && p(s[0]) && Core(s[1..], a, b, p)
    ensures Core(s, a + 1, b + 1, p) && s[1..][a..b] == s[a+1..b+1]
  {
    forall k | 0 <= k < |s| && !(a + 1 <= k < b + 1) ensures p(s[k]) {
      if k > 0 { assert s[k] == s[1..][k-1]; }
    }
  }

  lemma CoreOfInit(s: string, a: nat, b: nat, p: char -> bool)
    requires s != "" && p(s[|s|-1]) && Core(s[..|s|-1], a, b, p)
    ensures Core(s, a, b, p) && s[..|s|-1][a..b] == s[a..b]
  {
    forall k | 0 <= k < |s| && !(a <= k < b) ensures p(s[k]) {
      if k < |s| - 1 { assert s[k] == s[..|s|-1][k]; }
    }
  }

  /** Stripping takes away white space at both ends and nothing else. */
  lemma {:induction false} StripMeans(s: string) returns (a: nat, b: nat)
    ensures Core(s, a, b, IsSpace) && Strip(s) == s[a..b]
    decreases |s|
  {
    a, b := 0, |s|;
    if s != "" && IsSpace(s[0]) {
      a, b := StripMeans(s[1..]);
      CoreOfTail(s, a, b, IsSpace);
      a, b := a + 1, b + 1;
    } else if s != "" && IsSpace(s[|s|-1]) {
      a, b := StripMeans(s[..|s|-1]);
      CoreOfInit(s, a, b, IsSpace);
    }
  }

  lemma {:induction false} LowerMeans(s: string)
    ensures |Lower(s)| == |s|
    ensures forall i :: 0 <= i < |s| ==> Lower(s)[i] == if 'A' <= s[i] <= 'Z' then s[i] - 'A' + 'a' else s[i]
  {
    if s != "" { LowerMeans(s[1..]); }
  }

  // -------------------------------------------------------------- sequences

  lemma InEither<T>(a: seq<T>, b: seq<T>, x: T)
    ensures x in a + b <==> x in a || x in b
  {}

  lemma InPrefix<T>(a: seq<T>, b: seq<T>, x: T)
    requires a <= b && x in a
    ensures x in b
  {}

  lemma Associative<T>(a: seq<T>, b: seq<T>, c: seq<T>)
    ensures a + (b + c) == a + b + c
  {}

  lemma WithoutEnds<T>(s: seq<T>, a: nat, b: nat)
    requires a + 2 <= b <= |s|
    ensures var v := s[a..b]; v[1..|v|-1] == s[a+1..b-1]
  {
    var v := s[a..b];
    assert forall k :: 0 <= k < |v| ==> v[k] == s[a+k];
    assert v[1..|v|-1] == s[a+1..b-1];
  }

  lemma CountInBoth<T>(a: seq<T>, b: seq<T>, x: T)
    ensures multiset(a + b)[x] == multiset(a)[x] + multiset(b)[x]
  {}
}
