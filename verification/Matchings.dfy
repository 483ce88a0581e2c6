/** Matchings between lists of numbers, and their form on sorted lists. */
module Matchings {

  predicate Descending(s: seq<nat>) { forall i :: 0 < i < |s| ==> s[i-1] >= s[i] }

  function Insert(s: seq<nat>, x: nat): (r: seq<nat>)
    requires Descending(s)
    ensures Descending(r) && |r| == |s| + 1 && multiset(r) == multiset(s) + multiset{x}
    ensures r[0] == if s == [] || s[0] <= x then x else s[0]
  {
    if s == [] || s[0] <= x then [x] + s
    else
      assert s == [s[0]] + s[1..];
      [s[0]] + Insert(s[1..], x)
  }

  function SortDescending(s: seq<nat>): (r: seq<nat>)
    ensures Descending(r) && |r| == |s| && multiset(r) == multiset(s)
  {
    if s == [] then []
    else
      assert s == s[..|s|-1] + [s[|s|-1]];
      Insert(SortDescending(s[..|s|-1]), s[|s|-1])
  }

  lemma SortedMembers(s: seq<nat>, x: nat)
    ensures x in SortDescending(s) <==> x in s
  {
    assert x in multiset(s) <==> x in multiset(SortDescending(s));
  }

  /** `m` gives each entry of `s` one at least as large. */
  ghost predicate Covers(m: seq<nat>, s: seq<nat>) {
    |m| == |s| && forall i :: 0 <= i < |s| ==> s[i] <= m[i]
  }

  /** Each entry of `today` can be given its own entry of `then`, at least as large. */
  ghost predicate Matched(today: seq<nat>, then_: seq<nat>) {
    exists m :: Covers(m, today) && multiset(m) <= multiset(then_)
  }

  function Without(s: seq<nat>, i: nat): seq<nat>
    requires i < |s|
  {
    s[..i] + s[i+1..]
  }

  lemma WithoutMultiset(s: seq<nat>, i: nat)
    requires i < |s|
    ensures multiset(Without(s, i)) == multiset(s) - multiset{s[i]}
    ensures s[i] in multiset(s)
  {
    assert s == s[..i] + [s[i]] + s[i+1..];
  }

  lemma CoverCons(m: seq<nat>, s: seq<nat>, t: seq<nat>, i: nat, rest: seq<nat>) returns (m': seq<nat>)
    requires Covers(m, s) && i < |s| && t != [] && s[i] == t[0]
    requires Covers(rest, t[1..]) && multiset(rest) == multiset(Without(m, i))
    ensures Covers(m', t) && multiset(m') == multiset(m)
  {
    WithoutMultiset(m, i);
    m' := [m[i]] + rest;
    assert forall k :: 0 < k < |t| ==> t[1..][k-1] == t[k] && m'[k] == rest[k-1];
  }

  lemma CoverWithout(m: seq<nat>, s: seq<nat>, i: nat)
    requires Covers(m, s) && i < |s|
    ensures Covers(Without(m, i), Without(s, i))
  {}

  lemma SameWithout(s: seq<nat>, t: seq<nat>, i: nat)
    requires multiset(s) == multiset(t) && i < |s| && t != [] && s[i] == t[0]
    ensures multiset(Without(s, i)) == multiset(t[1..])
  {
    WithoutMultiset(s, i);
    WithoutMultiset(t, 0);
    assert Without(t, 0) == t[1..];
  }

  /** A cover survives any reordering of what it covers. */
  lemma {:induction false} Realign(m: seq<nat>, s: seq<nat>, t: seq<nat>) returns (m': seq<nat>)
    requires Covers(m, s) && multiset(s) == multiset(t)
    ensures Covers(m', t) && multiset(m') == multiset(m)
    decreases |t|
  {
    if t == [] {
      assert |multiset(s)| == 0;
      m' := m;
    } else {
      assert t[0] in multiset(s);
      var i :| 0 <= i < |s| && s[i] == t[0];
      CoverWithout(m, s, i);
      SameWithout(s, t, i);
      m' := Realign(Without(m, i), Without(s, i), t[1..]);
      m' := CoverCons(m, s, t, i, m');
    }
  }

  function CountFrom(s: seq<nat>, v: nat): nat {
    if s == [] then 0 else CountFrom(s[1..], v) + if s[0] >= v then 1 else 0
  }

  lemma {:induction false} CountWithout(s: seq<nat>, i: nat, v: nat)
    requires i < |s|
    ensures CountFrom(s, v) == CountFrom(Without(s, i), v) + if s[i] >= v then 1 else 0
  {
    if i > 0 {
      CountWithout(s[1..], i - 1, v);
      assert Without(s, i) == [s[0]] + Without(s[1..], i - 1);
    } else {
      assert Without(s, 0) == s[1..];
    }
  }

  lemma {:induction false} CountMonotone(s: seq<nat>, t: seq<nat>, v: nat)
    requires multiset(s) <= multiset(t)
    ensures CountFrom(s, v) <= CountFrom(t, v)
    decreases |s|
  {
    if s != [] {
      assert s[0] in multiset(s);
      assert s[0] in multiset(t);
      var i :| 0 <= i < |t| && t[i] == s[0];
      WithoutMultiset(s, 0);
      WithoutMultiset(t, i);
      assert Without(s, 0) == s[1..];
      CountMonotone(s[1..], Without(t, i), v);
      CountWithout(t, i, v);
    }
  }

  /** In a descending list, more than `i` entries reach `v` exactly when entry `i` does. */
  lemma {:induction false} CountDescending(s: seq<nat>, i: nat, v: nat)
    requires Descending(s)
    ensures CountFrom(s, v) > i <==> i < |s| && s[i] >= v
    decreases |s|
  {
    if s != [] {
      if i == 0 {
        if s[0] < v { CountDescending(s[1..], 0, v); }
      } else {
        CountDescending(s[1..], i - 1, v);
        CountDescending(s[1..], 0, v);
      }
    }
  }

  lemma {:induction false} CountCover(m: seq<nat>, s: seq<nat>, v: nat)
    requires Covers(m, s)
    ensures CountFrom(s, v) <= CountFrom(m, v)
    decreases |s|
  {
    if s != [] {
      CountCover(m[1..], s[1..], v);
    }
  }

  /** `t` has an entry at every rank of `s`, at least as large. */
  ghost predicate Dominates(t: seq<nat>, s: seq<nat>) {
    |s| <= |t| && forall i :: 0 <= i < |s| ==> s[i] <= t[i]
  }

  /** Descending lists `s` of today's entries and `t` of the earlier ones: dominance gives a matching. */
  lemma DominanceGivesMatching(s: seq<nat>, t: seq<nat>, today: seq<nat>, then_: seq<nat>)
    requires multiset(s) == multiset(today) && multiset(t) == multiset(then_) && Dominates(t, s)
    ensures Matched(today, then_)
  {
    assert t == t[..|s|] + t[|s|..];
    var m := Realign(t[..|s|], s, today);
  }

  /** The `i` + 1 largest entries of `s` need as many of `t`, so entry `i` of `t` is large enough. */
  lemma MatchingGivesDominance(s: seq<nat>, t: seq<nat>, today: seq<nat>, then_: seq<nat>)
    requires multiset(s) == multiset(today) && multiset(t) == multiset(then_) && Descending(s) && Descending(t)
    requires Matched(today, then_)
    ensures Dominates(t, s)
  {
    var m :| Covers(m, today) && multiset(m) <= multiset(then_);
    m := Realign(m, today, s);
    assert multiset(t) == multiset(m) + (multiset(t) - multiset(m));
    assert |multiset(t)| >= |multiset(m)|;
    forall i | 0 <= i < |s| ensures s[i] <= t[i] {
      CountDescending(s, i, s[i]);
      CountCover(m, s, s[i]);
      CountMonotone(m, t, s[i]);
      CountDescending(t, i, s[i]);
    }
  }

  lemma MatchMiddle(a: seq<nat>, new_: seq<nat>, old_: seq<nat>, b: seq<nat>)
    requires new_ == [] || (|new_| == |old_| == 1 && new_[0] <= old_[0])
    ensures Matched(a + new_ + b, a + old_ + b)
  {
    var m := a + (if new_ == [] then [] else old_) + b;
    assert Covers(m, a + new_ + b);
    assert multiset(m) <= multiset(a + old_ + b);
  }

  lemma MatchReordered(today: seq<nat>, then_: seq<nat>)
    requires multiset(today) == multiset(then_)
    ensures Matched(today, then_)
  {
    assert Covers(today, today);
  }

  lemma MatchDropped(a: seq<nat>, old_: seq<nat>, b: seq<nat>)
    ensures Matched(a + b, a + old_ + b)
  {
    MatchMiddle(a, [], old_, b);
    assert a + [] + b == a + b;
  }

  /** There is one way to sort. */
  lemma SortedOnce(s: seq<nat>, t: seq<nat>)
    requires multiset(s) == multiset(t)
    ensures SortDescending(s) == SortDescending(t)
  {
    MatchReordered(s, t);
    MatchReordered(t, s);
    MatchingGivesDominance(SortDescending(s), SortDescending(t), s, t);
    MatchingGivesDominance(SortDescending(t), SortDescending(s), t, s);
  }
}
