/** The comparison of a file's findings with a baseline (scripts/structure_ratchet.py:806-811).

    What it means: a matching of today's long functions into the recorded ones. And exactly when
    edits that make no function longer never fail it. */
module StructureRatchet {
  import opened Basics
  import opened Matchings
  import opened StructureFindings

  // ------------------------------------------------------------------- diff

  function Get(counts: Counts, k: string): nat { if k in counts then counts[k] else 0 }

  function Rose(current: Counts, baseline: Counts): set<string> {
    set k | k in current.Keys + baseline.Keys && Get(current, k) > Get(baseline, k)
  }

  function Shrank(current: Counts, baseline: Counts): set<string> {
    set k | k in current.Keys + baseline.Keys && Get(current, k) < Get(baseline, k)
  }

  lemma RankedAreOver(spans: seq<Span>, name: string, limit: nat)
    ensures forall n <- Ranked(spans, name, limit) :: n > limit
  {
    forall n <- Ranked(spans, name, limit) ensures n > limit {
      assert n in multiset(Ranked(spans, name, limit));
      assert n in Over(spans, name, limit);
    }
  }

  lemma EntriesArePositive(path: string, spans: seq<Span>, limit: nat, f: Finding)
    requires IsEntryFinding(f, path, spans, limit)
    ensures f.count > 0
  {
    var name, rank :| IsEntry(spans, limit, name, rank) && f == EntryOf(path, spans, limit, name, rank);
    RankedAreOver(spans, name, limit);
    assert f.count in Ranked(spans, name, limit);
  }

  lemma CountsArePositive(path: string, spans: seq<Span>, limit: nat)
    ensures forall k <- CountsOf(path, spans, limit) :: CountsOf(path, spans, limit)[k] > 0
  {
    var counts := CountsOf(path, spans, limit);
    CountsHold(path, spans, limit);
    forall k <- counts ensures counts[k] > 0 {
      var f := Finding(k, counts[k]);
      if !IsUnmeasured(f, path, spans) { EntriesArePositive(path, spans, limit, f); }
    }
  }

  /** Nothing rose and nothing shrank exactly when the baseline is what would be recorded today. */
  lemma QuietMeansRecorded(path: string, today: seq<Span>, limit: nat, before: seq<Span>, limitBefore: nat)
    ensures var current, baseline := CountsOf(path, today, limit), CountsOf(path, before, limitBefore);
      Rose(current, baseline) == {} && Shrank(current, baseline) == {} <==> current == baseline
  {
    var current, baseline := CountsOf(path, today, limit), CountsOf(path, before, limitBefore);
    CountsArePositive(path, today, limit);
    CountsArePositive(path, before, limitBefore);
    QuietMeansEqual(current, baseline);
  }

  lemma QuietMeansEqual(current: Counts, baseline: Counts)
    requires (forall k <- current :: current[k] > 0) && forall k <- baseline :: baseline[k] > 0
    ensures Rose(current, baseline) == {} && Shrank(current, baseline) == {} <==> current == baseline
  {
    if Rose(current, baseline) == {} && Shrank(current, baseline) == {} {
      forall k | k in current.Keys + baseline.Keys ensures Get(current, k) == Get(baseline, k) {
        assert k !in Rose(current, baseline) && k !in Shrank(current, baseline);
      }
      assert forall k :: k in current <==> k in baseline;
    }
  }

  // -------------------------------------------------------------- matchings

  /** Neither list of spans has an over-limit function called `other~k` that either one's ranks of `other` reach. */
  ghost predicate Apart(today: seq<Span>, limit: nat, before: seq<Span>, limitBefore: nat) {
    forall other, k :: 2 <= k && (k <= |Over(today, other, limit)| || k <= |Over(before, other, limitBefore)|) ==>
      Over(today, KeyText(other, k), limit) == [] && Over(before, KeyText(other, k), limitBefore) == []
  }

  lemma ApartIsSeparate(today: seq<Span>, limit: nat, before: seq<Span>, limitBefore: nat)
    requires Apart(today, limit, before, limitBefore)
    ensures Separate(today, limit) && Separate(before, limitBefore)
  {}

  lemma SeparateCounts(path: string, spans: seq<Span>, limit: nat, name: string, rank: nat)
    requires Separate(spans, limit) && IsEntry(spans, limit, name, rank)
    ensures var counts := CountsOf(path, spans, limit);
      FnKey(path, name, rank) in counts && counts[FnKey(path, name, rank)] == Ranked(spans, name, limit)[rank-1]
  {
    KeysStayDistinct(path, spans, limit);
    FindingsAreEntries(path, spans, limit);
    DistinctRecorded(FileFindings(path, spans, limit), EntryOf(path, spans, limit, name, rank));
  }

  /** Where today has a rank that the baseline has not, the baseline's dictionary lacks the key too. */
  lemma ApartMissing(path: string, today: seq<Span>, limit: nat, before: seq<Span>, limitBefore: nat, name: string,
                     rank: nat)
    requires Apart(today, limit, before, limitBefore)
    requires IsEntry(today, limit, name, rank) && !IsEntry(before, limitBefore, name, rank)
    ensures FnKey(path, name, rank) !in CountsOf(path, before, limitBefore)
  {
    var counts, k := CountsOf(path, before, limitBefore), FnKey(path, name, rank);
    CountsHold(path, before, limitBefore);
    KeysOfAFile(path, name, rank, name, rank);
    if k in counts {
      var b, j :| IsEntry(before, limitBefore, b, j)
        && Finding(k, counts[k]) == EntryOf(path, before, limitBefore, b, j);
      KeysOfAFile(path, name, rank, b, j);
      SameKeyText(name, rank, b, j);
    }
  }

  lemma ApartRises(path: string, today: seq<Span>, limit: nat, before: seq<Span>, limitBefore: nat, name: string,
                   rank: nat)
    requires Apart(today, limit, before, limitBefore) && IsEntry(today, limit, name, rank)
    ensures FnKey(path, name, rank) !in Rose(CountsOf(path, today, limit), CountsOf(path, before, limitBefore))
      <==> IsEntry(before, limitBefore, name, rank)
           && Ranked(today, name, limit)[rank-1] <= Ranked(before, name, limitBefore)[rank-1]
  {
    ApartIsSeparate(today, limit, before, limitBefore);
    SeparateCounts(path, today, limit, name, rank);
    CountsArePositive(path, today, limit);
    if IsEntry(before, limitBefore, name, rank) {
      SeparateCounts(path, before, limitBefore, name, rank);
    } else {
      ApartMissing(path, today, limit, before, limitBefore, name, rank);
    }
  }

  /** No key of the name's findings of today rises. */
  ghost predicate NoneRises(path: string, today: seq<Span>, limit: nat, baseline: Counts, name: string) {
    forall rank: nat | IsEntry(today, limit, name, rank) ::
      FnKey(path, name, rank) !in Rose(CountsOf(path, today, limit), baseline)
  }

  /** For one name, against a baseline the tool wrote and with names kept apart: none of its written
      keys rises exactly when today's over-limit functions of that name match into distinct recorded
      ones at least as long. */
  lemma {:induction false} RankedKeysDecideMatching(path: string, today: seq<Span>, limit: nat, before: seq<Span>,
                                                    limitBefore: nat, name: string)
    requires Apart(today, limit, before, limitBefore)
    ensures NoneRises(path, today, limit, CountsOf(path, before, limitBefore), name)
      <==> Matched(Over(today, name, limit), Over(before, name, limitBefore))
  {
    var s, t := Ranked(today, name, limit), Ranked(before, name, limitBefore);
    forall rank: nat | IsEntry(today, limit, name, rank)
      ensures FnKey(path, name, rank) !in Rose(CountsOf(path, today, limit), CountsOf(path, before, limitBefore))
        <==> rank <= |t| && s[rank-1] <= t[rank-1]
    {
      ApartRises(path, today, limit, before, limitBefore, name, rank);
    }
    RanksDominate(path, today, limit, before, limitBefore, name);
    if Dominates(t, s) { DominanceGivesMatching(s, t, Over(today, name, limit), Over(before, name, limitBefore)); }
    if Matched(Over(today, name, limit), Over(before, name, limitBefore)) {
      MatchingGivesDominance(s, t, Over(today, name, limit), Over(before, name, limitBefore));
    }
  }

  lemma RanksDominate(path: string, today: seq<Span>, limit: nat, before: seq<Span>, limitBefore: nat, name: string)
    ensures var s, t := Ranked(today, name, limit), Ranked(before, name, limitBefore);
      Dominates(t, s) <==> forall rank: nat | IsEntry(today, limit, name, rank) :: rank <= |t| && s[rank-1] <= t[rank-1]
  {
    var s, t := Ranked(today, name, limit), Ranked(before, name, limitBefore);
    if forall rank: nat | IsEntry(today, limit, name, rank) :: rank <= |t| && s[rank-1] <= t[rank-1] {
      assert s != [] ==> IsEntry(today, limit, name, |s|);
      forall i | 0 <= i < |s| ensures s[i] <= t[i] { assert IsEntry(today, limit, name, i + 1); }
    }
  }

  /** For the whole file: no function key rises exactly when every name's functions match. */
  lemma NothingRisesWhenAllMatch(path: string, today: seq<Span>, limit: nat, before: seq<Span>, limitBefore: nat)
    requires Apart(today, limit, before, limitBefore)
    ensures Rose(CountsOf(path, today, limit), CountsOf(path, before, limitBefore)) <= {UnmeasuredKey(path)}
      <==> AllMatch(today, limit, before, limitBefore)
  {
    RisenAreEntries(path, today, limit, CountsOf(path, before, limitBefore));
    NoneRiseWhenAllMatch(path, today, limit, before, limitBefore);
  }

  ghost predicate AllMatch(today: seq<Span>, limit: nat, before: seq<Span>, limitBefore: nat) {
    forall name :: Matched(Over(today, name, limit), Over(before, name, limitBefore))
  }

  lemma NoneRiseWhenAllMatch(path: string, today: seq<Span>, limit: nat, before: seq<Span>, limitBefore: nat)
    requires Apart(today, limit, before, limitBefore)
    ensures AllMatch(today, limit, before, limitBefore)
      <==> forall name :: NoneRises(path, today, limit, CountsOf(path, before, limitBefore), name)
  {
    forall name
      ensures Matched(Over(today, name, limit), Over(before, name, limitBefore))
        <==> NoneRises(path, today, limit, CountsOf(path, before, limitBefore), name)
    {
      RankedKeysDecideMatching(path, today, limit, before, limitBefore, name);
    }
  }

  lemma RisenKey(path: string, today: seq<Span>, limit: nat, baseline: Counts, k: string)
    requires k in Rose(CountsOf(path, today, limit), baseline) && k != UnmeasuredKey(path)
    ensures exists name :: !NoneRises(path, today, limit, baseline, name)
  {
    var f := Finding(k, CountsOf(path, today, limit)[k]);
    CountsHold(path, today, limit);
    var name, rank :| IsEntry(today, limit, name, rank) && f == EntryOf(path, today, limit, name, rank);
    assert FnKey(path, name, rank) == k;
    assert !NoneRises(path, today, limit, baseline, name);
  }

  /** What rises is the unmeasured count or an entry of today. */
  lemma RisenAreEntries(path: string, today: seq<Span>, limit: nat, baseline: Counts)
    ensures Rose(CountsOf(path, today, limit), baseline) <= {UnmeasuredKey(path)}
      <==> forall name :: NoneRises(path, today, limit, baseline, name)
  {
    var rose := Rose(CountsOf(path, today, limit), baseline);
    if rose <= {UnmeasuredKey(path)} {
      forall name, rank: nat | IsEntry(today, limit, name, rank) ensures FnKey(path, name, rank) !in rose {
        KeysOfAFile(path, name, rank, name, rank);
      }
    } else {
      var k :| k in rose && k != UnmeasuredKey(path);
      RisenKey(path, today, limit, baseline, k);
    }
  }

  // ---------------------------------------------------- edits that never fail

  /** Single edits of a file that leave no function longer than before. */
  datatype Edit =
    | Reorder(to: seq<Span>)
    | Shrink(at: nat, lines: nat)
    | Remove(at: nat)
    | AddShort(at: nat, span: Span)

  predicate Applies(e: Edit, spans: seq<Span>, limit: nat) {
    match e
    case Reorder(to) => multiset(to) == multiset(spans)
    case Shrink(at, lines) => at < |spans| && spans[at].lines.Some? && lines <= spans[at].lines.value
    case Remove(at) => at < |spans|
    case AddShort(at, span) => at <= |spans| && span.lines.Some? && span.lines.value <= limit
  }

  function Apply(e: Edit, spans: seq<Span>, limit: nat): seq<Span>
    requires Applies(e, spans, limit)
  {
    match e
    case Reorder(to) => to
    case Shrink(at, lines) => spans[at := spans[at].(lines := Some(lines))]
    case Remove(at) => spans[..at] + spans[at+1..]
    case AddShort(at, span) => spans[..at] + [span] + spans[at..]
  }

  lemma {:induction false} OverConcat(a: seq<Span>, b: seq<Span>, name: string, limit: nat)
    ensures Over(a + b, name, limit) == Over(a, name, limit) + Over(b, name, limit)
    ensures UnmeasuredCount(a + b) == UnmeasuredCount(a) + UnmeasuredCount(b)
    decreases |b|
  {
    if b == [] {
      assert a + b == a;
    } else {
      assert (a + b)[..|a + b|-1] == a + b[..|b|-1];
      OverConcat(a, b[..|b|-1], name, limit);
    }
  }

  lemma OverSplit(spans: seq<Span>, at: nat, name: string, limit: nat)
    requires at < |spans|
    ensures Over(spans, name, limit)
      == Over(spans[..at], name, limit) + Over([spans[at]], name, limit) + Over(spans[at+1..], name, limit)
    ensures UnmeasuredCount(spans)
      == UnmeasuredCount(spans[..at]) + UnmeasuredCount([spans[at]]) + UnmeasuredCount(spans[at+1..])
  {
    OverConcat(spans[..at], [spans[at]], name, limit);
    OverConcat(spans[..at] + [spans[at]], spans[at+1..], name, limit);
    assert spans == spans[..at] + [spans[at]] + spans[at+1..];
  }

  lemma OverWithout(spans: seq<Span>, span: Span, name: string, limit: nat) returns (rest: seq<Span>)
    requires span in spans
    ensures |rest| < |spans| && multiset(rest) == multiset(spans) - multiset{span}
    ensures multiset(Over(spans, name, limit))
      == multiset(Over([span], name, limit)) + multiset(Over(rest, name, limit))
    ensures UnmeasuredCount(spans) == UnmeasuredCount([span]) + UnmeasuredCount(rest)
  {
    var at :| 0 <= at < |spans| && spans[at] == span;
    rest := spans[..at] + spans[at+1..];
    OverSplit(spans, at, name, limit);
    OverConcat(spans[..at], spans[at+1..], name, limit);
    RestMultiset(spans, at);
  }

  lemma RestMultiset(spans: seq<Span>, at: nat)
    requires at < |spans|
    ensures multiset(spans[..at] + spans[at+1..]) == multiset(spans) - multiset{spans[at]}
  {
    assert spans == spans[..at] + [spans[at]] + spans[at+1..];
  }

  lemma {:induction false} OverReordered(a: seq<Span>, b: seq<Span>, name: string, limit: nat)
    requires multiset(a) == multiset(b)
    ensures multiset(Over(a, name, limit)) == multiset(Over(b, name, limit))
    ensures UnmeasuredCount(a) == UnmeasuredCount(b)
    decreases |a|
  {
    if a == [] {
      assert |multiset(b)| == 0;
    } else {
      var span := a[0];
      assert span in multiset(b);
      var a' := OverWithout(a, span, name, limit);
      var b' := OverWithout(b, span, name, limit);
      OverReordered(a', b', name, limit);
    }
  }

  lemma ShrinkKeepsMatching(spans: seq<Span>, at: nat, span: Span, limit: nat, name: string)
    requires at < |spans| && spans[at].lines.Some? && span.lines.Some?
    requires span.qualname == spans[at].qualname && span.lines.value <= spans[at].lines.value
    ensures Matched(Over(spans[at := span], name, limit), Over(spans, name, limit))
    ensures UnmeasuredCount(spans[at := span]) <= UnmeasuredCount(spans)
  {
    var after := spans[at := span];
    OverSplit(spans, at, name, limit);
    OverSplit(after, at, name, limit);
    assert after[..at] == spans[..at] && after[at+1..] == spans[at+1..];
    assert [spans[at]][..0] == [] && [span][..0] == [];
    MatchMiddle(Over(spans[..at], name, limit), Over([span], name, limit), Over([spans[at]], name, limit),
                Over(spans[at+1..], name, limit));
  }

  lemma RemoveKeepsMatching(spans: seq<Span>, at: nat, limit: nat, name: string)
    requires at < |spans|
    ensures Matched(Over(spans[..at] + spans[at+1..], name, limit), Over(spans, name, limit))
    ensures UnmeasuredCount(spans[..at] + spans[at+1..]) <= UnmeasuredCount(spans)
  {
    var a, b, gone := spans[..at], spans[at+1..], [spans[at]];
    OverSplit(spans, at, name, limit);
    OverConcat(a, b, name, limit);
    MatchDropped(Over(a, name, limit), Over(gone, name, limit), Over(b, name, limit));
  }

  lemma OverShort(span: Span, limit: nat, name: string)
    requires span.lines.Some? && span.lines.value <= limit
    ensures Over([span], name, limit) == [] && UnmeasuredCount([span]) == 0
  {
    assert [span][..0] == [];
  }

  lemma AddKeepsMatching(spans: seq<Span>, at: nat, span: Span, limit: nat, name: string)
    requires at <= |spans| && span.lines.Some? && span.lines.value <= limit
    ensures Matched(Over(spans[..at] + [span] + spans[at..], name, limit), Over(spans, name, limit))
    ensures UnmeasuredCount(spans[..at] + [span] + spans[at..]) <= UnmeasuredCount(spans)
  {
    var a, b, new_ := spans[..at], spans[at..], [span];
    assert spans == a + b;
    OverConcat(a, b, name, limit);
    OverConcat(a + new_, b, name, limit);
    OverConcat(a, new_, name, limit);
    OverShort(span, limit, name);
    MatchReordered(Over(a, name, limit) + [] + Over(b, name, limit), Over(a, name, limit) + Over(b, name, limit));
  }

  lemma EditKeepsMatching(e: Edit, spans: seq<Span>, limit: nat, name: string)
    requires Applies(e, spans, limit)
    ensures Matched(Over(Apply(e, spans, limit), name, limit), Over(spans, name, limit))
    ensures UnmeasuredCount(Apply(e, spans, limit)) <= UnmeasuredCount(spans)
  {
    match e
    case Reorder(to) =>
      OverReordered(to, spans, name, limit);
      MatchReordered(Over(to, name, limit), Over(spans, name, limit));
    case Shrink(at, lines) => ShrinkKeepsMatching(spans, at, spans[at].(lines := Some(lines)), limit, name);
    case Remove(at) => RemoveKeepsMatching(spans, at, limit, name);
    case AddShort(at, span) => AddKeepsMatching(spans, at, span, limit, name);
  }

  // ------------------------------------------- and when they do not, exactly

  /** No finding is overwritten by a smaller one with its key. */
  ghost predicate NothingHidden(path: string, spans: seq<Span>, limit: nat) {
    forall name, rank: nat :: IsEntry(spans, limit, name, rank) ==>
      Ranked(spans, name, limit)[rank-1] <= Get(CountsOf(path, spans, limit), FnKey(path, name, rank))
  }

  lemma SeparateHidesNothing(path: string, spans: seq<Span>, limit: nat)
    requires Separate(spans, limit)
    ensures NothingHidden(path, spans, limit)
  {
    forall name, rank: nat | IsEntry(spans, limit, name, rank)
      ensures Ranked(spans, name, limit)[rank-1] <= Get(CountsOf(path, spans, limit), FnKey(path, name, rank))
    {
      SeparateCounts(path, spans, limit, name, rank);
    }
  }

  lemma EntryNeverRises(path: string, today: seq<Span>, limit: nat, before: seq<Span>, limitBefore: nat,
                        name: string, rank: nat)
    requires AllMatch(today, limit, before, limitBefore) && NothingHidden(path, before, limitBefore)
    requires IsEntry(today, limit, name, rank)
    ensures Ranked(today, name, limit)[rank-1] <= Get(CountsOf(path, before, limitBefore), FnKey(path, name, rank))
  {
    MatchingGivesDominance(Ranked(today, name, limit), Ranked(before, name, limitBefore),
                           Over(today, name, limit), Over(before, name, limitBefore));
    assert IsEntry(before, limitBefore, name, rank);
  }

  lemma KeyNeverRises(path: string, today: seq<Span>, limit: nat, before: seq<Span>, limitBefore: nat, k: string)
    requires AllMatch(today, limit, before, limitBefore) && NothingHidden(path, before, limitBefore)
    requires k in CountsOf(path, today, limit) && k != UnmeasuredKey(path)
    ensures CountsOf(path, today, limit)[k] <= Get(CountsOf(path, before, limitBefore), k)
  {
    var f := Finding(k, CountsOf(path, today, limit)[k]);
    CountsHold(path, today, limit);
    var name, rank :| IsEntry(today, limit, name, rank) && f == EntryOf(path, today, limit, name, rank);
    EntryNeverRises(path, today, limit, before, limitBefore, name, rank);
  }

  /** Whatever the names: when every name's functions match and the recorded file hides no finding
      behind a smaller one, no function key rises. */
  lemma MatchedNeverRises(path: string, today: seq<Span>, limit: nat, before: seq<Span>, limitBefore: nat)
    requires AllMatch(today, limit, before, limitBefore) && NothingHidden(path, before, limitBefore)
    ensures Rose(CountsOf(path, today, limit), CountsOf(path, before, limitBefore)) <= {UnmeasuredKey(path)}
  {
    forall k <- Rose(CountsOf(path, today, limit), CountsOf(path, before, limitBefore)) | k != UnmeasuredKey(path)
      ensures false
    {
      KeyNeverRises(path, today, limit, before, limitBefore, k);
    }
  }

  lemma SafeEdit(e: Edit, path: string, spans: seq<Span>, limit: nat)
    requires Applies(e, spans, limit) && NothingHidden(path, spans, limit)
    ensures Rose(CountsOf(path, Apply(e, spans, limit), limit), CountsOf(path, spans, limit)) == {}
  {
    var after := Apply(e, spans, limit);
    forall name ensures Matched(Over(after, name, limit), Over(spans, name, limit)) {
      EditKeepsMatching(e, spans, limit, name);
    }
    MatchedNeverRises(path, after, limit, spans, limit);
    EditKeepsMatching(e, spans, limit, "");
    UnmeasuredNeverRises(path, after, spans, limit);
  }

  lemma UnmeasuredNeverRises(path: string, today: seq<Span>, before: seq<Span>, limit: nat)
    requires UnmeasuredCount(today) <= UnmeasuredCount(before)
    ensures UnmeasuredKey(path) !in Rose(CountsOf(path, today, limit), CountsOf(path, before, limit))
  {
    UnmeasuredCounts(path, today, limit);
    UnmeasuredCounts(path, before, limit);
  }

  /** The spans of a name, or those of all others, in order. */
  function Those(spans: seq<Span>, name: string, own: bool): seq<Span> {
    if spans == [] then []
    else
      var last := spans[|spans|-1];
      Those(spans[..|spans|-1], name, own) + if (last.qualname == name) == own then [last] else []
  }

  lemma {:induction false} ThoseSplit(spans: seq<Span>, name: string)
    ensures multiset(Those(spans, name, false)) + multiset(Those(spans, name, true)) == multiset(spans)
  {
    if spans != [] {
      var init, last := spans[..|spans|-1], spans[|spans|-1];
      ThoseSplit(init, name);
      assert spans == init + [last];
      ThoseStep(init, last, name, false);
      ThoseStep(init, last, name, true);
    }
  }

  lemma ThoseStep(init: seq<Span>, last: Span, name: string, own: bool)
    ensures Those(init + [last], name, own)
      == Those(init, name, own) + if (last.qualname == name) == own then [last] else []
  {
    assert (init + [last])[..|init|] == init;
  }

  lemma {:induction false} ThoseNamed(spans: seq<Span>, name: string, own: bool)
    ensures forall x <- Those(spans, name, own) :: (x.qualname == name) == own
  {
    if spans != [] { ThoseNamed(spans[..|spans|-1], name, own); }
  }

  lemma {:induction false} NoneOver(spans: seq<Span>, name: string, limit: nat)
    requires forall x <- spans :: x.qualname != name
    ensures Over(spans, name, limit) == []
  {
    if spans != [] {
      NoneOver(spans[..|spans|-1], name, limit);
      assert spans[|spans|-1] in spans;
    }
  }

  /** A name whose functions come last is written last. */
  lemma {:induction false} NamedLast(others: seq<Span>, own: seq<Span>, name: string, limit: nat)
    requires name !in Names(others, limit) && forall x <- own :: x.qualname == name
    ensures Names(others + own, limit) == Names(others, limit) + if Over(own, name, limit) != [] then [name] else []
    decreases |own|
  {
    if own == [] {
      assert others + own == others;
    } else {
      var init, last := own[..|own|-1], own[|own|-1];
      assert last in own && own == init + [last] && others + own == others + init + [last];
      NamedLast(others, init, name, limit);
      NamesStep(others + init, last, limit);
      OverStep(init, last, name, limit);
      InEither(Names(others, limit), if Over(init, name, limit) != [] then [name] else [], name);
      assert Names(others, limit) + [] == Names(others, limit);
    }
  }

  lemma LastIsRecorded(path: string, spans: seq<Span>, limit: nat, names: seq<string>, name: string, rank: nat)
    requires Names(spans, limit) == names + [name] && IsEntry(spans, limit, name, rank)
    ensures Get(CountsOf(path, spans, limit), FnKey(path, name, rank)) == Ranked(spans, name, limit)[rank-1]
  {
    var a, b := Blocks(path, names, spans, limit), Block(path, name, Ranked(spans, name, limit));
    var c := UnmeasuredFindings(path, UnmeasuredCount(spans));
    assert (names + [name])[..|names|] == names;
    RecordedConcat(a + b, c);
    RecordedConcat(a, b);
    BlockIsDistinct(path, name, Ranked(spans, name, limit));
    BlockIs(path, name, Ranked(spans, name, limit));
    DistinctRecorded(b, b[rank-1]);
    KeysOfAFile(path, name, rank, name, rank);
    RecordedHolds(c);
  }

  /** Moving the functions of a hidden finding to the end of the file makes its key rise. */
  lemma HiddenRises(path: string, spans: seq<Span>, limit: nat, name: string, rank: nat)
    requires IsEntry(spans, limit, name, rank)
    requires Ranked(spans, name, limit)[rank-1] > Get(CountsOf(path, spans, limit), FnKey(path, name, rank))
    ensures var e := Reorder(Those(spans, name, false) + Those(spans, name, true));
      Applies(e, spans, limit)
      && FnKey(path, name, rank) in Rose(CountsOf(path, Apply(e, spans, limit), limit), CountsOf(path, spans, limit))
  {
    var others, own := Those(spans, name, false), Those(spans, name, true);
    ThoseSplit(spans, name);
    OverReordered(others + own, spans, name, limit);
    SortedOnce(Over(others + own, name, limit), Over(spans, name, limit));
    MovedLast(spans, name, limit, rank);
    LastIsRecorded(path, others + own, limit, Names(others, limit), name, rank);
    GreaterRises(CountsOf(path, others + own, limit), CountsOf(path, spans, limit), FnKey(path, name, rank));
  }

  lemma MovedLast(spans: seq<Span>, name: string, limit: nat, rank: nat)
    requires var to := Those(spans, name, false) + Those(spans, name, true); IsEntry(to, limit, name, rank)
    ensures var others := Those(spans, name, false);
      Names(others + Those(spans, name, true), limit) == Names(others, limit) + [name]
  {
    var others, own := Those(spans, name, false), Those(spans, name, true);
    ThoseNamed(spans, name, false);
    ThoseNamed(spans, name, true);
    NoneOver(others, name, limit);
    NamesAreOver(others, limit);
    OverConcat(others, own, name, limit);
    NamedLast(others, own, name, limit);
  }

  /** Reordering, shortening, deleting, or adding a function within the limit never fails the check,
      exactly when the recorded file hides no finding behind a smaller one with its key. */
  lemma EditsNeverRise(path: string, spans: seq<Span>, limit: nat)
    ensures (forall e | Applies(e, spans, limit) ::
        Rose(CountsOf(path, Apply(e, spans, limit), limit), CountsOf(path, spans, limit)) == {})
      <==> NothingHidden(path, spans, limit)
  {
    if NothingHidden(path, spans, limit) {
      forall e | Applies(e, spans, limit)
        ensures Rose(CountsOf(path, Apply(e, spans, limit), limit), CountsOf(path, spans, limit)) == {}
      {
        SafeEdit(e, path, spans, limit);
      }
    } else {
      var name, rank :| IsEntry(spans, limit, name, rank)
        && Ranked(spans, name, limit)[rank-1] > Get(CountsOf(path, spans, limit), FnKey(path, name, rank));
      HiddenRises(path, spans, limit, name, rank);
    }
  }

  /** So they never fail it while names stay apart. */
  lemma EditNeverRises(e: Edit, path: string, spans: seq<Span>, limit: nat)
    requires Applies(e, spans, limit) && Separate(spans, limit)
    ensures Rose(CountsOf(path, Apply(e, spans, limit), limit), CountsOf(path, spans, limit)) == {}
  {
    SeparateHidesNothing(path, spans, limit);
    SafeEdit(e, path, spans, limit);
  }

  /** Where they do not: `f~2`, a function of its own, hides the second `f`. Moved to the front of the
      file it hides it no longer, and the key they share rises from 80 lines to 90. */
  lemma ReorderCanRise(path: string)
    ensures var f, g, other := Span("f", Some(100)), Span("f", Some(90)), Span("f~2", Some(80));
      var e := Reorder([other, f, g]);
      && Applies(e, [f, g, other], 50)
      && FnKey(path, "f", 2) in Rose(CountsOf(path, Apply(e, [f, g, other], 50), 50), CountsOf(path, [f, g, other], 50))
  {
    var f, g, other := Span("f", Some(100)), Span("f", Some(90)), Span("f~2", Some(80));
    HiddenSecond(path);
    ShownSecond(path);
    Rotated(f, g, other);
    GreaterRises(CountsOf(path, [other, f, g], 50), CountsOf(path, [f, g, other], 50), FnKey(path, "f", 2));
  }

  lemma Rotated(f: Span, g: Span, other: Span)
    ensures multiset([other, f, g]) == multiset([f, g, other])
  {}

  lemma GreaterRises(current: Counts, baseline: Counts, k: string)
    requires Get(current, k) > Get(baseline, k)
    ensures k in Rose(current, baseline)
  {}

  lemma HiddenSecond(path: string)
    ensures var spans := [Span("f", Some(100)), Span("f", Some(90)), Span("f~2", Some(80))];
      Get(CountsOf(path, spans, 50), FnKey(path, "f", 2)) == 80
  {
    var f, g, other := Span("f", Some(100)), Span("f", Some(90)), Span("f~2", Some(80));
    NamesOfThree(f, g, other, 50);
    OverOfThree(f, g, other, "f~2", 50);
    SortOne(80);
    TildeNamesCollide();
    KeysOfAFile(path, "f~2", 1, "f", 2);
    LastIsRecorded(path, [f, g, other], 50, ["f"], "f~2", 1);
  }

  lemma ShownSecond(path: string)
    ensures var spans := [Span("f~2", Some(80)), Span("f", Some(100)), Span("f", Some(90))];
      Get(CountsOf(path, spans, 50), FnKey(path, "f", 2)) == 90
  {
    var f, g, other := Span("f", Some(100)), Span("f", Some(90)), Span("f~2", Some(80));
    NamesOfThree(other, f, g, 50);
    OverOfThree(other, f, g, "f", 50);
    SortTwo(100, 90);
    LastIsRecorded(path, [other, f, g], 50, ["f~2"], "f", 2);
  }

  lemma NamesOfThree(a: Span, b: Span, c: Span, limit: nat)
    requires IsOver(a, limit) && IsOver(b, limit) && IsOver(c, limit) && a.qualname != c.qualname
    requires b.qualname == a.qualname || b.qualname == c.qualname
    ensures Names([a, b, c], limit) == [a.qualname] + [c.qualname]
  {
    assert [a][..0] == [] && [a, b][..1] == [a] && [a, b, c][..2] == [a, b];
    assert Names([a], limit) == [a.qualname];
    assert Names([a, b], limit) == if b.qualname == a.qualname then [a.qualname] else [a.qualname, b.qualname];
  }

  function OverOne(x: Span, name: string, limit: nat): seq<nat> {
    if x.qualname == name && IsOver(x, limit) then [x.lines.value] else []
  }

  lemma OverOfThree(a: Span, b: Span, c: Span, name: string, limit: nat)
    ensures Over([a, b, c], name, limit) == OverOne(a, name, limit) + OverOne(b, name, limit) + OverOne(c, name, limit)
  {
    assert [a][..0] == [] && [a, b][..1] == [a] && [a, b, c][..2] == [a, b];
    assert Over([a], name, limit) == OverOne(a, name, limit);
    assert Over([a, b], name, limit) == OverOne(a, name, limit) + OverOne(b, name, limit);
  }

  lemma SortOne(x: nat)
    ensures SortDescending([x]) == [x]
  {
    assert [x][..0] == [];
  }

  lemma SortTwo(x: nat, y: nat)
    requires x >= y
    ensures SortDescending([x, y]) == [x, y]
  {
    SortOne(x);
    assert [x, y][..1] == [x] && [x][1..] == [];
    assert Insert([], y) == [y];
  }
}
