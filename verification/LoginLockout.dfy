/** The per-client login lock-out (src/login_lockout.py).

    The bounded, lazily swept table is proved to behave like an unbounded history of every
    client's failures; its order, its evictions and its alerts are proved over every run. */
module LoginLockout {
  import opened Basics

  type Key = string

  datatype Policy = Policy(free: nat, base: real, max: real, forget: real, maxClients: nat,
                           alertAfter: nat, cooldown: real, hasCallback: bool)
  {
    /** What the constructor accepts. */
    predicate Valid() {
      && alertAfter >= 1 && maxClients >= 1
      && 0.0 < base <= max <= forget
      && cooldown >= 0.0
    }
  }

  datatype Streak = Streak(key: Key, failures: nat, deadline: real, lastFailure: real, alerted: bool)

  datatype Alert = Alert(key: Key, failures: nat, suppressed: nat)

  /** `streaks` is the ordered table, the oldest last failure in front. */
  datatype State = State(streaks: seq<Streak>, lastAlert: Option<real>, suppressed: nat)

  const EMPTY: State := State([], None, 0)

  // --------------------------------------------------------------- the steps

  function Max(x: real, y: real): real { if x >= y then x else y }

  function Min(x: real, y: real): real { if x <= y then x else y }

  /** base * 2^k */
  function Doubled(p: Policy, k: nat): real {
    if k == 0 then p.base else 2.0 * Doubled(p, k - 1)
  }

  /** The wait a streak of that many failures imposes. */
  function Delay(p: Policy, failures: nat): real {
    if failures > p.free then Min(Doubled(p, failures - p.free - 1), p.max) else 0.0
  }

  function Lookup(t: seq<Streak>, key: Key): Option<Streak> {
    if t == [] then None else if t[0].key == key then Some(t[0]) else Lookup(t[1..], key)
  }

  function Remove(t: seq<Streak>, key: Key): seq<Streak> {
    if t == [] then [] else if t[0].key == key then t[1..] else [t[0]] + Remove(t[1..], key)
  }

  predicate Forgotten(p: Policy, e: Streak, now: real) { now - e.lastFailure >= p.forget }

  /** The streak of `key` that still counts; a forgotten one is deleted on sight. */
  function LiveStreak(p: Policy, t: seq<Streak>, key: Key, now: real): Option<Streak> {
    var e := Lookup(t, key);
    if e.Some? && !Forgotten(p, e.value, now) then e else None
  }

  function Swept(p: Policy, t: seq<Streak>, now: real): seq<Streak> {
    if t != [] && Forgotten(p, t[0], now) then Swept(p, t[1..], now) else t
  }

  function RoomMade(p: Policy, t: seq<Streak>, now: real): seq<Streak> {
    var swept := Swept(p, t, now);
    if |swept| >= p.maxClients && swept != [] then swept[1..] else swept
  }

  function Wait(p: Policy, t: seq<Streak>, key: Key, now: real): real {
    match LiveStreak(p, t, key, now)
    case Some(e) => Max(0.0, e.deadline - now)
    case None => 0.0
  }

  /** The table `_live` leaves behind. */
  function Checked(p: Policy, t: seq<Streak>, key: Key, now: real): seq<Streak> {
    if LiveStreak(p, t, key, now).None? then Remove(t, key) else t
  }

  /** The streak of `key` after one more failure, before its alert is considered. */
  function Bumped(p: Policy, t: seq<Streak>, key: Key, now: real): Streak {
    var e := LiveStreak(p, t, key, now);
    var failures := if e.Some? then e.value.failures + 1 else 1;
    Streak(key, failures, now + Delay(p, failures), now, e.Some? && e.value.alerted)
  }

  predicate AlertDue(p: Policy, e: Streak) { p.hasCallback && !e.alerted && e.failures >= p.alertAfter }

  predicate Cooling(p: Policy, s: State, now: real) { s.lastAlert.Some? && now - s.lastAlert.value < p.cooldown }

  function Recorded(p: Policy, s: State, key: Key, now: real): State {
    var e := Bumped(p, s.streaks, key, now);
    var rest := if LiveStreak(p, s.streaks, key, now).Some? then Remove(s.streaks, key)
                else RoomMade(p, Remove(s.streaks, key), now);
    if !AlertDue(p, e) then s.(streaks := rest + [e])
    else
      var s := s.(streaks := rest + [e.(alerted := true)]);
      if Cooling(p, s, now) then s.(suppressed := s.suppressed + 1) else s.(lastAlert := Some(now), suppressed := 0)
  }

  function RaisedAlert(p: Policy, s: State, key: Key, now: real): Option<Alert> {
    var e := Bumped(p, s.streaks, key, now);
    if AlertDue(p, e) && !Cooling(p, s, now) then Some(Alert(key, e.failures, s.suppressed)) else None
  }

  // -------------------------------------------------------------------- runs

  /** The calls in the order they take the lock, each with the clock's reading then. */
  datatype Call =
    | RetryAfter(key: Key, now: real)
    | RecordFailure(key: Key, now: real)
    | Reset(key: Key, now: real)

  function Step(p: Policy, s: State, c: Call): State {
    match c
    case RetryAfter(key, now) => s.(streaks := Checked(p, s.streaks, key, now))
    case RecordFailure(key, now) => Recorded(p, s, key, now)
    case Reset(key, _) => s.(streaks := Remove(s.streaks, key))
  }

  function Run(p: Policy, calls: seq<Call>): State {
    if calls == [] then EMPTY else Step(p, Run(p, calls[..|calls|-1]), calls[|calls|-1])
  }

  /** What the call returns when it follows `calls`. */
  function Answer(p: Policy, calls: seq<Call>, c: Call): real {
    match c
    case RetryAfter(key, now) => Wait(p, Run(p, calls).streaks, key, now)
    case RecordFailure(key, now) => Delay(p, Bumped(p, Run(p, calls).streaks, key, now).failures)
    case Reset(_, _) => 0.0
  }

  ghost predicate Clocked(calls: seq<Call>) {
    forall i, j :: 0 <= i < j < |calls| ==> calls[i].now <= calls[j].now
  }

  /** `now` is not before any of the calls. */
  ghost predicate Since(calls: seq<Call>, now: real) { forall c <- calls :: c.now <= now }

  // -------------------------------------------------------- the table's order

  ghost predicate Entry(p: Policy, e: Streak, now: real) {
    && e.failures >= 1 && e.lastFailure <= now && e.deadline == e.lastFailure + Delay(p, e.failures)
    && (e.alerted <==> p.hasCallback && e.failures >= p.alertAfter)
  }

  /** Distinct clients, oldest failure first. */
  ghost predicate Ordered(t: seq<Streak>) {
    forall i, j :: 0 <= i < j < |t| ==> t[i].key != t[j].key && t[i].lastFailure <= t[j].lastFailure
  }

  ghost predicate TableOk(p: Policy, t: seq<Streak>, now: real) {
    Ordered(t) && |t| <= p.maxClients && forall e <- t :: Entry(p, e, now)
  }

  lemma {:induction false} LookupFinds(t: seq<Streak>, key: Key)
    ensures Lookup(t, key).None? <==> forall e <- t :: e.key != key
    ensures Lookup(t, key).Some? ==> Lookup(t, key).value in t && Lookup(t, key).value.key == key
    ensures Ordered(t) ==> forall e <- t :: e.key == key ==> Lookup(t, key) == Some(e)
  {
    if t != [] {
      LookupFinds(t[1..], key);
    }
  }

  lemma OrderedCons(e: Streak, t: seq<Streak>)
    requires Ordered(t) && forall x <- t :: e.key != x.key && e.lastFailure <= x.lastFailure
    ensures Ordered([e] + t)
  {
    forall j | 0 < j < |[e] + t| ensures e.key != ([e] + t)[j].key && e.lastFailure <= ([e] + t)[j].lastFailure {
      assert ([e] + t)[j] in t;
    }
  }

  lemma OrderedSnoc(t: seq<Streak>, e: Streak)
    requires Ordered(t) && forall x <- t :: e.key != x.key && x.lastFailure <= e.lastFailure
    ensures Ordered(t + [e])
  {
    forall i | 0 <= i < |t| ensures t[i].key != e.key && t[i].lastFailure <= e.lastFailure {
      assert t[i] in t;
    }
  }

  lemma OrderedHead(t: seq<Streak>)
    requires Ordered(t) && t != []
    ensures Ordered(t[1..]) && forall x <- t[1..] :: t[0].key != x.key && t[0].lastFailure <= x.lastFailure
    ensures forall x :: x in t <==> x == t[0] || x in t[1..]
  {
    assert t == [t[0]] + t[1..];
  }

  lemma {:induction false} RemoveRemoves(t: seq<Streak>, key: Key)
    requires Ordered(t)
    ensures Ordered(Remove(t, key)) && |Remove(t, key)| == |t| - if Lookup(t, key).Some? then 1 else 0
    ensures forall e :: e in Remove(t, key) <==> e in t && e.key != key
  {
    if t != [] {
      OrderedHead(t);
      if t[0].key != key {
        RemoveRemoves(t[1..], key);
        OrderedCons(t[0], Remove(t[1..], key));
      }
    }
  }

  lemma {:induction false} AbsentRemovesNothing(t: seq<Streak>, key: Key)
    ensures Lookup(t, key).None? ==> Remove(t, key) == t
  {
    if t != [] { AbsentRemovesNothing(t[1..], key); }
  }

  function LiveOnly(p: Policy, t: seq<Streak>, now: real): seq<Streak> {
    if t == [] then [] else (if Forgotten(p, t[0], now) then [] else [t[0]]) + LiveOnly(p, t[1..], now)
  }

  /** Because the table is ordered, popping from the front drops every forgotten streak and no other. */
  lemma {:induction false} SweepDropsExactlyTheForgotten(p: Policy, t: seq<Streak>, now: real)
    requires Ordered(t)
    ensures Swept(p, t, now) == LiveOnly(p, t, now)
  {
    if t != [] {
      SweepDropsExactlyTheForgotten(p, t[1..], now);
      if !Forgotten(p, t[0], now) {
        forall e <- t ensures !Forgotten(p, e, now) {}
        AllLive(p, t, now);
      }
    }
  }

  lemma {:induction false} AllLive(p: Policy, t: seq<Streak>, now: real)
    requires forall e <- t :: !Forgotten(p, e, now)
    ensures LiveOnly(p, t, now) == t
  {
    if t != [] {
      AllLive(p, t[1..], now);
    }
  }

  lemma {:induction false} LiveOnlyMembers(p: Policy, t: seq<Streak>, now: real)
    requires Ordered(t)
    ensures forall e :: e in LiveOnly(p, t, now) <==> e in t && !Forgotten(p, e, now)
    ensures Ordered(LiveOnly(p, t, now)) && |LiveOnly(p, t, now)| <= |t|
  {
    if t != [] {
      OrderedHead(t);
      LiveOnlyMembers(p, t[1..], now);
      if !Forgotten(p, t[0], now) { OrderedCons(t[0], LiveOnly(p, t[1..], now)); }
    }
  }

  /** Making room keeps every live streak, except that a table full of live ones loses its oldest. */
  lemma RoomIsMadeFairly(p: Policy, t: seq<Streak>, now: real)
    requires p.Valid() && Ordered(t) && |t| <= p.maxClients
    ensures var live, r := LiveOnly(p, t, now), RoomMade(p, t, now);
      && |r| < p.maxClients && Ordered(r)
      && (|live| < p.maxClients ==> r == live)
      && (|live| == p.maxClients ==> t == live && r == t[1..] && forall e <- r :: t[0].lastFailure <= e.lastFailure)
      && (forall e <- r :: e in t)
  {
    SweepDropsExactlyTheForgotten(p, t, now);
    LiveOnlyMembers(p, t, now);
    LiveOnlyIsAll(p, t, now);
    if |LiveOnly(p, t, now)| == p.maxClients { OrderedHead(t); }
  }

  lemma {:induction false} LiveOnlyIsAll(p: Policy, t: seq<Streak>, now: real)
    ensures |LiveOnly(p, t, now)| <= |t|
    ensures |LiveOnly(p, t, now)| == |t| ==> LiveOnly(p, t, now) == t
  {
    if t != [] {
      LiveOnlyIsAll(p, t[1..], now);
    }
  }

  // ------------------------------------------- the unbounded reference model

  /** The times of the client's failures since its last reset, with no bound and nothing forgotten. */
  function History(calls: seq<Call>, key: Key): seq<real> {
    if calls == [] then []
    else
      var before, c := History(calls[..|calls|-1], key), calls[|calls|-1];
      if c.key != key then before
      else match c
        case RetryAfter(_, _) => before
        case RecordFailure(_, now) => before + [now]
        case Reset(_, _) => []
  }

  /** The failures after the last gap of at least `forget`. */
  function StreakLength(p: Policy, h: seq<real>): nat {
    if |h| <= 1 then |h|
    else if h[|h|-1] - h[|h|-2] >= p.forget then 1
    else StreakLength(p, h[..|h|-1]) + 1
  }

  /** The wait the history alone imposes: no table, no sweeping, and no forgetting of an idle streak. */
  function ReferenceWait(p: Policy, h: seq<real>, now: real): real {
    if h == [] then 0.0 else Max(0.0, h[|h|-1] + Delay(p, StreakLength(p, h)) - now)
  }

  function ReferenceAnswer(p: Policy, calls: seq<Call>, c: Call): real {
    match c
    case RetryAfter(key, now) => ReferenceWait(p, History(calls, key), now)
    case RecordFailure(key, now) => Delay(p, StreakLength(p, History(calls, key) + [now]))
    case Reset(_, _) => 0.0
  }

  /** The call finds the table full of live streaks and has to drop one. */
  predicate EvictsLive(p: Policy, t: seq<Streak>, c: Call) {
    && c.RecordFailure?
    && LiveStreak(p, t, c.key, c.now).None?
    && |LiveOnly(p, Remove(t, c.key), c.now)| >= p.maxClients
  }

  ghost predicate NoLiveEviction(p: Policy, calls: seq<Call>) {
    forall i :: 0 <= i < |calls| ==> !EvictsLive(p, Run(p, calls[..i]).streaks, calls[i])
  }

  /** The table entry of a client and its history tell the same story. */
  ghost predicate Mirrors(p: Policy, e: Option<Streak>, h: seq<real>, now: real) {
    match e
    case Some(e) => h != [] && e.lastFailure == h[|h|-1] && e.failures == StreakLength(p, h)
    case None => h != [] ==> now - h[|h|-1] >= p.forget
  }

  ghost predicate Refines(p: Policy, t: seq<Streak>, calls: seq<Call>, now: real) {
    forall key :: Mirrors(p, Lookup(t, key), History(calls, key), now)
  }

  lemma {:induction false} DoubledGrows(p: Policy, j: nat, k: nat)
    requires p.Valid() && j <= k
    ensures p.base <= Doubled(p, j) <= Doubled(p, k)
  {
    if j < k {
      DoubledGrows(p, j, k - 1);
    } else if k > 0 {
      DoubledGrows(p, k - 1, k - 1);
    }
  }

  /** Waits never decrease within a streak and never exceed the maximum. */
  lemma DelayGrows(p: Policy, m: nat, n: nat)
    requires p.Valid() && m <= n
    ensures 0.0 <= Delay(p, m) <= Delay(p, n) <= p.max
    ensures m > p.free ==> Delay(p, m) >= p.base
  {
    if m > p.free { DoubledGrows(p, m - p.free - 1, n - p.free - 1); }
    else if n > p.free { DoubledGrows(p, 0, n - p.free - 1); }
  }

  lemma BumpedMirrors(p: Policy, t: seq<Streak>, key: Key, h: seq<real>, now: real, before: real)
    requires Mirrors(p, Lookup(t, key), h, before) && before <= now
    ensures Bumped(p, t, key, now).lastFailure == now
    ensures Bumped(p, t, key, now).failures == StreakLength(p, h + [now])
  {
    if h != [] { assert (h + [now])[..|h|] == h; }
  }

  /** Forgetting is unobservable: a forgotten streak's wait is over, because max <= forget. */
  lemma WaitMirrors(p: Policy, t: seq<Streak>, key: Key, h: seq<real>, now: real, before: real)
    requires p.Valid() && TableOk(p, t, before) && before <= now
    requires Mirrors(p, Lookup(t, key), h, before)
    ensures Wait(p, t, key, now) == ReferenceWait(p, h, now)
  {
    LookupFinds(t, key);
    DelayGrows(p, StreakLength(p, h), StreakLength(p, h));
  }

  // ----------------------------------------------------------- preservation

  lemma RestOk(p: Policy, t: seq<Streak>, key: Key, now: real)
    requires p.Valid() && TableOk(p, t, now)
    ensures var rest := if LiveStreak(p, t, key, now).Some? then Remove(t, key) else RoomMade(p, Remove(t, key), now);
      && Ordered(rest) && |rest| < p.maxClients && forall e <- rest :: e in t && e.key != key
  {
    LookupFinds(t, key);
    RemoveRemoves(t, key);
    RoomIsMadeFairly(p, Remove(t, key), now);
  }

  lemma BumpedEntry(p: Policy, t: seq<Streak>, key: Key, now: real)
    requires p.Valid() && TableOk(p, t, now)
    ensures var e := Bumped(p, t, key, now);
      && (AlertDue(p, e) ==> e.failures == p.alertAfter && Entry(p, e.(alerted := true), now))
      && (!AlertDue(p, e) ==> Entry(p, e, now))
      && (AlertDue(p, e) <==> p.hasCallback && e.failures == p.alertAfter)
  {
    LookupFinds(t, key);
  }

  lemma TableLater(p: Policy, t: seq<Streak>, now: real, later: real)
    requires TableOk(p, t, now) && now <= later
    ensures TableOk(p, t, later)
  {}

  lemma StepKeepsTable(p: Policy, s: State, c: Call)
    requires p.Valid() && TableOk(p, s.streaks, c.now)
    ensures TableOk(p, Step(p, s, c).streaks, c.now)
  {
    RemoveRemoves(s.streaks, c.key);
    if c.RecordFailure? {
      RestOk(p, s.streaks, c.key, c.now);
      BumpedEntry(p, s.streaks, c.key, c.now);
      var u := Step(p, s, c).streaks;
      assert u == u[..|u|-1] + [u[|u|-1]];
      TableSnoc(p, u[..|u|-1], u[|u|-1], c.now);
    }
  }

  lemma TableSnoc(p: Policy, rest: seq<Streak>, e: Streak, now: real)
    requires TableOk(p, rest, now) && |rest| < p.maxClients && Entry(p, e, now)
    requires e.lastFailure == now && forall x <- rest :: x.key != e.key
    ensures TableOk(p, rest + [e], now)
  {
    OrderedSnoc(rest, e);
  }

  /** Over every run the table stays ordered, bounded and consistent. */
  lemma {:induction false} RunKeepsTable(p: Policy, calls: seq<Call>, now: real)
    requires p.Valid() && Clocked(calls) && Since(calls, now)
    ensures TableOk(p, Run(p, calls).streaks, now)
  {
    if calls != [] {
      var before, c := calls[..|calls|-1], calls[|calls|-1];
      RunKeepsTable(p, before, c.now);
      StepKeepsTable(p, Run(p, before), c);
      TableLater(p, Run(p, calls).streaks, c.now, now);
    }
  }

  /** Of the other clients, a step drops only forgotten streaks. */
  ghost predicate Keeps(p: Policy, t: seq<Streak>, u: seq<Streak>, key: Key, now: real) {
    forall e: Streak :: e.key != key ==> (e in u ==> e in t) && (e in t && e !in u ==> Forgotten(p, e, now))
  }

  lemma StepKeepsOthers(p: Policy, s: State, c: Call)
    requires p.Valid() && TableOk(p, s.streaks, c.now) && !EvictsLive(p, s.streaks, c)
    ensures Keeps(p, s.streaks, Step(p, s, c).streaks, c.key, c.now)
  {
    var t := s.streaks;
    RemoveRemoves(t, c.key);
    if c.RecordFailure? && LiveStreak(p, t, c.key, c.now).None? {
      RoomIsMadeFairly(p, Remove(t, c.key), c.now);
      LiveOnlyMembers(p, Remove(t, c.key), c.now);
    }
  }

  lemma OtherMirrors(p: Policy, t: seq<Streak>, u: seq<Streak>, key: Key, k: Key, h: seq<real>, before: real, now: real)
    requires Ordered(t) && Ordered(u) && Keeps(p, t, u, key, now) && k != key && before <= now
    requires Mirrors(p, Lookup(t, k), h, before)
    ensures Mirrors(p, Lookup(u, k), h, now)
  {
    LookupFinds(t, k);
    LookupFinds(u, k);
  }

  lemma OwnMirrors(p: Policy, s: State, c: Call, h: seq<real>, before: real)
    requires p.Valid() && TableOk(p, s.streaks, c.now) && before <= c.now
    requires Mirrors(p, Lookup(s.streaks, c.key), h, before)
    ensures var h' := match c case RetryAfter(_, _) => h case RecordFailure(_, now) => h + [now] case Reset(_, _) => [];
      Mirrors(p, Lookup(Step(p, s, c).streaks, c.key), h', c.now)
  {
    var u := Step(p, s, c).streaks;
    StepKeepsTable(p, s, c);
    LookupFinds(s.streaks, c.key);
    RemoveRemoves(s.streaks, c.key);
    LookupFinds(u, c.key);
    if c.RecordFailure? {
      BumpedMirrors(p, s.streaks, c.key, h, c.now, before);
      assert u[|u|-1] in u && u[|u|-1].key == c.key;
    }
  }

  lemma StepRefines(p: Policy, s: State, calls: seq<Call>, c: Call, before: real)
    requires p.Valid() && TableOk(p, s.streaks, c.now) && before <= c.now
    requires Refines(p, s.streaks, calls, before) && !EvictsLive(p, s.streaks, c)
    ensures Refines(p, Step(p, s, c).streaks, calls + [c], c.now)
  {
    assert (calls + [c])[..|calls|] == calls;
    StepKeepsOthers(p, s, c);
    StepKeepsTable(p, s, c);
    OwnMirrors(p, s, c, History(calls, c.key), before);
    forall k | k != c.key ensures Mirrors(p, Lookup(Step(p, s, c).streaks, k), History(calls + [c], k), c.now) {
      OtherMirrors(p, s.streaks, Step(p, s, c).streaks, c.key, k, History(calls, k), before, c.now);
    }
  }

  lemma Unsnoc(calls: seq<Call>)
    requires calls != []
    ensures calls == calls[..|calls|-1] + [calls[|calls|-1]]
  {}

  lemma EvictionPrefix(p: Policy, calls: seq<Call>)
    requires calls != [] && NoLiveEviction(p, calls)
    ensures NoLiveEviction(p, calls[..|calls|-1])
    ensures !EvictsLive(p, Run(p, calls[..|calls|-1]).streaks, calls[|calls|-1])
  {
    var before := calls[..|calls|-1];
    forall i | 0 <= i < |before| ensures !EvictsLive(p, Run(p, before[..i]).streaks, before[i]) {
      assert before[..i] == calls[..i];
    }
  }

  lemma {:induction false} RunRefines(p: Policy, calls: seq<Call>, now: real)
    requires p.Valid() && Clocked(calls) && Since(calls, now) && NoLiveEviction(p, calls)
    ensures Refines(p, Run(p, calls).streaks, calls, now)
  {
    if calls != [] {
      var before, c := calls[..|calls|-1], calls[|calls|-1];
      EvictionPrefix(p, calls);
      RunRefines(p, before, c.now);
      RunKeepsTable(p, before, c.now);
      Unsnoc(calls);
      StepRefines(p, Run(p, before), before, c, c.now);
      RefinesLater(p, Run(p, calls).streaks, calls, c.now, now);
    }
  }

  lemma RefinesLater(p: Policy, t: seq<Streak>, calls: seq<Call>, now: real, later: real)
    requires Refines(p, t, calls, now) && now <= later
    ensures Refines(p, t, calls, later)
  {
    forall key ensures Mirrors(p, Lookup(t, key), History(calls, key), later) {
      assert Mirrors(p, Lookup(t, key), History(calls, key), now);
    }
  }

  // ------------------------------------------------------------ main results

  /** Refinement: as long as no live streak had to be evicted, every call answers as the unbounded
      history would. Forgetting, lazy deletion and sweeping cannot be observed. */
  lemma AnswersComeFromHistory(p: Policy, calls: seq<Call>, c: Call)
    requires p.Valid() && Clocked(calls) && Since(calls, c.now) && NoLiveEviction(p, calls)
    ensures Answer(p, calls, c) == ReferenceAnswer(p, calls, c)
  {
    RunRefines(p, calls, c.now);
    RunKeepsTable(p, calls, c.now);
    var t, h := Run(p, calls).streaks, History(calls, c.key);
    assert Mirrors(p, Lookup(t, c.key), h, c.now);
    match c
    case RetryAfter(key, now) => WaitMirrors(p, t, key, h, now, now);
    case RecordFailure(key, now) => BumpedMirrors(p, t, key, h, now, now);
    case Reset(_, _) =>
  }

  function Only(calls: seq<Call>, key: Key): seq<Call> {
    if calls == [] then []
    else Only(calls[..|calls|-1], key) + if calls[|calls|-1].key == key then [calls[|calls|-1]] else []
  }

  lemma {:induction false} OnlyKeepsHistory(calls: seq<Call>, key: Key)
    ensures History(Only(calls, key), key) == History(calls, key)
  {
    if calls != [] {
      var before, c := calls[..|calls|-1], calls[|calls|-1];
      OnlyKeepsHistory(before, key);
      var o := Only(before, key);
      assert (o + [c])[..|o|] == o;
      assert o + [] == o;
    }
  }

  lemma {:induction false} OnlyThose(calls: seq<Call>, key: Key)
    ensures forall c <- Only(calls, key) :: c in calls && c.key == key
  {
    if calls != [] { OnlyThose(calls[..|calls|-1], key); }
  }

  lemma {:induction false} OnlyInOrder(calls: seq<Call>, key: Key)
    requires Clocked(calls)
    ensures Clocked(Only(calls, key))
  {
    if calls != [] {
      var before, c := calls[..|calls|-1], calls[|calls|-1];
      OnlyInOrder(before, key);
      OnlyThose(before, key);
      var o := Only(before, key);
      forall i | 0 <= i < |o| ensures o[i].now <= c.now {
        assert o[i] in before;
      }
    }
  }

  lemma SomeMember(t: seq<Streak>)
    ensures t != [] ==> exists e :: e in t
  {
    if t != [] { assert t[0] in t; }
  }

  lemma NothingToEvict(p: Policy, t: seq<Streak>, c: Call)
    requires p.Valid() && forall e :: e !in Remove(t, c.key)
    ensures !EvictsLive(p, t, c)
  {
    SomeMember(Remove(t, c.key));
  }

  /** A client alone never finds the table full. */
  lemma {:induction false} AloneNothingIsEvicted(p: Policy, calls: seq<Call>, key: Key)
    requires p.Valid() && Clocked(calls) && forall c <- calls :: c.key == key
    ensures NoLiveEviction(p, calls)
  {
    forall i | 0 <= i < |calls| ensures !EvictsLive(p, Run(p, calls[..i]).streaks, calls[i]) {
      AloneInTable(p, calls[..i], key, calls[i].now);
      RunKeepsTable(p, calls[..i], calls[i].now);
      OnlyOwnStreak(Run(p, calls[..i]).streaks, key);
      NothingToEvict(p, Run(p, calls[..i]).streaks, calls[i]);
    }
  }

  lemma OnlyOwnStreak(t: seq<Streak>, key: Key)
    requires Ordered(t) && forall e <- t :: e.key == key
    ensures forall e :: e !in Remove(t, key)
  {
    RemoveRemoves(t, key);
  }

  lemma {:induction false} AloneInTable(p: Policy, calls: seq<Call>, key: Key, now: real)
    requires p.Valid() && Clocked(calls) && Since(calls, now) && forall c <- calls :: c.key == key
    ensures forall e <- Run(p, calls).streaks :: e.key == key
  {
    if calls != [] {
      var before, c := calls[..|calls|-1], calls[|calls|-1];
      AloneInTable(p, before, key, c.now);
      RunKeepsTable(p, before, c.now);
      OneKeyStep(p, Run(p, before), c);
    }
  }

  lemma OneKeyStep(p: Policy, s: State, c: Call)
    requires p.Valid() && TableOk(p, s.streaks, c.now) && forall e <- s.streaks :: e.key == c.key
    ensures forall e <- Step(p, s, c).streaks :: e.key == c.key
  {
    RemoveRemoves(s.streaks, c.key);
    if c.RecordFailure? { RestOk(p, s.streaks, c.key, c.now); }
  }

  /** Clients do not affect each other: deleting every other client's calls changes no answer. */
  lemma {:induction false} ClientsAreIndependent(p: Policy, calls: seq<Call>, c: Call)
    requires p.Valid() && Clocked(calls) && Since(calls, c.now) && NoLiveEviction(p, calls)
    ensures Answer(p, calls, c) == Answer(p, Only(calls, c.key), c)
  {
    OnlyKeepsHistory(calls, c.key);
    OnlyThose(calls, c.key);
    OnlyInOrder(calls, c.key);
    AloneNothingIsEvicted(p, Only(calls, c.key), c.key);
    AnswersComeFromHistory(p, calls, c);
    AnswersComeFromHistory(p, Only(calls, c.key), c);
  }

  /** Another client's live streak is dropped only to make room in a table full of live streaks,
      and then it is the one whose last failure is oldest. */
  lemma EvictionIsTheLastResort(p: Policy, s: State, c: Call, e: Streak)
    requires p.Valid() && TableOk(p, s.streaks, c.now)
    requires e in s.streaks && e.key != c.key && !Forgotten(p, e, c.now) && e !in Step(p, s, c).streaks
    ensures c.RecordFailure? && |s.streaks| == p.maxClients
    ensures forall x <- s.streaks :: x.key != c.key && !Forgotten(p, x, c.now) && e.lastFailure <= x.lastFailure
  {
    var t, rest := s.streaks, Remove(s.streaks, c.key);
    RemoveRemoves(t, c.key);
    assert e in rest;
    match c
    case RetryAfter(key, now) =>
    case Reset(key, _) =>
    case RecordFailure(key, now) =>
      var made := if LiveStreak(p, t, key, now).Some? then rest else RoomMade(p, rest, now);
      assert made <= Step(p, s, c).streaks;
      assert forall x <- made :: x in Step(p, s, c).streaks;
      OldestOfFull(p, rest, now, e);
      LookupFinds(t, key);
  }

  lemma OldestOfFull(p: Policy, t: seq<Streak>, now: real, e: Streak)
    requires p.Valid() && Ordered(t) && |t| <= p.maxClients && e in t && !Forgotten(p, e, now)
    requires e !in RoomMade(p, t, now)
    ensures |t| == p.maxClients && forall x <- t :: !Forgotten(p, x, now) && e.lastFailure <= x.lastFailure
  {
    RoomIsMadeFairly(p, t, now);
    LiveOnlyMembers(p, t, now);
    OrderedHead(t);
  }

  // ------------------------------------------------------------------ alerts

  /** The alert a call raises, with its time, if it raises one. */
  function AlertOf(p: Policy, s: State, c: Call): seq<(real, Alert)> {
    if !c.RecordFailure? then []
    else match RaisedAlert(p, s, c.key, c.now)
      case None => []
      case Some(a) => [(c.now, a)]
  }

  /** The alerts raised, with their times. */
  function Alerts(p: Policy, calls: seq<Call>): seq<(real, Alert)> {
    if calls == [] then []
    else
      var before, c := calls[..|calls|-1], calls[|calls|-1];
      Alerts(p, before) + AlertOf(p, Run(p, before), c)
  }

  /** The call makes a streak reach the alert threshold. */
  predicate Reaches(p: Policy, s: State, c: Call) {
    c.RecordFailure? && Bumped(p, s.streaks, c.key, c.now).failures == p.alertAfter
  }

  /** How many streaks have reached the alert threshold. */
  function Reached(p: Policy, calls: seq<Call>): nat {
    if calls == [] then 0
    else
      var before, c := calls[..|calls|-1], calls[|calls|-1];
      Reached(p, before) + if Reaches(p, Run(p, before), c) then 1 else 0
  }

  /** How many streaks the alerts speak for: one each, plus those they report as held back. */
  function Told(alerts: seq<(real, Alert)>): nat {
    if alerts == [] then 0 else Told(alerts[..|alerts|-1]) + 1 + alerts[|alerts|-1].1.suppressed
  }

  lemma {:induction false} ToldConcat(a: seq<(real, Alert)>, b: seq<(real, Alert)>)
    ensures Told(a + b) == Told(a) + Told(b)
    decreases |b|
  {
    if b == [] {
      assert a + b == a;
    } else {
      assert (a + b)[..|a + b|-1] == a + b[..|b|-1];
      ToldConcat(a, b[..|b|-1]);
    }
  }

  /** One call: what it makes reach the threshold it tells of, or adds to what is held back. */
  lemma AlertStep(p: Policy, s: State, c: Call)
    requires p.Valid() && p.hasCallback && TableOk(p, s.streaks, c.now)
    ensures Told(AlertOf(p, s, c)) + Step(p, s, c).suppressed == s.suppressed + if Reaches(p, s, c) then 1 else 0
    ensures forall a <- AlertOf(p, s, c) :: a.1.failures == p.alertAfter
  {
    BumpedEntry(p, s.streaks, c.key, c.now);
    if AlertOf(p, s, c) != [] {
      assert AlertOf(p, s, c)[..0] == [];
    }
  }

  /** No alert is lost or told twice: every streak that reached the threshold is spoken for by
      exactly one alert or still pending, and each alert reports exactly the threshold. */
  lemma {:induction false} AlertsAreConserved(p: Policy, calls: seq<Call>)
    requires p.Valid() && p.hasCallback && Clocked(calls)
    ensures Reached(p, calls) == Told(Alerts(p, calls)) + Run(p, calls).suppressed
    ensures forall a <- Alerts(p, calls) :: a.1.failures == p.alertAfter
  {
    if calls != [] {
      var before, c := calls[..|calls|-1], calls[|calls|-1];
      AlertsAreConserved(p, before);
      RunKeepsTable(p, before, c.now);
      AlertStep(p, Run(p, before), c);
      ToldConcat(Alerts(p, before), AlertOf(p, Run(p, before), c));
    }
  }

  /** The alerts are a cooldown apart, and the last one's time is remembered. */
  ghost predicate Distant(p: Policy, lastAlert: Option<real>, alerts: seq<(real, Alert)>) {
    && lastAlert == (if alerts == [] then None else Some(alerts[|alerts|-1].0))
    && (forall i :: 0 < i < |alerts| ==> alerts[i].0 - alerts[i-1].0 >= p.cooldown)
  }

  lemma DistantStep(p: Policy, s: State, c: Call, alerts: seq<(real, Alert)>)
    requires p.Valid() && Distant(p, s.lastAlert, alerts)
    ensures Distant(p, Step(p, s, c).lastAlert, alerts + AlertOf(p, s, c))
  {
    assert alerts + [] == alerts;
    if AlertOf(p, s, c) != [] { DistantSnoc(p, s.lastAlert, alerts, AlertOf(p, s, c)[0]); }
  }

  lemma DistantSnoc(p: Policy, lastAlert: Option<real>, alerts: seq<(real, Alert)>, a: (real, Alert))
    requires Distant(p, lastAlert, alerts) && (lastAlert.Some? ==> a.0 - lastAlert.value >= p.cooldown)
    ensures Distant(p, Some(a.0), alerts + [a])
  {}

  lemma {:induction false} RunIsDistant(p: Policy, calls: seq<Call>)
    requires p.Valid()
    ensures Distant(p, Run(p, calls).lastAlert, Alerts(p, calls))
  {
    if calls != [] {
      var before, c := calls[..|calls|-1], calls[|calls|-1];
      RunIsDistant(p, before);
      DistantStep(p, Run(p, before), c, Alerts(p, before));
    }
  }

  lemma {:induction false} DistancesAdd(p: Policy, alerts: seq<(real, Alert)>, i: nat, j: nat)
    requires p.Valid() && i < j < |alerts|
    requires forall k :: 0 < k < |alerts| ==> alerts[k].0 - alerts[k-1].0 >= p.cooldown
    ensures alerts[j].0 - alerts[i].0 >= p.cooldown
  {
    if i + 1 < j { DistancesAdd(p, alerts, i, j - 1); }
  }

  ghost predicate AllApart(p: Policy, alerts: seq<(real, Alert)>) {
    forall i, j :: 0 <= i < j < |alerts| ==> alerts[j].0 - alerts[i].0 >= p.cooldown
  }

  /** Any two alerts are at least the cooldown apart, and the last one's time is the one remembered. */
  lemma AlertsKeepTheirDistance(p: Policy, calls: seq<Call>)
    requires p.Valid()
    ensures AllApart(p, Alerts(p, calls))
    ensures Run(p, calls).lastAlert == LastTime(Alerts(p, calls))
  {
    RunIsDistant(p, calls);
    DistantMeans(p, Run(p, calls).lastAlert, Alerts(p, calls));
  }

  function LastTime(alerts: seq<(real, Alert)>): Option<real> {
    if alerts == [] then None else Some(alerts[|alerts|-1].0)
  }

  lemma DistantMeans(p: Policy, lastAlert: Option<real>, alerts: seq<(real, Alert)>)
    requires p.Valid() && Distant(p, lastAlert, alerts)
    ensures AllApart(p, alerts) && lastAlert == LastTime(alerts)
  {
    forall i, j | 0 <= i < j < |alerts| ensures alerts[j].0 - alerts[i].0 >= p.cooldown {
      DistancesAdd(p, alerts, i, j);
    }
  }

  /** No alert so far is less than the cooldown ago. */
  ghost predicate Rested(p: Policy, alerts: seq<(real, Alert)>, now: real) {
    forall a <- alerts :: now - a.0 >= p.cooldown
  }

  lemma RestedMeans(p: Policy, alerts: seq<(real, Alert)>, now: real)
    requires p.Valid() && AllApart(p, alerts)
    ensures Rested(p, alerts, now) <==> LastTime(alerts).None? || now - LastTime(alerts).value >= p.cooldown
  {
    if alerts != [] {
      var last := alerts[|alerts|-1];
      assert last in alerts;
      forall i | 0 <= i < |alerts| ensures alerts[i].0 <= last.0 {}
    }
  }

  /** A streak reaches the threshold, someone is to be told, and the cooldown of every alert so far is over. */
  ghost predicate Warns(p: Policy, calls: seq<Call>, c: Call) {
    p.hasCallback && Reaches(p, Run(p, calls), c) && Rested(p, Alerts(p, calls), c.now)
  }

  lemma CoolingMeans(p: Policy, calls: seq<Call>, now: real)
    requires p.Valid()
    ensures Cooling(p, Run(p, calls), now) <==> !Rested(p, Alerts(p, calls), now)
  {
    AlertsKeepTheirDistance(p, calls);
    RestedMeans(p, Alerts(p, calls), now);
  }

  /** Alerts go out exactly when a streak reaches the threshold outside the cooldown; each names that
      client and tells of all streaks no earlier alert has spoken for. */
  lemma {:induction false} AlertsGoOutExactly(p: Policy, calls: seq<Call>, c: Call)
    requires p.Valid() && Clocked(calls) && Since(calls, c.now)
    ensures var before, after := Alerts(p, calls), Alerts(p, calls + [c]);
      && (!Warns(p, calls, c) ==> after == before)
      && (p.hasCallback ==> Told(before) <= Reached(p, calls))
      && (Warns(p, calls, c) ==>
            after == before + [(c.now, Alert(c.key, p.alertAfter, Reached(p, calls) - Told(before)))])
  {
    AlertsSnoc(p, calls, c);
    WarnsMeans(p, calls, c);
    if p.hasCallback { AlertsAreConserved(p, calls); }
    NothingAdded(Alerts(p, calls));
  }

  lemma NothingAdded(alerts: seq<(real, Alert)>)
    ensures alerts + [] == alerts
  {}

  lemma AlertsSnoc(p: Policy, calls: seq<Call>, c: Call)
    ensures Alerts(p, calls + [c]) == Alerts(p, calls) + AlertOf(p, Run(p, calls), c)
  {
    assert (calls + [c])[..|calls|] == calls;
  }

  lemma WarnsMeans(p: Policy, calls: seq<Call>, c: Call)
    requires p.Valid() && Clocked(calls) && Since(calls, c.now)
    ensures AlertOf(p, Run(p, calls), c) ==
      if Warns(p, calls, c) then [(c.now, Alert(c.key, p.alertAfter, Run(p, calls).suppressed))] else []
  {
    RunKeepsTable(p, calls, c.now);
    CoolingMeans(p, calls, c.now);
    AlertOfOneCall(p, Run(p, calls), c);
  }

  lemma AlertOfOneCall(p: Policy, s: State, c: Call)
    requires p.Valid() && TableOk(p, s.streaks, c.now)
    ensures AlertOf(p, s, c) == if p.hasCallback && Reaches(p, s, c) && !Cooling(p, s, c.now)
      then [(c.now, Alert(c.key, p.alertAfter, s.suppressed))] else []
  {
    BumpedEntry(p, s.streaks, c.key, c.now);
  }

  /** While no live streak has to be evicted, the failures that reach the threshold are those the
      unbounded history counts as such. */
  lemma ReachingComesFromHistory(p: Policy, calls: seq<Call>, c: Call)
    requires p.Valid() && Clocked(calls) && Since(calls, c.now) && NoLiveEviction(p, calls)
    ensures Reaches(p, Run(p, calls), c) <==>
      c.RecordFailure? && StreakLength(p, History(calls, c.key) + [c.now]) == p.alertAfter
  {
    RunRefines(p, calls, c.now);
    assert Mirrors(p, Lookup(Run(p, calls).streaks, c.key), History(calls, c.key), c.now);
    BumpedMirrors(p, Run(p, calls).streaks, c.key, History(calls, c.key), c.now, c.now);
  }

  // -------------------------------------------------------- the guess rate

  function TotalDelay(p: Policy, n: nat): real {
    if n == 0 then 0.0 else TotalDelay(p, n - 1) + Delay(p, n)
  }

  /** Every failure of the client happens when it is allowed to try. */
  ghost predicate Patient(p: Policy, calls: seq<Call>, key: Key) {
    forall i :: 0 <= i < |calls| && calls[i].RecordFailure? && calls[i].key == key ==>
      Answer(p, calls[..i], RetryAfter(key, calls[i].now)) == 0.0
  }

  /** Whatever else a step does, other than to count a failure of `key`, it keeps that streak or drops it. */
  lemma StreakStays(p: Policy, s: State, c: Call, key: Key)
    requires p.Valid() && TableOk(p, s.streaks, c.now) && !(c.RecordFailure? && c.key == key)
    ensures Lookup(Step(p, s, c).streaks, key) in {None, Lookup(s.streaks, key)}
  {
    var t, u := s.streaks, Step(p, s, c).streaks;
    StepKeepsTable(p, s, c);
    RemoveRemoves(t, c.key);
    LookupFinds(t, key);
    LookupFinds(u, key);
    if c.RecordFailure? { RestOk(p, t, c.key, c.now); }
    assert forall e <- u :: e.key == key ==> e in t;
  }

  /** A streak of the table counts the client's latest failures, and the i-th after its first comes
      at least the sum of the first i delays after it. */
  ghost predicate Spaced(p: Policy, e: Option<Streak>, h: seq<real>) {
    e.Some? ==>
      var n := e.value.failures;
      && 1 <= n <= |h| && h[|h|-1] == e.value.lastFailure
      && forall i :: 0 <= i < n ==> h[|h|-n+i] - h[|h|-n] >= TotalDelay(p, i)
  }

  lemma PatientFailure(p: Policy, s: State, key: Key, now: real, h: seq<real>)
    requires p.Valid() && TableOk(p, s.streaks, now) && Wait(p, s.streaks, key, now) == 0.0
    requires Spaced(p, Lookup(s.streaks, key), h)
    ensures Spaced(p, Lookup(Step(p, s, RecordFailure(key, now)).streaks, key), h + [now])
  {
    var t, u := s.streaks, Step(p, s, RecordFailure(key, now)).streaks;
    StepKeepsTable(p, s, RecordFailure(key, now));
    LookupFinds(t, key);
    LookupFinds(u, key);
    assert u[|u|-1] in u && u[|u|-1].key == key;
  }

  /** Over every run, evictions included: a client that only tries when allowed has the n-th failure
      of its streak at least the sum of the first n-1 delays after the first. */
  lemma {:induction false} FailuresAreSpaced(p: Policy, calls: seq<Call>, key: Key, now: real)
    requires p.Valid() && Clocked(calls) && Since(calls, now) && Patient(p, calls, key)
    ensures Spaced(p, Lookup(Run(p, calls).streaks, key), History(calls, key))
  {
    if calls != [] {
      var before, c := calls[..|calls|-1], calls[|calls|-1];
      PatientPrefix(p, calls, key);
      FailuresAreSpaced(p, before, key, c.now);
      RunKeepsTable(p, before, c.now);
      if c.RecordFailure? && c.key == key {
        assert Answer(p, calls[..|before|], RetryAfter(key, c.now)) == 0.0;
        PatientFailure(p, Run(p, before), key, c.now, History(before, key));
      } else {
        StreakStays(p, Run(p, before), c, key);
        if c.Reset? && c.key == key { ResetDrops(p, Run(p, before), c); }
      }
    }
  }

  lemma ResetDrops(p: Policy, s: State, c: Call)
    requires Ordered(s.streaks) && c.Reset?
    ensures Lookup(Step(p, s, c).streaks, c.key).None?
  {
    RemoveRemoves(s.streaks, c.key);
    LookupFinds(Remove(s.streaks, c.key), c.key);
  }

  lemma PatientPrefix(p: Policy, calls: seq<Call>, key: Key)
    requires calls != [] && Patient(p, calls, key)
    ensures Patient(p, calls[..|calls|-1], key)
  {
    var before := calls[..|calls|-1];
    forall i | 0 <= i < |before| && before[i].RecordFailure? && before[i].key == key
      ensures Answer(p, before[..i], RetryAfter(key, before[i].now)) == 0.0
    {
      assert before[..i] == calls[..i];
    }
  }

  /** The sum in closed form: nothing while free, base * (2^m - 1) after m uncapped delays, then the maximum each. */
  lemma {:induction false} TotalDelayClosedForm(p: Policy, n: nat)
    requires p.Valid()
    ensures n <= p.free ==> TotalDelay(p, n) == 0.0
    ensures n > p.free && Doubled(p, n - p.free - 1) <= p.max ==> TotalDelay(p, n) == Doubled(p, n - p.free) - p.base
    ensures n > p.free && Doubled(p, n - p.free - 1) >= p.max ==> TotalDelay(p, n) == TotalDelay(p, n - 1) + p.max
  {
    if n > 0 {
      TotalDelayClosedForm(p, n - 1);
      if n - 1 > p.free { DoubledGrows(p, n - p.free - 2, n - p.free - 1); }
    }
  }

  /** A look at a client deletes its streak exactly when it is forgotten, and touches no other. */
  lemma LookingForgets(p: Policy, s: State, key: Key, now: real)
    requires Ordered(s.streaks)
    ensures forall e :: e in Step(p, s, RetryAfter(key, now)).streaks <==>
      e in s.streaks && !(e.key == key && now - e.lastFailure >= p.forget)
  {
    LookupFinds(s.streaks, key);
    RemoveRemoves(s.streaks, key);
  }

  // -------------------------------------------------------------- Retry-After

  function Ceiling(x: real): int { if x.Floor as real == x then x.Floor else x.Floor + 1 }

  /** Whole seconds, at least one (section 10.2.3 of RFC 9110). */
  function RetryAfterSeconds(wait: real): (n: int)
    ensures n >= 1 && n as real >= wait && (n > 1 ==> n as real < wait + 1.0)
  {
    var n := Ceiling(wait);
    if n >= 1 then n else 1
  }

  lemma {:induction false} StreakStaysMeanwhile(p: Policy, calls: seq<Call>, later: seq<Call>, key: Key)
    requires p.Valid() && Clocked(calls + later)
    requires forall c <- later :: c.key == key ==> !c.RecordFailure?
    ensures Lookup(Run(p, calls + later).streaks, key) in {None, Lookup(Run(p, calls).streaks, key)}
    decreases |later|
  {
    if later == [] {
      assert calls + later == calls;
    } else {
      var c, before := later[|later|-1], calls + later[..|later|-1];
      assert (calls + later)[..|calls + later|-1] == before && (calls + later)[|before|] == c;
      StreakStaysMeanwhile(p, calls, later[..|later|-1], key);
      RunKeepsTable(p, before, c.now);
      StreakStays(p, Run(p, before), c, key);
    }
  }

  /** Waiting the advertised seconds without another failure always brings the wait to 0, whatever
      others do: the streak can only stay, be forgotten or be evicted. */
  lemma {:induction false} RetryAfterIsEnough(p: Policy, calls: seq<Call>, later: seq<Call>, key: Key, now: real,
                                              then_: real)
    requires p.Valid() && Clocked(calls + later)
    requires forall c <- later :: c.key == key ==> !c.RecordFailure?
    requires then_ >= now + RetryAfterSeconds(Answer(p, calls, RetryAfter(key, now))) as real
    ensures Answer(p, calls + later, RetryAfter(key, then_)) == 0.0
  {
    StreakStaysMeanwhile(p, calls, later, key);
  }

  // ---------------------------------------------------------------- the class

  class LoginLockout {
    const policy: Policy
    var streaks: seq<Streak>
    var lastAlert: Option<real>
    var suppressed: nat

    function View(): State
      reads this
    {
      State(streaks, lastAlert, suppressed)
    }

    constructor (policy: Policy)
      requires policy.Valid()
      ensures this.policy == policy && View() == EMPTY
    {
      this.policy := policy;
      streaks, lastAlert, suppressed := [], None, 0;
    }

    method RetryAfter(key: Key, now: real) returns (wait: real)
      modifies this`streaks
      ensures View() == Step(policy, old(View()), Call.RetryAfter(key, now))
      ensures wait == Wait(policy, old(streaks), key, now)
    {
      var streak := Live(key, now);
      wait := if streak.Some? then Max(0.0, streak.value.deadline - now) else 0.0;
    }

    method RecordFailure(key: Key, now: real) returns (delay: real, alert: Option<Alert>)
      modifies this
      ensures View() == Step(policy, old(View()), Call.RecordFailure(key, now))
      ensures delay == Delay(policy, Bumped(policy, old(streaks), key, now).failures)
      ensures alert == RaisedAlert(policy, old(View()), key, now)
    {
      var streak := Live(key, now);
      if streak.None? {
        MakeRoom(now);
        streak := Some(Streak(key, 0, 0.0, 0.0, false));
      } else {
        streaks := Remove(streaks, key);
      }
      var failures := streak.value.failures + 1;
      var over := failures - policy.free;
      delay := if over > 0 then Min(Doubled(policy, over - 1), policy.max) else 0.0;
      var entry := Streak(key, failures, now + delay, now, streak.value.alerted);
      alert, entry := TakeAlert(entry, now);
      streaks := streaks + [entry];
    }

    method Reset(key: Key, now: real)
      modifies this`streaks
      ensures View() == Step(policy, old(View()), Call.Reset(key, now))
    {
      streaks := Remove(streaks, key);
    }

    method Live(key: Key, now: real) returns (streak: Option<Streak>)
      modifies this`streaks
      ensures streak == LiveStreak(policy, old(streaks), key, now)
      ensures streaks == Checked(policy, old(streaks), key, now)
    {
      AbsentRemovesNothing(streaks, key);
      streak := Lookup(streaks, key);
      if streak.Some? && now - streak.value.lastFailure >= policy.forget {
        streaks := Remove(streaks, key);
        streak := None;
      }
    }

    method MakeRoom(now: real)
      modifies this`streaks
      ensures streaks == RoomMade(policy, old(streaks), now)
    {
      while streaks != []
        invariant Swept(policy, streaks, now) == Swept(policy, old(streaks), now)
        decreases |streaks|
      {
        if now - streaks[0].lastFailure < policy.forget {
          break;
        }
        streaks := streaks[1..];
      }
      if |streaks| >= policy.maxClients && streaks != [] {
        streaks := streaks[1..];
      }
    }

    method TakeAlert(streak: Streak, now: real) returns (alert: Option<Alert>, entry: Streak)
      modifies this`lastAlert, this`suppressed
      ensures alert == if AlertDue(policy, streak) && !Cooling(policy, old(View()), now)
        then Some(Alert(streak.key, streak.failures, old(suppressed))) else None
      ensures entry == if AlertDue(policy, streak) then streak.(alerted := true) else streak
      ensures lastAlert == if alert.Some? then Some(now) else old(lastAlert)
      ensures suppressed == if alert.Some? then 0 else old(suppressed) + if AlertDue(policy, streak) then 1 else 0
    {
      if !policy.hasCallback || streak.alerted || streak.failures < policy.alertAfter {
        return None, streak;
      }
      entry := streak.(alerted := true);
      if lastAlert.Some? && now - lastAlert.value < policy.cooldown {
        suppressed := suppressed + 1;
        return None, entry;
      }
      alert := Some(Alert(streak.key, streak.failures, suppressed));
      lastAlert := Some(now);
      suppressed := 0;
    }
  }
}
