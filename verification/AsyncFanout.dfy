/** Thread-safe pub/sub over bounded queues (src/async_fanout.py).

    Pushing threads, event-loop callbacks, subscribers and readers interleave freely; `Step` is
    one atomic action of any of them. What each subscriber receives is characterised exactly. */
module AsyncFanout {
  import opened Basics

  type QueueId = nat

  /** One `push` that found a loop and subscribers: its item and the subscribers it saw under the lock. */
  datatype Push<T> = Push(id: nat, item: T, subs: set<QueueId>)

  datatype State<T> = State(
    subs: set<QueueId>,
    nextQueue: QueueId,
    nextPush: nat,
    attached: bool, closed: bool,
    inflight: seq<Push<T>>,                    // snapshotted, not yet handed to the loop
    executed: seq<Push<T>>,                    // callbacks that have run, in order
    scheduled: seq<Push<T>>,                   // callbacks the loop will run, in order
    queues: map<QueueId, seq<Push<T>>>,
    got: map<QueueId, seq<Push<T>>>,           // what each reader has taken
    lost: map<(QueueId, nat), nat>)            // (queue, push) refused, with the queue's size then

  function Initial<T>(): State<T> { State({}, 0, 0, false, false, [], [], [], map[], map[], map[]) }

  datatype Action<T> =
    | AttachLoop
    | CloseLoop
    | Subscribe
    | Unsubscribe(q: QueueId)
    | Snapshot(item: T)          // `push` up to the end of its lock
    | Schedule(i: nat)           // some thread in `push` hands its callback to the loop
    | RunCallback                // the loop runs its oldest callback
    | Consume(q: QueueId)        // a reader takes an item

  /** A queue of size zero or less is unbounded. */
  predicate Full(maxsize: int, size: nat) { 0 < maxsize <= size }

  /** `put_nowait` on every queue of `to`: a full one refuses. */
  function FedTo<T>(maxsize: int, queues: map<QueueId, seq<Push<T>>>, p: Push<T>,
                    to: set<QueueId>): map<QueueId, seq<Push<T>>> {
    map q | q in queues :: if q in to && !Full(maxsize, |queues[q]|) then queues[q] + [p] else queues[q]
  }

  /** The refusals, each with the queue's size. */
  function RefusedBy<T>(maxsize: int, queues: map<QueueId, seq<Push<T>>>, p: Push<T>,
                        to: set<QueueId>): map<(QueueId, nat), nat> {
    map q | q in to && q in queues && Full(maxsize, |queues[q]|) :: (q, p.id) := |queues[q]|
  }

  function Fed<T>(maxsize: int, queues: map<QueueId, seq<Push<T>>>, p: Push<T>): map<QueueId, seq<Push<T>>> {
    FedTo(maxsize, queues, p, p.subs)
  }

  function Refusals<T>(maxsize: int, queues: map<QueueId, seq<Push<T>>>, p: Push<T>): map<(QueueId, nat), nat> {
    RefusedBy(maxsize, queues, p, p.subs)
  }

  function Step<T>(maxsize: int, s: State<T>, a: Action<T>): State<T> {
    match a
    case AttachLoop => s.(attached := true)
    case CloseLoop => s.(closed := true)
    case Subscribe =>
      s.(subs := s.subs + {s.nextQueue}, nextQueue := s.nextQueue + 1,
         queues := s.queues[s.nextQueue := []], got := s.got[s.nextQueue := []])
    case Unsubscribe(q) => s.(subs := s.subs - {q})
    case Snapshot(item) =>
      if !s.attached || s.closed || s.subs == {} then s
      else s.(inflight := s.inflight + [Push(s.nextPush, item, s.subs)], nextPush := s.nextPush + 1)
    case Schedule(i) =>
      if i >= |s.inflight| then s
      else
        var p := s.inflight[i];
        var s := s.(inflight := s.inflight[..i] + s.inflight[i+1..]);
        if s.closed then s else s.(scheduled := s.scheduled + [p])
    case RunCallback =>
      if s.closed || s.scheduled == [] then s
      else
        var p := s.scheduled[0];
        s.(scheduled := s.scheduled[1..], executed := s.executed + [p],
           queues := Fed(maxsize, s.queues, p), lost := s.lost + Refusals(maxsize, s.queues, p))
    case Consume(q) =>
      if q !in s.queues || q !in s.got || s.queues[q] == [] then s
      else s.(queues := s.queues[q := s.queues[q][1..]], got := s.got[q := s.got[q] + [s.queues[q][0]]])
  }

  function Run<T>(maxsize: int, actions: seq<Action<T>>): State<T> {
    if actions == [] then Initial()
    else Step(maxsize, Run(maxsize, actions[..|actions|-1]), actions[|actions|-1])
  }

  /** Everything a subscriber has received: what it took and what still waits in its queue. */
  function Stream<T>(s: State<T>, q: QueueId): seq<Push<T>>
    requires q in s.queues && q in s.got
  {
    s.got[q] + s.queues[q]
  }

  // ------------------------------------------------------------ the invariant

  /** Of the executed callbacks, those meant for `q` that its queue did not refuse. */
  ghost function Accepted<T>(executed: seq<Push<T>>, q: QueueId, lost: set<(QueueId, nat)>): seq<Push<T>> {
    if executed == [] then []
    else
      var p := executed[|executed|-1];
      Accepted(executed[..|executed|-1], q, lost) + if q in p.subs && (q, p.id) !in lost then [p] else []
  }

  ghost predicate Distinct<T>(ps: seq<Push<T>>) { forall i, j :: 0 <= i < j < |ps| ==> ps[i].id != ps[j].id }

  ghost predicate Apart<T>(ps: seq<Push<T>>, qs: seq<Push<T>>) { forall p <- ps, q <- qs :: p.id != q.id }

  ghost predicate Known<T>(s: State<T>, ps: seq<Push<T>>) {
    forall p <- ps :: p.id < s.nextPush && forall q <- p.subs :: q < s.nextQueue
  }

  ghost predicate Pushes<T>(s: State<T>) {
    && Distinct(s.executed) && Distinct(s.scheduled) && Distinct(s.inflight)
    && Apart(s.executed, s.scheduled) && Apart(s.executed, s.inflight) && Apart(s.scheduled, s.inflight)
    && Known(s, s.executed) && Known(s, s.scheduled) && Known(s, s.inflight)
  }

  ghost predicate Queues<T>(maxsize: int, s: State<T>) {
    && (forall q: QueueId :: q in s.queues <==> q < s.nextQueue)
    && (forall q: QueueId :: q in s.got <==> q < s.nextQueue)
    && (forall q <- s.subs :: q < s.nextQueue)
    && (forall q <- s.queues :: maxsize > 0 ==> |s.queues[q]| <= maxsize)
    && (forall q <- s.queues :: Stream(s, q) == Accepted(s.executed, q, s.lost.Keys))
  }

  ghost predicate Losses<T>(maxsize: int, s: State<T>) {
    forall k <- s.lost :: 0 < maxsize && s.lost[k] == maxsize && exists p <- s.executed :: p.id == k.1
  }

  ghost predicate Inv<T>(maxsize: int, s: State<T>) { Pushes(s) && Queues(maxsize, s) && Losses(maxsize, s) }

  // -------------------------------------------------------------- preservation

  lemma {:induction false} AcceptedUnaffected<T>(ps: seq<Push<T>>, q: QueueId, lost: set<(QueueId, nat)>,
                                                 more: set<(QueueId, nat)>)
    requires forall p <- ps, k <- more :: p.id != k.1
    ensures Accepted(ps, q, lost + more) == Accepted(ps, q, lost)
  {
    if ps != [] {
      AcceptedUnaffected(ps[..|ps|-1], q, lost, more);
      assert ps[|ps|-1] in ps;
    }
  }

  lemma {:induction false} NothingForLaterQueues<T>(ps: seq<Push<T>>, q: QueueId, lost: set<(QueueId, nat)>)
    requires forall p <- ps :: q !in p.subs
    ensures Accepted(ps, q, lost) == []
  {
    if ps != [] {
      NothingForLaterQueues(ps[..|ps|-1], q, lost);
      assert ps[|ps|-1] in ps;
    }
  }

  lemma SubscribeOk<T>(maxsize: int, s: State<T>)
    requires Inv(maxsize, s)
    ensures Inv(maxsize, Step(maxsize, s, Subscribe))
  {
    NothingForLaterQueues(s.executed, s.nextQueue, s.lost.Keys);
    var r := Step(maxsize, s, Subscribe);
    forall q <- r.queues ensures Stream(r, q) == Accepted(r.executed, q, r.lost.Keys) {
      if q != s.nextQueue { assert Stream(r, q) == Stream(s, q); }
    }
  }

  lemma ScheduleOk<T>(maxsize: int, s: State<T>, i: nat)
    requires Inv(maxsize, s) && i < |s.inflight|
    ensures Inv(maxsize, Step(maxsize, s, Schedule(i)))
  {
    var r := Step(maxsize, s, Schedule(i));
    SchedulePushes(maxsize, s, i);
    forall q <- r.queues ensures Stream(r, q) == Accepted(r.executed, q, r.lost.Keys) {
      assert Stream(r, q) == Stream(s, q);
    }
  }

  lemma SchedulePushes<T>(maxsize: int, s: State<T>, i: nat)
    requires Pushes(s) && i < |s.inflight|
    ensures Pushes(Step(maxsize, s, Schedule(i)))
  {
    var p := s.inflight[i];
    assert p in s.inflight;
    TakenOut(s.inflight, i);
    assert Distinct(s.scheduled + [p]);
  }

  lemma TakenOut<T>(ps: seq<Push<T>>, i: nat)
    requires Distinct(ps) && i < |ps|
    ensures var rest := ps[..i] + ps[i+1..]; Distinct(rest) && forall x <- rest :: x in ps && x.id != ps[i].id
  {
    var rest := ps[..i] + ps[i+1..];
    assert forall j :: 0 <= j < |rest| ==> rest[j] == ps[if j < i then j else j + 1];
  }

  lemma AcceptedSnoc<T>(executed: seq<Push<T>>, p: Push<T>, q: QueueId, lost: set<(QueueId, nat)>)
    ensures Accepted(executed + [p], q, lost)
      == Accepted(executed, q, lost) + if q in p.subs && (q, p.id) !in lost then [p] else []
  {
    assert (executed + [p])[..|executed|] == executed;
  }

  /** `r` is `s` after the callback `p` at the head of the schedule has run. */
  ghost predicate RanCallback<T>(maxsize: int, s: State<T>, r: State<T>, p: Push<T>) {
    && s.scheduled != [] && p == s.scheduled[0] && r.scheduled == s.scheduled[1..]
    && r.executed == s.executed + [p] && r.inflight == s.inflight
    && r.subs == s.subs && r.nextPush == s.nextPush && r.nextQueue == s.nextQueue
    && r.got == s.got && r.lost == s.lost + Refusals(maxsize, s.queues, p)
    && r.queues == Fed(maxsize, s.queues, p)
  }

  lemma CallbackStep<T>(maxsize: int, s: State<T>, r: State<T>)
    requires !s.closed && s.scheduled != [] && RanCallback(maxsize, s, r, s.scheduled[0])
    requires r.attached == s.attached && r.closed == s.closed
    ensures r == Step(maxsize, s, RunCallback)
  {}

  lemma RunCallbackShape<T>(maxsize: int, s: State<T>)
    requires !s.closed && s.scheduled != []
    ensures RanCallback(maxsize, s, Step(maxsize, s, RunCallback), s.scheduled[0])
  {}

  ghost predicate Fresh<T>(s: State<T>, p: Push<T>) {
    (forall x <- s.executed :: x.id != p.id) && forall k <- s.lost :: k.1 != p.id
  }

  lemma ScheduledIsFresh<T>(maxsize: int, s: State<T>)
    requires Inv(maxsize, s) && s.scheduled != []
    ensures Fresh(s, s.scheduled[0])
  {
    assert s.scheduled[0] in s.scheduled;
  }

  lemma RefusalKeys<T>(maxsize: int, queues: map<QueueId, seq<Push<T>>>, p: Push<T>, q: QueueId)
    requires q in queues
    ensures (q, p.id) in Refusals(maxsize, queues, p).Keys <==> q in p.subs && Full(maxsize, |queues[q]|)
    ensures forall k <- Refusals(maxsize, queues, p) :: k.1 == p.id
  {}

  lemma RunCallbackQueue<T>(maxsize: int, s: State<T>, r: State<T>, p: Push<T>, q: QueueId)
    requires RanCallback(maxsize, s, r, p) && Fresh(s, p) && Queues(maxsize, s) && q in s.queues
    ensures q in r.got && Stream(r, q) == Accepted(r.executed, q, r.lost.Keys)
  {
    var old_, more := s.lost.Keys, Refusals(maxsize, s.queues, p).Keys;
    RefusalKeys(maxsize, s.queues, p, q);
    assert r.lost.Keys == old_ + more && (q, p.id) !in old_;
    AcceptedUnaffected(s.executed, q, old_, more);
    AcceptedSnoc(s.executed, p, q, old_ + more);
    var fed := if q in p.subs && (q, p.id) !in more then [p] else [];
    FedQueue(maxsize, s.queues, p, q);
    Associative(s.got[q], s.queues[q], fed);
    assert Stream(s, q) == Accepted(s.executed, q, old_);
  }

  lemma FedQueue<T>(maxsize: int, queues: map<QueueId, seq<Push<T>>>, p: Push<T>, q: QueueId)
    requires q in queues
    ensures Fed(maxsize, queues, p)[q] == queues[q] + if q in p.subs && !Full(maxsize, |queues[q]|) then [p] else []
  {}

  lemma RunCallbackQueues<T>(maxsize: int, s: State<T>, r: State<T>, p: Push<T>)
    requires RanCallback(maxsize, s, r, p) && Fresh(s, p) && Queues(maxsize, s)
    ensures Queues(maxsize, r)
  {
    forall q <- r.queues ensures Stream(r, q) == Accepted(r.executed, q, r.lost.Keys) {
      RunCallbackQueue(maxsize, s, r, p, q);
    }
  }

  lemma RunCallbackPushes<T>(maxsize: int, s: State<T>, r: State<T>, p: Push<T>)
    requires RanCallback(maxsize, s, r, p) && Pushes(s)
    ensures Pushes(r)
  {
    assert s.scheduled == [p] + s.scheduled[1..];
    assert forall x <- s.scheduled[1..] :: x in s.scheduled;
  }

  lemma RunCallbackLosses<T>(maxsize: int, s: State<T>, r: State<T>, p: Push<T>)
    requires RanCallback(maxsize, s, r, p) && Queues(maxsize, s) && Losses(maxsize, s)
    ensures Losses(maxsize, r)
  {
    assert p in r.executed;
    forall k <- r.lost ensures 0 < maxsize && r.lost[k] == maxsize && exists x <- r.executed :: x.id == k.1 {
      if k !in Refusals(maxsize, s.queues, p) {
        var x :| x in s.executed && x.id == k.1;
        assert x in r.executed;
      }
    }
  }

  lemma RunCallbackOk<T>(maxsize: int, s: State<T>, r: State<T>)
    requires Inv(maxsize, s) && s.scheduled != [] && RanCallback(maxsize, s, r, s.scheduled[0])
    ensures Inv(maxsize, r)
  {
    ScheduledIsFresh(maxsize, s);
    RunCallbackPushes(maxsize, s, r, s.scheduled[0]);
    RunCallbackQueues(maxsize, s, r, s.scheduled[0]);
    RunCallbackLosses(maxsize, s, r, s.scheduled[0]);
  }

  lemma ConsumeOk<T>(maxsize: int, s: State<T>, q: QueueId)
    requires Inv(maxsize, s) && q in s.queues && q in s.got && s.queues[q] != []
    ensures Inv(maxsize, Step(maxsize, s, Consume(q)))
  {
    var r := Step(maxsize, s, Consume(q));
    assert s.queues[q] == [s.queues[q][0]] + s.queues[q][1..];
    assert Stream(r, q) == Stream(s, q);
    forall k <- r.queues ensures Stream(r, k) == Accepted(r.executed, k, r.lost.Keys) {
      assert Stream(r, k) == Stream(s, k);
    }
    assert Queues(maxsize, r);
  }

  lemma FrameOk<T>(maxsize: int, s: State<T>, a: Action<T>)
    requires Inv(maxsize, s) && (a.AttachLoop? || a.CloseLoop? || a.Unsubscribe? || a.Snapshot?)
    ensures Inv(maxsize, Step(maxsize, s, a))
  {
    var r := Step(maxsize, s, a);
    forall k <- r.queues ensures Stream(r, k) == Accepted(r.executed, k, r.lost.Keys) {
      assert Stream(r, k) == Stream(s, k);
    }
  }

  lemma StepKeepsInv<T>(maxsize: int, s: State<T>, a: Action<T>)
    requires Inv(maxsize, s)
    ensures Inv(maxsize, Step(maxsize, s, a))
  {
    match a
    case Subscribe => SubscribeOk(maxsize, s);
    case Schedule(i) => if i < |s.inflight| { ScheduleOk(maxsize, s, i); }
    case RunCallback =>
      if !s.closed && s.scheduled != [] {
        RunCallbackShape(maxsize, s);
        RunCallbackOk(maxsize, s, Step(maxsize, s, a));
      }
    case Consume(q) => if q in s.queues && q in s.got && s.queues[q] != [] { ConsumeOk(maxsize, s, q); }
    case _ => FrameOk(maxsize, s, a);
  }

  lemma {:induction false} RunKeepsInv<T>(maxsize: int, actions: seq<Action<T>>)
    ensures Inv(maxsize, Run(maxsize, actions))
  {
    if actions != [] {
      RunKeepsInv(maxsize, actions[..|actions|-1]);
      StepKeepsInv(maxsize, Run(maxsize, actions[..|actions|-1]), actions[|actions|-1]);
    }
  }

  // ------------------------------------------------------------ main results

  ghost predicate Subsequence<T(!new)>(a: seq<T>, b: seq<T>) {
    if a == [] then true
    else if b == [] then false
    else if a[|a|-1] == b[|b|-1] && Subsequence(a[..|a|-1], b[..|b|-1]) then true
    else Subsequence(a, b[..|b|-1])
  }

  /** `x` occurs somewhere before `y`. */
  ghost predicate Before<T(!new)>(s: seq<T>, x: T, y: T) {
    exists i, j :: 0 <= i < j < |s| && s[i] == x && s[j] == y
  }

  lemma {:induction false} AcceptedIsSubsequence<T(!new)>(ps: seq<Push<T>>, q: QueueId, lost: set<(QueueId, nat)>)
    ensures Subsequence(Accepted(ps, q, lost), ps)
    ensures forall p <- Accepted(ps, q, lost) :: p in ps && q in p.subs && (q, p.id) !in lost
    ensures forall p <- ps :: q in p.subs && (q, p.id) !in lost ==> p in Accepted(ps, q, lost)
  {
    if ps != [] {
      var init, last := ps[..|ps|-1], ps[|ps|-1];
      AcceptedIsSubsequence(init, q, lost);
      assert ps == init + [last];
      var a := Accepted(init, q, lost);
      assert (a + [last])[..|a|] == a && a + [] == a;
    }
  }

  lemma BeforeSnoc<T(!new)>(s: seq<T>, e: T, x: T, y: T)
    ensures Before(s + [e], x, y) <==> Before(s, x, y) || (e == y && x in s)
  {
    var t := s + [e];
    if i, j :| 0 <= i < j < |t| && t[i] == x && t[j] == y {
      if j < |s| { assert s[i] == x && s[j] == y; }
    }
    if i, j :| 0 <= i < j < |s| && s[i] == x && s[j] == y {
      assert t[i] == x && t[j] == y;
    }
    if e == y && x in s {
      var i :| 0 <= i < |s| && s[i] == x;
      assert t[i] == x && t[|s|] == y;
    }
  }

  lemma {:induction false} AcceptedKeepsOrder<T(!new)>(ps: seq<Push<T>>, q: QueueId, lost: set<(QueueId, nat)>,
                                                       x: Push<T>, y: Push<T>)
    requires Before(Accepted(ps, q, lost), x, y)
    ensures Before(ps, x, y)
  {
    if ps != [] {
      var init, last := ps[..|ps|-1], ps[|ps|-1];
      var a := Accepted(init, q, lost);
      AcceptedIsSubsequence(init, q, lost);
      assert ps == init + [last];
      BeforeSnoc(a, last, x, y);
      BeforeSnoc(init, last, x, y);
      assert a + [] == a;
      if Before(a, x, y) { AcceptedKeepsOrder(init, q, lost, x, y); }
    }
  }

  /** Each subscriber's stream is exactly the executed pushes whose snapshot had it, less the losses, in order. */
  lemma {:induction false} StreamAccepts<T(!new)>(maxsize: int, actions: seq<Action<T>>, q: QueueId)
    requires q in Run(maxsize, actions).queues && q in Run(maxsize, actions).got
    ensures var s := Run(maxsize, actions);
      && Subsequence(Stream(s, q), s.executed)
      && (forall p <- Stream(s, q) :: p in s.executed && q in p.subs && (q, p.id) !in s.lost)
      && (forall p <- s.executed :: q in p.subs && (q, p.id) !in s.lost ==> p in Stream(s, q))
  {
    var s := Run(maxsize, actions);
    RunKeepsInv(maxsize, actions);
    AcceptedIsSubsequence(s.executed, q, s.lost.Keys);
  }

  /** Any two subscribers agree on the order of the pushes they have in common. */
  lemma SubscribersAgree<T(!new)>(maxsize: int, actions: seq<Action<T>>, q: QueueId, r: QueueId, x: Push<T>, y: Push<T>)
    requires var s := Run(maxsize, actions); q in s.queues && q in s.got && r in s.queues && r in s.got
    requires var s := Run(maxsize, actions); Before(Stream(s, q), x, y) && x in Stream(s, r) && y in Stream(s, r)
    ensures Before(Stream(Run(maxsize, actions), r), x, y)
  {
    var s := Run(maxsize, actions);
    RunKeepsInv(maxsize, actions);
    AcceptedKeepsOrder(s.executed, q, s.lost.Keys, x, y);
    var t := Stream(s, r);
    var i :| 0 <= i < |t| && t[i] == x;
    var j :| 0 <= j < |t| && t[j] == y;
    if i > j {
      AcceptedKeepsOrder(s.executed, r, s.lost.Keys, y, x);
      NotBothWays(s.executed, x, y);
    } else if i == j {
      NotBothWays(s.executed, x, y);
    }
  }

  lemma NotBothWays<T(!new)>(ps: seq<Push<T>>, x: Push<T>, y: Push<T>)
    requires Distinct(ps) && Before(ps, x, y)
    ensures x != y && !Before(ps, y, x)
  {
    var i, j :| 0 <= i < j < |ps| && ps[i] == x && ps[j] == y;
    forall k, l | 0 <= k < l < |ps| && ps[k] == y && ps[l] == x ensures false {}
  }

  /** The refusal is recorded with the size the queue really had when the callback reached it. */
  lemma {:induction false} RefusalMeansFull<T>(maxsize: int, s: State<T>, q: QueueId, id: nat)
    requires (q, id) in Step(maxsize, s, RunCallback).lost && (q, id) !in s.lost
    ensures s.scheduled != [] && s.scheduled[0].id == id && q in s.queues && Full(maxsize, |s.queues[q]|)
    ensures Step(maxsize, s, RunCallback).queues[q] == s.queues[q]
  {}

  /** Queues are bounded by a positive `maxsize`; one of zero or less bounds and loses nothing. */
  lemma QueuesAreBounded<T>(maxsize: int, actions: seq<Action<T>>, q: QueueId)
    requires q in Run(maxsize, actions).queues
    ensures maxsize > 0 ==> |Run(maxsize, actions).queues[q]| <= maxsize
    ensures maxsize <= 0 ==> Run(maxsize, actions).lost == map[]
  {
    RunKeepsInv(maxsize, actions);
  }

  ghost predicate IsPushOf<T>(s: State<T>, p: Push<T>) { p in s.executed || p in s.scheduled || p in s.inflight }

  // ------------------------------------------------------ what is missed

  /** The push that action `i` of the run makes, when it is a `push` that finds a loop and subscribers. */
  ghost predicate Snapshots<T(!new)>(maxsize: int, actions: seq<Action<T>>, i: nat, p: Push<T>) {
    && i < |actions| && actions[i].Snapshot?
    && var s := Run(maxsize, actions[..i]);
       s.attached && !s.closed && s.subs != {} && p == Push(s.nextPush, actions[i].item, s.subs)
  }

  /** At action `k` the loop runs the callback of `p` and finds the queue `q` full. */
  ghost predicate RefusedAt<T(!new)>(maxsize: int, actions: seq<Action<T>>, k: nat, q: QueueId, p: Push<T>) {
    && k < |actions| && actions[k].RunCallback?
    && var s := Run(maxsize, actions[..k]);
       !s.closed && s.scheduled != [] && s.scheduled[0] == p && q in s.queues && 0 < maxsize && |s.queues[q]| == maxsize
  }

  ghost predicate Refused<T(!new)>(maxsize: int, actions: seq<Action<T>>, q: QueueId, p: Push<T>) {
    exists k :: RefusedAt(maxsize, actions, k, q, p)
  }

  lemma RunSnoc<T>(maxsize: int, actions: seq<Action<T>>, n: nat)
    requires 0 < n <= |actions|
    ensures Run(maxsize, actions[..n]) == Step(maxsize, Run(maxsize, actions[..n-1]), actions[n-1])
  {
    assert actions[..n][..n-1] == actions[..n-1];
  }

  /** What has been executed, lost or subscribed stays so. */
  ghost predicate Grows<T>(s: State<T>, r: State<T>) {
    s.executed <= r.executed && s.lost.Keys <= r.lost.Keys && s.queues.Keys <= r.queues.Keys && s.got.Keys <= r.got.Keys
  }

  lemma StepGrows<T>(maxsize: int, s: State<T>, a: Action<T>)
    ensures Grows(s, Step(maxsize, s, a))
  {}

  lemma {:induction false} RunGrows<T>(maxsize: int, actions: seq<Action<T>>, i: nat, n: nat)
    requires i <= n <= |actions|
    ensures Grows(Run(maxsize, actions[..i]), Run(maxsize, actions[..n]))
  {
    if i < n {
      RunGrows(maxsize, actions, i, n - 1);
      GrowsForOneStep(maxsize, actions, n);
      GrowsOn(Run(maxsize, actions[..i]), Run(maxsize, actions[..n-1]), Run(maxsize, actions[..n]));
    }
  }

  lemma GrowsOn<T>(a: State<T>, b: State<T>, c: State<T>)
    requires Grows(a, b) && Grows(b, c)
    ensures Grows(a, c)
  {}

  lemma GrowsForOneStep<T>(maxsize: int, actions: seq<Action<T>>, n: nat)
    requires 0 < n <= |actions|
    ensures Grows(Run(maxsize, actions[..n-1]), Run(maxsize, actions[..n]))
  {
    StepGrows(maxsize, Run(maxsize, actions[..n-1]), actions[n-1]);
    RunSnoc(maxsize, actions, n);
  }

  /** While the loop is open no step lets a push go: it is in flight, scheduled or executed. */
  lemma PushStays<T(!new)>(maxsize: int, s: State<T>, a: Action<T>, p: Push<T>)
    requires Accounted(s, p)
    ensures Accounted(Step(maxsize, s, a), p)
  {
    match a
    case Schedule(i) => if i < |s.inflight| && p in s.inflight { ScheduleMoves(s.inflight, i, p); }
    case RunCallback =>
      assert s.scheduled != [] ==> s.scheduled == [s.scheduled[0]] + s.scheduled[1..];
    case _ =>
  }

  lemma ScheduleMoves<T>(ps: seq<T>, i: nat, p: T)
    requires i < |ps| && p in ps
    ensures p == ps[i] || p in ps[..i] + ps[i+1..]
  {
    assert ps == ps[..i] + [ps[i]] + ps[i+1..];
  }

  lemma SnapshotMakes<T(!new)>(maxsize: int, s: State<T>, item: T)
    requires s.attached && !s.closed && s.subs != {}
    ensures IsPushOf(Step(maxsize, s, Snapshot(item)), Push(s.nextPush, item, s.subs))
  {
    assert Step(maxsize, s, Snapshot(item)).inflight[|s.inflight|] == Push(s.nextPush, item, s.subs);
  }

  ghost predicate Accounted<T(!new)>(s: State<T>, p: Push<T>) { s.closed || IsPushOf(s, p) }

  lemma {:induction false} StaysAccounted<T(!new)>(maxsize: int, actions: seq<Action<T>>, i: nat, n: nat, p: Push<T>)
    requires i <= n <= |actions| && Accounted(Run(maxsize, actions[..i]), p)
    ensures Accounted(Run(maxsize, actions[..n]), p)
  {
    if i < n {
      StaysAccounted(maxsize, actions, i, n - 1, p);
      StaysForOneStep(maxsize, actions, n, p);
    }
  }

  lemma StaysForOneStep<T(!new)>(maxsize: int, actions: seq<Action<T>>, n: nat, p: Push<T>)
    requires 0 < n <= |actions| && Accounted(Run(maxsize, actions[..n-1]), p)
    ensures Accounted(Run(maxsize, actions[..n]), p)
  {
    PushStays(maxsize, Run(maxsize, actions[..n-1]), actions[n-1], p);
    RunSnoc(maxsize, actions, n);
  }

  lemma SnapshotStays<T(!new)>(maxsize: int, actions: seq<Action<T>>, i: nat, p: Push<T>)
    requires Snapshots(maxsize, actions, i, p)
    ensures Accounted(Run(maxsize, actions), p)
  {
    SnapshotMakes(maxsize, Run(maxsize, actions[..i]), actions[i].item);
    RunSnoc(maxsize, actions, i + 1);
    StaysAccounted(maxsize, actions, i + 1, |actions|, p);
    assert actions[..|actions|] == actions;
  }

  /** What a refusal leaves behind: the push is executed and recorded as lost for that queue. */
  lemma RefusalLeaves<T(!new)>(maxsize: int, s: State<T>, q: QueueId)
    requires !s.closed && s.scheduled != [] && q in s.scheduled[0].subs && q in s.queues && Full(maxsize, |s.queues[q]|)
    ensures var r, p := Step(maxsize, s, RunCallback), s.scheduled[0]; p in r.executed && (q, p.id) in r.lost
  {
    var r, p := Step(maxsize, s, RunCallback), s.scheduled[0];
    RefusalKeys(maxsize, s.queues, p, q);
    assert r.executed[|s.executed|] == p;
  }

  lemma RefusedIsLost<T(!new)>(maxsize: int, actions: seq<Action<T>>, k: nat, q: QueueId, p: Push<T>)
    requires RefusedAt(maxsize, actions, k, q, p) && q in p.subs
    ensures p in Run(maxsize, actions).executed && (q, p.id) in Run(maxsize, actions).lost.Keys
  {
    RunSnoc(maxsize, actions, k + 1);
    RefusalLeaves(maxsize, Run(maxsize, actions[..k]), q);
    RunGrows(maxsize, actions, k + 1, |actions|);
    assert actions[..|actions|] == actions;
  }

  /** What is lost was lost at some step. */
  lemma {:induction false} LossBegins<T(!new)>(maxsize: int, actions: seq<Action<T>>, n: nat, x: (QueueId, nat))
    returns (k: nat)
    requires n <= |actions| && x in Run(maxsize, actions[..n]).lost.Keys
    ensures k < n && x !in Run(maxsize, actions[..k]).lost.Keys && x in Run(maxsize, actions[..k+1]).lost.Keys
  {
    NothingLostAtFirst(maxsize, actions);
    if x in Run(maxsize, actions[..n-1]).lost.Keys {
      k := LossBegins(maxsize, actions, n - 1, x);
    } else {
      k := n - 1;
    }
  }

  /** A recorded loss was a refusal of an executed push by a full queue. */
  lemma LostWasRefused<T(!new)>(maxsize: int, actions: seq<Action<T>>, q: QueueId, id: nat) returns (k: nat, p: Push<T>)
    requires (q, id) in Run(maxsize, actions).lost.Keys
    ensures RefusedAt(maxsize, actions, k, q, p) && p.id == id && p in Run(maxsize, actions).executed
  {
    assert actions[..|actions|] == actions;
    k := LossBegins(maxsize, actions, |actions|, (q, id));
    p := NewLossInRun(maxsize, actions, k, q, id);
    RunGrows(maxsize, actions, k + 1, |actions|);
    InPrefix(Run(maxsize, actions[..k+1]).executed, Run(maxsize, actions).executed, p);
  }

  lemma NewLossInRun<T(!new)>(maxsize: int, actions: seq<Action<T>>, k: nat, q: QueueId, id: nat) returns (p: Push<T>)
    requires k < |actions| && (q, id) !in Run(maxsize, actions[..k]).lost.Keys
    requires (q, id) in Run(maxsize, actions[..k+1]).lost.Keys
    ensures RefusedAt(maxsize, actions, k, q, p) && p.id == id && p in Run(maxsize, actions[..k+1]).executed
  {
    RunSnoc(maxsize, actions, k + 1);
    RunKeepsInv(maxsize, actions[..k]);
    p := NewLoss(maxsize, Run(maxsize, actions[..k]), actions[k], q, id);
  }

  lemma NothingLostAtFirst<T>(maxsize: int, actions: seq<Action<T>>)
    ensures Run(maxsize, actions[..0]).lost.Keys == {}
  {}

  lemma NewLoss<T(!new)>(maxsize: int, s: State<T>, a: Action<T>, q: QueueId, id: nat) returns (p: Push<T>)
    requires Queues(maxsize, s) && (q, id) !in s.lost.Keys && (q, id) in Step(maxsize, s, a).lost.Keys
    ensures a.RunCallback? && !s.closed && s.scheduled != [] && s.scheduled[0] == p && p.id == id
    ensures q in s.queues && 0 < maxsize && |s.queues[q]| == maxsize && p in Step(maxsize, s, a).executed
  {
    RefusalMeansFull(maxsize, s, q, id);
    p := s.scheduled[0];
    assert Step(maxsize, s, RunCallback).executed[|s.executed|] == p;
  }

  lemma SameId<T>(ps: seq<Push<T>>, x: Push<T>, y: Push<T>)
    requires Distinct(ps) && x in ps && y in ps && x.id == y.id
    ensures x == y
  {}

  /** Over every run: a subscriber of a snapshot receives the push exactly when its callback has run
      and did not find that very queue full. A push whose callback has not run is still on its way,
      or the loop was closed. */
  lemma {:induction false} OnlyFullQueuesMiss<T(!new)>(maxsize: int, actions: seq<Action<T>>, i: nat, q: QueueId,
                                                       p: Push<T>)
    requires Snapshots(maxsize, actions, i, p) && q in p.subs
    ensures var s := Run(maxsize, actions);
      && q in s.queues && q in s.got
      && (p in Stream(s, q) <==> p in s.executed && !Refused(maxsize, actions, q, p))
      && (p !in s.executed ==> p in s.scheduled || p in s.inflight || s.closed)
  {
    var n, s := |actions|, Run(maxsize, actions);
    assert actions[..n] == actions;
    RunKeepsInv(maxsize, actions);
    SnapshotStays(maxsize, actions, i, p);
    RunGrows(maxsize, actions, i, n);
    RunKeepsInv(maxsize, actions[..i]);
    StreamAccepts(maxsize, actions, q);
    if p in s.executed && (q, p.id) in s.lost.Keys {
      var k, x := LostWasRefused(maxsize, actions, q, p.id);
      SameId(s.executed, x, p);
    }
    if k :| RefusedAt(maxsize, actions, k, q, p) { RefusedIsLost(maxsize, actions, k, q, p); }
  }

  // --------------------------------------------------- before and after

  /** How a later state `t` relates to `s`, for a queue `q` that `s` has no subscription of. */
  ghost predicate Later<T(!new)>(s: State<T>, t: State<T>, q: QueueId) {
    && s.nextPush <= t.nextPush && s.nextQueue <= t.nextQueue
    && (q < s.nextQueue ==> q !in t.subs)
    && forall p :: IsPushOf(t, p) ==>
         if p.id < s.nextPush then forall x <- p.subs :: x < s.nextQueue
         else q < s.nextQueue ==> q !in p.subs
  }

  lemma LaterStep<T(!new)>(maxsize: int, s: State<T>, t: State<T>, q: QueueId, a: Action<T>)
    requires Later(s, t, q)
    ensures Later(s, Step(maxsize, t, a), q)
  {
    var u := Step(maxsize, t, a);
    if a.Schedule? && a.i < |t.inflight| {
      assert t.inflight[a.i] in t.inflight;
      assert forall p <- u.inflight :: p in t.inflight;
    } else if a.RunCallback? && t.scheduled != [] {
      assert t.scheduled[0] in t.scheduled;
      assert forall p <- t.scheduled[1..] :: p in t.scheduled;
    }
    forall p | IsPushOf(u, p) && !IsPushOf(t, p)
      ensures if p.id < s.nextPush then forall x <- p.subs :: x < s.nextQueue else q < s.nextQueue ==> q !in p.subs
    {
      assert a.Snapshot? && p.id == t.nextPush && p.subs == t.subs;
    }
  }

  lemma {:induction false} LaterRun<T(!new)>(maxsize: int, before: seq<Action<T>>, after: seq<Action<T>>, q: QueueId)
    requires q !in Run(maxsize, before).subs
    ensures Later(Run(maxsize, before), Run(maxsize, before + after), q)
    decreases |after|
  {
    if after == [] {
      assert before + after == before;
      RunKeepsInv(maxsize, before);
    } else {
      LaterRun(maxsize, before, after[..|after|-1], q);
      assert (before + after)[..|before + after|-1] == before + after[..|after|-1];
      LaterStep(maxsize, Run(maxsize, before), Run(maxsize, before + after[..|after|-1]), q, after[|after|-1]);
    }
  }

  /** A push snapshotted before a subscription, or after it was given up, never arrives in its queue. */
  lemma NothingFromOutsideTheSubscription<T(!new)>(maxsize: int, before: seq<Action<T>>, after: seq<Action<T>>,
                                                   q: QueueId, p: Push<T>)
    requires q !in Run(maxsize, before).subs
    requires var t := Run(maxsize, before + after); q in t.queues && q in t.got && p in Stream(t, q)
    ensures q >= Run(maxsize, before).nextQueue ==> p.id >= Run(maxsize, before).nextPush
    ensures q < Run(maxsize, before).nextQueue ==> p.id < Run(maxsize, before).nextPush
  {
    LaterRun(maxsize, before, after, q);
    StreamAccepts(maxsize, before + after, q);
    assert IsPushOf(Run(maxsize, before + after), p);
  }

  // --------------------------------------------- the run, from its actions

  /** How many queues have been subscribed. */
  function Subscriptions<T>(actions: seq<Action<T>>): nat {
    if actions == [] then 0
    else Subscriptions(actions[..|actions|-1]) + if actions[|actions|-1].Subscribe? then 1 else 0
  }

  /** Action `i` is the subscription of `q`, and nothing after it ends it. */
  ghost predicate SubscribesAt<T(!new)>(actions: seq<Action<T>>, i: nat, q: QueueId) {
    && i < |actions| && actions[i].Subscribe? && Subscriptions(actions[..i]) == q
    && forall j :: i < j < |actions| ==> actions[j] != Unsubscribe(q)
  }

  ghost predicate Subscribed<T(!new)>(actions: seq<Action<T>>,
                                      q: QueueId) { exists i: nat :: SubscribesAt(actions, i, q) }

  lemma SubscribedSnoc<T(!new)>(actions: seq<Action<T>>, a: Action<T>, q: QueueId)
    ensures Subscribed(actions + [a], q) <==>
      (a.Subscribe? && Subscriptions(actions) == q) || (Subscribed(actions, q) && a != Unsubscribe(q))
  {
    var more := actions + [a];
    assert more[..|actions|] == actions;
    forall i: nat | i < |actions| ensures more[..i] == actions[..i] {}
    if i: nat :| SubscribesAt(more, i, q) {
      if i < |actions| { assert SubscribesAt(actions, i, q) && more[|actions|] == a; }
    }
    if i: nat :| SubscribesAt(actions, i, q) {
      if a != Unsubscribe(q) { assert SubscribesAt(more, i, q); }
    }
    if a.Subscribe? && Subscriptions(actions) == q { assert SubscribesAt(more, |actions|, q); }
  }

  lemma Unsnoc<T>(actions: seq<Action<T>>)
    requires actions != []
    ensures actions == actions[..|actions|-1] + [actions[|actions|-1]]
  {}

  lemma {:induction false} LoopState<T(!new)>(maxsize: int, actions: seq<Action<T>>)
    ensures Run(maxsize, actions).attached <==> AttachLoop in actions
    ensures Run(maxsize, actions).closed <==> CloseLoop in actions
  {
    if actions != [] {
      var before, a := actions[..|actions|-1], actions[|actions|-1];
      LoopState(maxsize, before);
      LoopStep(maxsize, Run(maxsize, before), a);
      Unsnoc(actions);
      InEither(before, [a], AttachLoop);
      InEither(before, [a], CloseLoop);
    }
  }

  lemma LoopStep<T>(maxsize: int, s: State<T>, a: Action<T>)
    ensures Step(maxsize, s, a).attached <==> s.attached || a.AttachLoop?
    ensures Step(maxsize, s, a).closed <==> s.closed || a.CloseLoop?
  {}

  lemma SubscriberStep<T>(maxsize: int, s: State<T>, a: Action<T>)
    ensures var r := Step(maxsize, s, a);
      && r.nextQueue == s.nextQueue + (if a.Subscribe? then 1 else 0)
      && forall q: QueueId ::
           q in r.subs <==> (a.Subscribe? && s.nextQueue == q) || (q in s.subs && a != Unsubscribe(q))
  {}

  lemma {:induction false} WhoIsSubscribed<T(!new)>(maxsize: int, actions: seq<Action<T>>)
    ensures Run(maxsize, actions).nextQueue == Subscriptions(actions)
    ensures forall q: QueueId :: q in Run(maxsize, actions).subs <==> Subscribed(actions, q)
  {
    if actions != [] {
      var before, a := actions[..|actions|-1], actions[|actions|-1];
      WhoIsSubscribed(maxsize, before);
      SubscriberStep(maxsize, Run(maxsize, before), a);
      Unsnoc(actions);
      forall q: QueueId ensures q in Run(maxsize, actions).subs <==> Subscribed(actions, q) {
        SubscribedSnoc(before, a, q);
      }
    }
  }

  /** A `push` takes effect exactly with a loop attached, none closed and someone subscribed; it then
      carries its item to exactly the queues subscribed at that moment. */
  lemma PushesSeeTheSubscribers<T(!new)>(maxsize: int, actions: seq<Action<T>>, i: nat)
    requires i < |actions| && actions[i].Snapshot?
    ensures var past := actions[..i];
      (exists p :: Snapshots(maxsize, actions, i, p)) <==>
        AttachLoop in past && CloseLoop !in past && exists q: QueueId :: Subscribed(past, q)
    ensures forall p :: Snapshots(maxsize, actions, i, p) ==>
      p.item == actions[i].item && forall q: QueueId :: q in p.subs <==> Subscribed(actions[..i], q)
  {
    var s := Run(maxsize, actions[..i]);
    WhoIsSubscribed(maxsize, actions[..i]);
    LoopState(maxsize, actions[..i]);
    if AttachLoop in actions[..i] && CloseLoop !in actions[..i] && exists q: QueueId :: Subscribed(actions[..i], q) {
      assert Snapshots(maxsize, actions, i, Push(s.nextPush, actions[i].item, s.subs));
    }
  }

  /** The callbacks handed to the loop, in the order of `call_soon_threadsafe`; a closed loop takes none. */
  ghost function Handed<T>(maxsize: int, actions: seq<Action<T>>): seq<Push<T>> {
    if actions == [] then []
    else
      var before, a := actions[..|actions|-1], actions[|actions|-1];
      Handed(maxsize, before) + HandedBy(Run(maxsize, before).inflight, CloseLoop in before, a)
  }

  ghost function HandedBy<T>(inflight: seq<Push<T>>, closed: bool, a: Action<T>): seq<Push<T>> {
    if a.Schedule? && a.i < |inflight| && !closed then [inflight[a.i]] else []
  }

  /** How many callbacks the loop has run: one for each turn it takes, while open, with one left to run. */
  ghost function Ran<T>(maxsize: int, actions: seq<Action<T>>): nat {
    if actions == [] then 0
    else
      var before, a := actions[..|actions|-1], actions[|actions|-1];
      var ran := Ran(maxsize, before);
      ran + if a.RunCallback? && CloseLoop !in before && ran < |Handed(maxsize, before)| then 1 else 0
  }

  lemma HandOver<T>(maxsize: int, s: State<T>, a: Action<T>, handed: seq<Push<T>>)
    requires s.executed + s.scheduled == handed
    ensures var r := Step(maxsize, s, a);
      && r.executed + r.scheduled == handed + HandedBy(s.inflight, s.closed, a)
      && |r.executed| == |s.executed| + if a.RunCallback? && !s.closed && |s.executed| < |handed| then 1 else 0
  {
    var r := Step(maxsize, s, a);
    if a.Schedule? {
      Associative(s.executed, s.scheduled, HandedBy(s.inflight, s.closed, a));
    } else if a.RunCallback? && s.scheduled != [] {
      assert s.scheduled == [s.scheduled[0]] + s.scheduled[1..];
    }
  }

  /** First in, first out: what has run is the first `Ran` of what was handed over, the rest is scheduled. */
  lemma {:induction false} CallbacksRunInTurn<T(!new)>(maxsize: int, actions: seq<Action<T>>)
    ensures var s := Run(maxsize, actions);
      s.executed + s.scheduled == Handed(maxsize, actions) && |s.executed| == Ran(maxsize, actions)
  {
    if actions != [] {
      var before, a := actions[..|actions|-1], actions[|actions|-1];
      CallbacksRunInTurn(maxsize, before);
      LoopState(maxsize, before);
      HandOver(maxsize, Run(maxsize, before), a, Handed(maxsize, before));
    }
  }

  ghost predicate ComesFromSnapshot<T(!new)>(maxsize: int, actions: seq<Action<T>>, p: Push<T>) {
    exists i: nat :: Snapshots(maxsize, actions, i, p)
  }

  lemma NewPush<T(!new)>(maxsize: int, s: State<T>, a: Action<T>, p: Push<T>)
    requires IsPushOf(Step(maxsize, s, a), p) && !IsPushOf(s, p)
    ensures a.Snapshot? && s.attached && !s.closed && s.subs != {} && p == Push(s.nextPush, a.item, s.subs)
  {}

  /** Nothing is delivered that no `push` made. */
  lemma {:induction false} PushesComeFromSnapshots<T(!new)>(maxsize: int, actions: seq<Action<T>>, p: Push<T>)
    requires IsPushOf(Run(maxsize, actions), p)
    ensures ComesFromSnapshot(maxsize, actions, p)
  {
    if actions != [] {
      var before, a := actions[..|actions|-1], actions[|actions|-1];
      if IsPushOf(Run(maxsize, before), p) {
        PushesComeFromSnapshots(maxsize, before, p);
        var i: nat :| Snapshots(maxsize, before, i, p);
        assert before[..i] == actions[..i];
        assert Snapshots(maxsize, actions, i, p);
      } else {
        NewPush(maxsize, Run(maxsize, before), a, p);
        assert Snapshots(maxsize, actions, |before|, p);
      }
    }
  }

  /** Over every interleaving: a subscriber's stream is, in the order of their hand-over, exactly the
      callbacks that have run, were meant for it and did not find its queue full. */
  lemma {:induction false} StreamIsExact<T(!new)>(maxsize: int, actions: seq<Action<T>>, q: QueueId)
    requires q in Run(maxsize, actions).queues && q in Run(maxsize, actions).got
    ensures Ran(maxsize, actions) <= |Handed(maxsize, actions)|
    ensures var stream, ran := Stream(Run(maxsize, actions), q), Handed(maxsize, actions)[..Ran(maxsize, actions)];
      && Subsequence(stream, ran)
      && forall p :: p in stream <==> p in ran && q in p.subs && !Refused(maxsize, actions, q, p)
  {
    var s := Run(maxsize, actions);
    CallbacksRunInTurn(maxsize, actions);
    assert Handed(maxsize, actions)[..Ran(maxsize, actions)] == s.executed;
    StreamAccepts(maxsize, actions, q);
    forall p | p in s.executed && q in p.subs ensures p in Stream(s, q) <==> !Refused(maxsize, actions, q, p) {
      PushesComeFromSnapshots(maxsize, actions, p);
      var i: nat :| Snapshots(maxsize, actions, i, p);
      OnlyFullQueuesMiss(maxsize, actions, i, q, p);
    }
  }

  /** How many items the readers of `q` have taken: one for each time they find one. */
  ghost function Taken<T>(maxsize: int, actions: seq<Action<T>>, q: QueueId): nat {
    if actions == [] then 0
    else
      var before, a := actions[..|actions|-1], actions[|actions|-1];
      var s, taken := Run(maxsize, before), Taken(maxsize, before, q);
      taken + if a == Consume(q) && q in s.queues && q in s.got && taken < |Stream(s, q)| then 1 else 0
  }

  lemma StreamStep<T>(maxsize: int, s: State<T>, a: Action<T>, q: QueueId)
    requires Inv(maxsize, s) && q in s.queues && q in s.got
    ensures var r := Step(maxsize, s, a); q in r.queues && q in r.got && Stream(s, q) <= Stream(r, q)
  {
    if a.RunCallback? && !s.closed && s.scheduled != [] {
      FedStream(maxsize, s, s.scheduled[0], q);
    } else if a == Consume(q) && s.queues[q] != [] {
      StreamMoves(s.got[q], s.queues[q]);
    }
  }

  lemma FedStream<T>(maxsize: int, s: State<T>, p: Push<T>, q: QueueId)
    requires q in s.queues && q in s.got
    ensures Stream(s, q) <= s.got[q] + Fed(maxsize, s.queues, p)[q]
  {
    FedQueue(maxsize, s.queues, p, q);
  }

  lemma StreamMoves<T>(got: seq<T>, queue: seq<T>)
    requires queue != []
    ensures got + [queue[0]] + queue[1..] == got + queue
  {}

  lemma TakeStep<T>(maxsize: int, s: State<T>, a: Action<T>, q: QueueId)
    requires Inv(maxsize, s) && q in s.queues && q in s.got
    ensures q in Step(maxsize, s, a).got
    ensures |Step(maxsize, s, a).got[q]| == |s.got[q]| + if a == Consume(q) && |s.got[q]| < |Stream(s, q)| then 1 else 0
  {}

  lemma NewQueue<T>(maxsize: int, s: State<T>, a: Action<T>, q: QueueId)
    requires Inv(maxsize, s) && q !in s.queues && q in Step(maxsize, s, a).queues
    ensures q !in s.got && q in Step(maxsize, s, a).got && Step(maxsize, s, a).got[q] == []
  {}

  /** Readers take a stream's items one by one from its start, and it only ever grows at its end. */
  lemma {:induction false} ReadersReadInOrder<T(!new)>(maxsize: int, actions: seq<Action<T>>, q: QueueId)
    requires q in Run(maxsize, actions).queues
    ensures var s := Run(maxsize, actions);
      && q in s.got && Taken(maxsize, actions, q) <= |Stream(s, q)|
      && s.got[q] == Stream(s, q)[..Taken(maxsize, actions, q)]
    ensures actions != [] ==>
      var b := Run(maxsize, actions[..|actions|-1]);
      q in b.queues ==> q in b.got && Stream(b, q) <= Stream(Run(maxsize, actions), q)
  {
    if actions != [] {
      var before, a := actions[..|actions|-1], actions[|actions|-1];
      var s := Run(maxsize, before);
      RunKeepsInv(maxsize, before);
      if q in s.queues {
        ReadersReadInOrder(maxsize, before, q);
        StreamStep(maxsize, s, a, q);
        TakeStep(maxsize, s, a, q);
      } else {
        NewQueue(maxsize, s, a, q);
        NothingTaken(maxsize, before, q);
      }
    }
  }

  lemma {:induction false} NothingTaken<T(!new)>(maxsize: int, actions: seq<Action<T>>, q: QueueId)
    requires q !in Run(maxsize, actions).queues
    ensures Taken(maxsize, actions, q) == 0
  {
    if actions != [] {
      StepGrows(maxsize, Run(maxsize, actions[..|actions|-1]), actions[|actions|-1]);
      NothingTaken(maxsize, actions[..|actions|-1], q);
    }
  }

  // ---------------------------------------------------------------- the class

  /** The queues and losses once the subscribers in `done` have been served. */
  ghost predicate FedSoFar<T>(maxsize: int, before: map<QueueId, seq<Push<T>>>, kept: map<(QueueId, nat), nat>,
                              p: Push<T>,
                              done: set<QueueId>, queues: map<QueueId, seq<Push<T>>>, lost: map<(QueueId, nat), nat>) {
    queues == FedTo(maxsize, before, p, done) && lost == kept + RefusedBy(maxsize, before, p, done)
  }

  /** Queues and losses after `put_nowait` on one queue. */
  function PutOne<T>(maxsize: int, queues: map<QueueId, seq<Push<T>>>, p: Push<T>,
                     q: QueueId): map<QueueId, seq<Push<T>>> {
    if q in queues && !Full(maxsize, |queues[q]|) then queues[q := queues[q] + [p]] else queues
  }

  function LoseOne<T>(maxsize: int, queues: map<QueueId, seq<Push<T>>>, lost: map<(QueueId, nat), nat>, p: Push<T>,
                      q: QueueId)
    : map<(QueueId, nat), nat>
  {
    if q in queues && Full(maxsize, |queues[q]|) then lost[(q, p.id) := |queues[q]|] else lost
  }

  lemma FeedOne<T>(maxsize: int, before: map<QueueId, seq<Push<T>>>, kept: map<(QueueId, nat), nat>, p: Push<T>,
                   done: set<QueueId>, q: QueueId, queues: map<QueueId, seq<Push<T>>>, lost: map<(QueueId, nat), nat>)
    requires q !in done && FedSoFar(maxsize, before, kept, p, done, queues, lost)
    ensures FedSoFar(maxsize, before, kept, p, done + {q},
                         PutOne(maxsize, queues, p, q), LoseOne(maxsize, queues, lost, p, q))
  {
    assert q in before ==> queues[q] == before[q];
    PutFeeds(maxsize, before, p, done, q);
    RefuseOne(maxsize, before, p, done, q);
  }

  lemma PutFeeds<T>(maxsize: int, before: map<QueueId, seq<Push<T>>>, p: Push<T>, done: set<QueueId>, q: QueueId)
    requires q !in done
    ensures PutOne(maxsize, FedTo(maxsize, before, p, done), p, q) == FedTo(maxsize, before, p, done + {q})
  {}

  lemma RefuseOne<T>(maxsize: int, before: map<QueueId, seq<Push<T>>>, p: Push<T>, done: set<QueueId>, q: QueueId)
    ensures RefusedBy(maxsize, before, p, done + {q})
      == if q in before && Full(maxsize, |before[q]|) then RefusedBy(maxsize, before, p, done)[(q, p.id) := |before[q]|]
         else RefusedBy(maxsize, before, p, done)
  {
    var r, s := RefusedBy(maxsize, before, p, done), RefusedBy(maxsize, before, p, done + {q});
    assert forall x :: (x, p.id) in r <==> x in done && x in before && Full(maxsize, |before[x]|);
    assert forall x :: (x, p.id) in s <==> x in done + {q} && x in before && Full(maxsize, |before[x]|);
  }

  class AsyncFanout<T> {
    const maxsize: int
    var subs: set<QueueId>
    var nextQueue: QueueId
    var nextPush: nat
    var attached: bool
    var closed: bool
    var inflight: seq<Push<T>>
    var executed: seq<Push<T>>
    var scheduled: seq<Push<T>>
    var queues: map<QueueId, seq<Push<T>>>
    var got: map<QueueId, seq<Push<T>>>
    var lost: map<(QueueId, nat), nat>

    function View(): State<T>
      reads this
    {
      State(subs, nextQueue, nextPush, attached, closed, inflight, executed, scheduled, queues, got, lost)
    }

    constructor (maxsize: int)
      ensures this.maxsize == maxsize && View() == Initial()
    {
      this.maxsize := maxsize;
      subs, nextQueue, nextPush, attached, closed := {}, 0, 0, false, false;
      inflight, executed, scheduled, queues, got, lost := [], [], [], map[], map[], map[];
    }

    method AttachLoop()
      modifies this`attached
      ensures View() == Step(maxsize, old(View()), Action.AttachLoop)
    {
      attached := true;
    }

    method Subscribe() returns (q: QueueId)
      modifies this
      ensures View() == Step(maxsize, old(View()), Action.Subscribe)
      ensures q == old(nextQueue) && q in subs
    {
      q := nextQueue;
      nextQueue := nextQueue + 1;
      queues, got := queues[q := []], got[q := []];
      subs := subs + {q};
    }

    method Unsubscribe(q: QueueId)
      modifies this`subs
      ensures View() == Step(maxsize, old(View()), Action.Unsubscribe(q))
    {
      subs := subs - {q};
    }

    /** `push` up to the end of its lock. */
    method PushSnapshot(item: T)
      modifies this`inflight, this`nextPush
      ensures View() == Step(maxsize, old(View()), Snapshot(item))
    {
      if !attached || closed {
        return;
      }
      if subs == {} {
        return;
      }
      inflight := inflight + [Push(nextPush, item, subs)];
      nextPush := nextPush + 1;
    }

    /** `push` from there on: `call_soon_threadsafe`, which a closed loop refuses. */
    method PushSchedule(i: nat)
      requires i < |inflight|
      modifies this`inflight, this`scheduled
      ensures View() == Step(maxsize, old(View()), Schedule(i))
    {
      var p := inflight[i];
      inflight := inflight[..i] + inflight[i+1..];
      if !closed {
        scheduled := scheduled + [p];
      }
    }

    /** The scheduled callback: every queue of the snapshot, in any order. */
    method Callback()
      requires !closed && scheduled != []
      modifies this`scheduled, this`executed, this`queues, this`lost
      ensures View() == Step(maxsize, old(View()), RunCallback)
    {
      var p := scheduled[0];
      scheduled := scheduled[1..];
      executed := executed + [p];
      FeedAll(p);
      CallbackStep(maxsize, old(View()), View());
    }

    method PutNowait(q: QueueId, p: Push<T>)
      modifies this`queues, this`lost
      ensures queues == PutOne(maxsize, old(queues), p, q)
      ensures lost == LoseOne(maxsize, old(queues), old(lost), p, q)
    {
      if q in queues {
        if Full(maxsize, |queues[q]|) {
          lost := lost[(q, p.id) := |queues[q]|];
        } else {
          queues := queues[q := queues[q] + [p]];
        }
      }
    }

    method FeedAll(p: Push<T>)
      modifies this`queues, this`lost
      ensures queues == Fed(maxsize, old(queues), p) && lost == old(lost) + Refusals(maxsize, old(queues), p)
    {
      var rest := p.subs;
      ghost var before, kept, done := queues, lost, {};
      while rest != {}
        invariant done !! rest && done + rest == p.subs
        invariant FedSoFar(maxsize, before, kept, p, done, queues, lost)
        decreases rest
      {
        var q :| q in rest;
        FeedOne(maxsize, before, kept, p, done, q, queues, lost);
        PutNowait(q, p);
        rest, done := rest - {q}, done + {q};
      }
      assert done == p.subs;
    }

    /** `get_nowait` on one queue. */
    method Consume(q: QueueId) returns (item: Option<T>)
      requires q in queues && q in got
      modifies this`queues, this`got
      ensures View() == Step(maxsize, old(View()), Action.Consume(q))
      ensures item == if old(queues)[q] == [] then None else Some(old(queues)[q][0].item)
    {
      if queues[q] == [] {
        return None;
      }
      item := Some(queues[q][0].item);
      got := got[q := got[q] + [queues[q][0]]];
      queues := queues[q := queues[q][1..]];
    }
  }
}
