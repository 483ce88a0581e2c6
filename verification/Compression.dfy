/** The streaming gzip responder (src/compression.py:145-293).

    `Step` is one atomic step of a response: a message from the application or the look-ahead
    timer, in any interleaving. Its lemmas hold of every run; class `GzipResponder` is the
    source's object, each method proved to be the step of the same name. */
module Compression {
  import opened Basics
  import opened HttpHeaders

  type Bytes = seq<bv8>

  datatype Message =
    | Start(headers: Option<Headers>)         // `headers` may be left out
    | Body(body: Option<Bytes>, more: bool)   // `body` may be left out; `more_body` left out reads as false
    | Other(kind: string)                     // pathsend, trailers and the like

  function BodyOf(m: Message): Bytes
    requires m.Body?
  {
    match m.body case None => [] case Some(b) => b
  }

  // ------------------------------------------------------------------- zlib

  /** One use of the compressor: compress `data`, then flush (`finish` or sync). */
  datatype Op = Op(data: Bytes, finish: bool)

  /** Any compressor: `emit` gives the bytes the last call of a history puts out, `inflate` decodes a stream so far. */
  datatype Zlib = Zlib(emit: seq<Op> -> Bytes, inflate: Bytes -> Bytes)

  ghost function Emitted(z: Zlib, ops: seq<Op>): Bytes {
    if ops == [] then [] else Emitted(z, ops[..|ops|-1]) + z.emit(ops)
  }

  ghost function Consumed(ops: seq<Op>): Bytes {
    if ops == [] then [] else Consumed(ops[..|ops|-1]) + ops[|ops|-1].data
  }

  ghost predicate OnlyLastFinishes(ops: seq<Op>) {
    forall i :: 0 <= i < |ops| - 1 ==> !ops[i].finish
  }

  /** The contract of the gzip and deflate formats (RFC 1952, RFC 1951): after each sync flush
      or finish, what was emitted decodes to what was consumed. */
  ghost predicate Sound(z: Zlib) {
    forall ops: seq<Op> :: OnlyLastFinishes(ops) ==> z.inflate(Emitted(z, ops)) == Consumed(ops)
  }

  // ------------------------------------------------------------------ state

  datatype Config = Config(minimumSize: int, zlib: Zlib)

  datatype State = State(
    start: Option<Headers>, deciding: bool, compressing: bool, held: Option<Message>,
    timer: bool,          // a timer handle is kept
    ops: seq<Op>,         // the compressor's history
    armed: bool,          // the event loop will still fire the timer
    tasks: nat,           // expiry tasks created and not yet run
    sent: seq<Message>,
    failed: bool)         // an exception left the responder

  const INITIAL: State := State(None, false, false, None, false, [], false, 0, [], false)

  datatype Event = Send(m: Message) | TimerFires | ExpireRuns

  // --------------------------------------------------------------- the steps

  datatype Verdict = Yes | No | Raises

  /** Only a small chunk of a body still streaming makes the source look the headers up. */
  function ShouldHold(c: Config, h: Option<Headers>, m: Message): Verdict {
    if !(m.Body? && m.more && |BodyOf(m)| < c.minimumSize) then No
    else if h.None? then Raises
    else if Unsized(h.value) then Yes
    else No
  }

  function ShouldCompress(c: Config, h: Option<Headers>, m: Message): Verdict
    requires m.Body?
  {
    if h.None? then Raises
    else if !Eligible(h.value) then No
    else match DeclaredLength(h.value)
      case Declared(n) => if n >= c.minimumSize then Yes else No
      case Unreadable => Raises
      case Undeclared => if m.more || |BodyOf(m)| >= c.minimumSize then Yes else No
  }

  function EncodedInto(s: State, m: Message): State
    requires m.Body?
  {
    s.(ops := s.ops + [Op(BodyOf(m), !m.more)], compressing := s.compressing && m.more)
  }

  /** The last encoded chunk, as a message. */
  function Encoded(c: Config, s: State, more: bool): Message { Body(Some(c.zlib.emit(s.ops)), more) }

  function Emit(s: State, ms: seq<Message>): State { s.(sent := s.sent + ms) }

  function Decided(c: Config, s: State, m: Message): State {
    var s := s.(deciding := false);
    if !m.Body? then Emit(s.(compressing := false), [Start(s.start), m])
    else match ShouldCompress(c, s.start, m)
      case Raises => s.(failed := true)
      case No => Emit(s.(compressing := false), [Start(s.start), m])
      case Yes =>
        var s := EncodedInto(s.(compressing := true), m);
        var out := Encoded(c, s, m.more);
        var s := s.(start := Some(MarkCompressed(s.start.value, |BodyOf(out)|, m.more)));
        Emit(s, [Start(s.start), out])
  }

  function TimerCancelled(s: State): State {
    if s.timer then s.(timer := false, armed := false) else s
  }

  function Released(c: Config, s: State): (r: State)
    requires s.held.Some?
    ensures r.held.None?
  {
    Decided(c, TimerCancelled(s).(held := None), s.held.value)
  }

  /** Merging indexes the held chunk's body, so a first chunk sent without one raises here. */
  function Merged(c: Config, s: State, m: Message): (r: State)
    requires s.held.Some? && s.held.value.Body? && m.Body?
    ensures HoldsBody(r)
  {
    if s.held.value.body.None? then s.(failed := true)
    else
      var merged := Body(Some(BodyOf(s.held.value) + BodyOf(m)), m.more);
      var s := s.(held := Some(merged));
      if !m.more || |BodyOf(merged)| >= c.minimumSize then Released(c, s) else s
  }

  function UnheldHandled(c: Config, s: State, m: Message): (r: State)
    requires !m.Start? && s.held.None?
    ensures HoldsBody(r)
  {
    if s.deciding then
      match ShouldHold(c, s.start, m)
      case Raises => s.(failed := true)
      case Yes => s.(held := Some(m), timer := true, armed := true)
      case No => Decided(c, s, m)
    else if s.compressing && m.Body? then
      var s := EncodedInto(s, m);
      Emit(s, [Encoded(c, s, m.more)])
    else Emit(s, [m])
  }

  predicate HoldsBody(s: State) { s.held.Some? ==> s.held.value.Body? }

  function Handled(c: Config, s: State, m: Message): (r: State)
    requires HoldsBody(s)
    ensures HoldsBody(r)
  {
    if m.Start? then s.(start := m.headers, deciding := true)
    else if s.held.Some? && m.Body? then Merged(c, s, m)
    else
      var s := if s.held.Some? then Released(c, s) else s;
      if s.failed then s else UnheldHandled(c, s, m)
  }

  function Expired(c: Config, s: State): (r: State)
    requires HoldsBody(s)
    ensures HoldsBody(r)
  {
    if s.held.Some? then Released(c, s) else s
  }

  function Step(c: Config, s: State, e: Event): (r: State)
    requires HoldsBody(s)
    ensures HoldsBody(r)
  {
    if s.failed then s
    else match e
      case Send(m) => Handled(c, s, m)
      case TimerFires => if s.armed then s.(armed := false, tasks := s.tasks + 1) else s
      case ExpireRuns => if s.tasks > 0 then Expired(c, s.(tasks := s.tasks - 1)) else s
  }

  function Run(c: Config, es: seq<Event>): (r: State)
    ensures HoldsBody(r)
  {
    if es == [] then INITIAL else Step(c, Run(c, es[..|es|-1]), es[|es|-1])
  }

  // ----------------------------------------------------- well-formed responses

  datatype Phase = BeforeStart | Opened | Streaming | Ended | Malformed

  /** What came in: the phase, the start's headers, all body bytes, the first body message and how
      many there were, and whether one came right after the start; then the look-ahead as the events
      tell it: whether one is under way, whether its timer fired, and after how many bodies it was
      cut short, 0 if never. */
  datatype Trace = Trace(phase: Phase, headers: Option<Headers>, received: Bytes,
                         first: Option<Message>, bodies: nat, bodyFirst: bool,
                         looking: bool, fired: bool, cutAfter: nat)

  const NOTHING: Trace := Trace(BeforeStart, None, [], None, 0, true, false, false, 0)

  function CutShort(t: Trace): Trace { if t.looking then t.(looking := false, cutAfter := t.bodies) else t }

  /** A body starts a look-ahead right after the start of an unsized response, and keeps it up, as long
      as more is to come and too little is there. */
  function WithBody(c: Config, t: Trace, m: Message): Trace
    requires m.Body?
  {
    var received := t.received + BodyOf(m);
    var looks := if t.bodies == 0 then t.bodyFirst && t.headers.Some? && Unsized(t.headers.value) else t.looking;
    t.(phase := if m.more then Streaming else Ended, received := received,
       first := if t.bodies == 0 then Some(m) else t.first, bodies := t.bodies + 1,
       looking := looks && m.more && |received| < c.minimumSize)
  }

  function Extend(c: Config, t: Trace, e: Event): Trace {
    match e
    case TimerFires => t.(fired := t.fired || t.looking)
    case ExpireRuns => if t.fired then CutShort(t) else t
    case Send(Start(h)) => if t.phase.BeforeStart? then t.(phase := Opened, headers := h) else t.(phase := Malformed)
    case Send(Other(_)) => if t.phase.Opened? then t.(phase := Streaming, bodyFirst := false) else CutShort(t)
    case Send(Body(_, _)) =>
      if t.phase.Opened? || t.phase.Streaming? then WithBody(c, t, e.m) else t.(phase := Malformed)
  }

  /** One start, then bodies up to the first that ends it; other messages anywhere; any timer events. */
  function TraceOf(c: Config, es: seq<Event>): Trace {
    if es == [] then NOTHING else Extend(c, TraceOf(c, es[..|es|-1]), es[|es|-1])
  }

  // ------------------------------------------------------------- the invariant

  function SentBytes(sent: seq<Message>): Bytes {
    if sent == [] then []
    else
      var last := sent[|sent|-1];
      SentBytes(sent[..|sent|-1]) + if last.Body? then BodyOf(last) else []
  }

  /** Nothing of the response itself is out. */
  ghost predicate NothingOut(sent: seq<Message>) { forall m <- sent :: m.Other? }

  /** The start message is out exactly once, before every body, with headers `h`. */
  ghost predicate StartedWith(sent: seq<Message>, h: Option<Headers>) {
    exists i :: 0 <= i < |sent| && sent[i] == Start(h) && NothingOut(sent[..i]) && forall m <- sent[i+1..] :: !m.Start?
  }

  /** The timer and its task are as the events tell; a held chunk always has one of the two pending. */
  ghost predicate TimersOk(s: State, t: Trace) {
    && (s.timer <==> s.held.Some?)
    && (s.armed ==> s.timer)
    && (t.bodies == 0 ==> s.tasks == 0 && !s.armed && !t.fired)
    && (s.held.Some? ==> if t.fired then !s.armed && s.tasks > 0 else s.armed && s.tasks == 0)
  }

  ghost predicate TraceOk(s: State, t: Trace) {
    && (t.phase.BeforeStart? || t.phase.Opened? ==> t.bodies == 0 && t.bodyFirst)
    && (t.phase.Streaming? && t.bodies == 0 ==> !t.bodyFirst)
    && (t.phase.Ended? ==> t.bodies > 0)
    && t.cutAfter <= t.bodies && (t.bodies == 0 ==> t.received == [])
    && (t.looking <==> s.held.Some?) && (t.looking ==> t.cutAfter == 0 && t.bodyFirst)
  }

  ghost predicate Idle(c: Config, s: State, t: Trace) {
    t.phase.BeforeStart? && !s.deciding && !s.compressing && s.held.None? && s.ops == [] && NothingOut(s.sent)
  }

  ghost predicate Waiting(c: Config, s: State, t: Trace) {
    && s.deciding && !s.compressing && s.start == t.headers && s.ops == [] && NothingOut(s.sent)
    && if t.phase.Opened? then s.held.None?
       else
         && t.phase.Streaming? && s.held.Some? && s.held.value.Body? && s.held.value.more
         && BodyOf(s.held.value) == t.received && |t.received| < c.minimumSize
         && t.headers.Some? && Unsized(t.headers.value)
  }

  /** Right after the start of an unsized response came a body. */
  predicate LookedAhead(t: Trace) { t.headers.Some? && Unsized(t.headers.value) && t.bodyFirst }

  /** What a body right after the start settles when nothing is held. */
  predicate DueAtOnce(c: Config, h: Headers, first: Message) {
    && first.Body? && Eligible(h)
    && match DeclaredLength(h)
       case Declared(n) => n >= c.minimumSize
       case Unreadable => false
       case Undeclared => first.more || |BodyOf(first)| >= c.minimumSize
  }

  ghost predicate FirstIsDue(c: Config, t: Trace) {
    t.first.Some? && t.headers.Some? && DueAtOnce(c, t.headers.value, t.first.value)
  }

  ghost predicate Plain(c: Config, s: State, t: Trace) {
    && (t.phase.Streaming? || t.phase.Ended?)
    && !s.deciding && !s.compressing && s.held.None? && s.ops == []
    && StartedWith(s.sent, t.headers) && SentBytes(s.sent) == t.received
    && (LookedAhead(t) ==> t.phase.Ended? && |t.received| < c.minimumSize && t.cutAfter == 0)
    && (t.bodyFirst ==> t.bodies > 0) && (t.bodyFirst && !LookedAhead(t) ==> !FirstIsDue(c, t))
  }

  /** The start sent before encoded bodies: its length is that of the first one, if that is also the last. */
  function GzipStart(c: Config, s: State, t: Trace): Option<Headers>
    requires s.ops != [] && t.headers.Some?
  {
    Some(MarkCompressed(t.headers.value, |c.zlib.emit(s.ops[..1])|, !s.ops[0].finish))
  }

  ghost predicate Gzipped(c: Config, s: State, t: Trace) {
    && (t.phase.Streaming? || t.phase.Ended?)
    && !s.deciding && s.held.None? && s.ops != [] && t.headers.Some? && Eligible(t.headers.value)
    && (s.compressing <==> t.phase.Streaming?)
    && OnlyLastFinishes(s.ops) && (s.ops[|s.ops|-1].finish <==> t.phase.Ended?)
    && StartedWith(s.sent, GzipStart(c, s, t))
    && SentBytes(s.sent) == Emitted(c.zlib, s.ops) && Consumed(s.ops) == t.received
    && (LookedAhead(t) ==> |t.received| >= c.minimumSize || t.cutAfter > 0)
    && t.bodies > 0 && t.bodyFirst && (!LookedAhead(t) ==> FirstIsDue(c, t))
  }

  ghost predicate Mode(c: Config, s: State,
                       t: Trace) { Idle(c, s, t) || Waiting(c, s, t) || Plain(c, s, t) || Gzipped(c, s, t) }

  ghost predicate Inv(c: Config, s: State, t: Trace) { TimersOk(s, t) && TraceOk(s, t) && Mode(c, s, t) }

  // -------------------------------------------------------------- preservation

  lemma SentSnoc(sent: seq<Message>, m: Message)
    ensures SentBytes(sent + [m]) == SentBytes(sent) + if m.Body? then BodyOf(m) else []
    ensures NothingOut(sent) && m.Other? ==> NothingOut(sent + [m])
  {
    assert (sent + [m])[..|sent|] == sent;
  }

  lemma StartStays(sent: seq<Message>, m: Message, h: Option<Headers>)
    requires StartedWith(sent, h) && !m.Start?
    ensures StartedWith(sent + [m], h)
  {
    var i :| 0 <= i < |sent| && sent[i] == Start(h) && NothingOut(sent[..i]) && forall m <- sent[i+1..] :: !m.Start?;
    var more := sent + [m];
    assert more[..i] == sent[..i] && more[i+1..] == sent[i+1..] + [m] && more[i] == Start(h);
  }

  lemma StartGoesOut(sent: seq<Message>, h: Option<Headers>)
    requires NothingOut(sent)
    ensures StartedWith(sent + [Start(h)], h)
  {
    var more := sent + [Start(h)];
    assert more[..|sent|] == sent && more[|sent|+1..] == [] && more[|sent|] == Start(h);
  }

  lemma {:induction false} NothingOutHasNoBytes(sent: seq<Message>)
    requires NothingOut(sent)
    ensures SentBytes(sent) == []
  {
    if sent != [] {
      assert sent[|sent|-1] in sent;
      NothingOutHasNoBytes(sent[..|sent|-1]);
    }
  }

  lemma BothGoOut(sent: seq<Message>, h: Option<Headers>, m: Message)
    requires NothingOut(sent) && !m.Start?
    ensures StartedWith(sent + [Start(h)] + [m], h)
  {
    StartGoesOut(sent, h);
    StartStays(sent + [Start(h)], m, h);
  }

  lemma BothBytes(sent: seq<Message>, h: Option<Headers>, m: Message)
    requires NothingOut(sent)
    ensures SentBytes(sent + [Start(h)] + [m]) == if m.Body? then BodyOf(m) else []
  {
    NothingOutHasNoBytes(sent);
    SentSnoc(sent, Start(h));
    SentSnoc(sent + [Start(h)], m);
  }

  lemma EmitBoth(s: State, h: Option<Headers>, m: Message)
    requires NothingOut(s.sent) && !m.Start?
    ensures Emit(s, [Start(h), m]).sent == s.sent + [Start(h)] + [m]
    ensures StartedWith(Emit(s, [Start(h), m]).sent, h)
    ensures SentBytes(Emit(s, [Start(h), m]).sent) == if m.Body? then BodyOf(m) else []
  {
    BothGoOut(s.sent, h, m);
    BothBytes(s.sent, h, m);
    assert s.sent + [Start(h), m] == s.sent + [Start(h)] + [m];
  }

  lemma OpSnoc(z: Zlib, ops: seq<Op>, op: Op)
    ensures Emitted(z, ops + [op]) == Emitted(z, ops) + z.emit(ops + [op])
    ensures Consumed(ops + [op]) == Consumed(ops) + op.data
    ensures OnlyLastFinishes(ops) && (ops == [] || !ops[|ops|-1].finish) ==> OnlyLastFinishes(ops + [op])
    ensures ops != [] ==> (ops + [op])[..1] == ops[..1]
  {
    assert (ops + [op])[..|ops|] == ops;
  }

  /** The undecided state and the trace once `m`, the first body the decision sees, is all that was received. */
  ghost predicate Undecided(s: State, t: Trace, m: Message) {
    && s.deciding && !s.compressing && !s.failed && s.start == t.headers && s.ops == [] && s.held.None?
    && NothingOut(s.sent)
    && m.Body? && BodyOf(m) == t.received && t.phase == (if m.more then Streaming else Ended)
    && (t.cutAfter > 0 ==> m.more)
    && t.bodies > 0 && t.bodyFirst && (!LookedAhead(t) ==> t.first == Some(m))
  }

  lemma DecidePlain(c: Config, s: State, t: Trace, m: Message)
    requires Undecided(s, t, m) && ShouldCompress(c, s.start, m).No?
    ensures Plain(c, Decided(c, s, m), t)
  {
    EmitBoth(s.(deciding := false, compressing := false), s.start, m);
  }

  lemma DecideGzipped(c: Config, s: State, t: Trace, m: Message)
    requires Undecided(s, t, m) && ShouldCompress(c, s.start, m).Yes?
    requires LookedAhead(t) && m.more ==> |t.received| >= c.minimumSize || t.cutAfter > 0
    ensures Gzipped(c, Decided(c, s, m), t)
  {
    OpSnoc(c.zlib, s.ops, Op(BodyOf(m), !m.more));
    var s1 := EncodedInto(s.(deciding := false, compressing := true), m);
    assert s1.ops == [Op(BodyOf(m), !m.more)] && s1.ops[..1] == s1.ops;
    var out := Encoded(c, s1, m.more);
    var h := Some(MarkCompressed(s.start.value, |BodyOf(out)|, m.more));
    EmitBoth(s1, h, out);
    assert Decided(c, s, m).sent == Emit(s1, [Start(h), out]).sent;
  }

  lemma DecideOk(c: Config, s: State, t: Trace, m: Message)
    requires Undecided(s, t, m) && !Decided(c, s, m).failed
    requires LookedAhead(t) && m.more ==> |t.received| >= c.minimumSize || t.cutAfter > 0
    ensures Mode(c, Decided(c, s, m), t)
  {
    if ShouldCompress(c, s.start, m).Yes? {
      DecideGzipped(c, s, t, m);
    } else {
      DecidePlain(c, s, t, m);
    }
  }

  lemma EncodeMore(c: Config, s: State, t: Trace, m: Message)
    requires Gzipped(c, s, t) && t.phase.Streaming? && m.Body?
    ensures Gzipped(c, UnheldHandled(c, s, m), Extend(c, t, Send(m)))
  {
    OpSnoc(c.zlib, s.ops, Op(BodyOf(m), !m.more));
    SentSnoc(s.sent, Encoded(c, EncodedInto(s, m), m.more));
    StartStays(s.sent, Encoded(c, EncodedInto(s, m), m.more), GzipStart(c, s, t));
  }

  lemma PassPlain(c: Config, s: State, t: Trace, m: Message)
    requires Plain(c, s, t) && !m.Start? && !t.looking && (m.Body? ==> t.phase.Streaming?)
    ensures Plain(c, UnheldHandled(c, s, m), Extend(c, t, Send(m)))
  {
    SentSnoc(s.sent, m);
    StartStays(s.sent, m, t.headers);
  }

  lemma PassGzipped(c: Config, s: State, t: Trace, m: Message)
    requires Gzipped(c, s, t) && m.Other? && !t.looking
    ensures Gzipped(c, UnheldHandled(c, s, m), Extend(c, t, Send(m)))
  {
    assert UnheldHandled(c, s, m) == Emit(s, [m]) && Extend(c, t, Send(m)) == t;
    SentSnoc(s.sent, m);
    StartStays(s.sent, m, GzipStart(c, s, t));
  }

  lemma PassThrough(c: Config, s: State, t: Trace, m: Message)
    requires !t.looking && !m.Start? && Extend(c, t, Send(m)).phase != Malformed
    requires (Idle(c, s, t) && m.Other?) || Plain(c, s, t) || (Gzipped(c, s, t) && m.Other?)
    ensures Mode(c, UnheldHandled(c, s, m), Extend(c, t, Send(m)))
  {
    if Plain(c, s, t) {
      PassPlain(c, s, t, m);
    } else if Gzipped(c, s, t) {
      PassGzipped(c, s, t, m);
    } else {
      SentSnoc(s.sent, m);
    }
  }

  lemma FirstMessage(c: Config, s: State, t: Trace, m: Message)
    requires Waiting(c, s, t) && TraceOk(s, t) && !s.failed && t.phase.Opened? && !m.Start?
    requires !UnheldHandled(c, s, m).failed
    ensures Mode(c, UnheldHandled(c, s, m), Extend(c, t, Send(m)))
  {
    var u := Extend(c, t, Send(m));
    if m.Other? {
      EmitBoth(s.(deciding := false, compressing := false), s.start, m);
      assert Plain(c, UnheldHandled(c, s, m), u);
    } else if ShouldHold(c, s.start, m).Yes? {
      assert Waiting(c, UnheldHandled(c, s, m), u);
    } else {
      DecideOk(c, s, u, m);
    }
  }

  lemma ReleaseOk(c: Config, s: State, t: Trace)
    requires s.held.Some? && !Released(c, s).failed
    requires Undecided(s.(held := None), t, s.held.value)
    requires LookedAhead(t) && s.held.value.more ==> |t.received| >= c.minimumSize || t.cutAfter > 0
    ensures Mode(c, Released(c, s), t)
  {
    DecideOk(c, TimerCancelled(s).(held := None), t, s.held.value);
  }

  lemma MergeOk(c: Config, s: State, t: Trace, m: Message)
    requires HoldsBody(s) && Waiting(c, s, t) && TraceOk(s, t) && !s.failed && s.held.Some? && m.Body?
    requires !Merged(c, s, m).failed
    ensures Mode(c, Merged(c, s, m), Extend(c, t, Send(m)))
  {
    var u := Extend(c, t, Send(m));
    var merged := s.(held := Some(Body(Some(BodyOf(s.held.value) + BodyOf(m)), m.more)));
    if !m.more || |u.received| >= c.minimumSize {
      ReleaseOk(c, merged, u);
    } else {
      assert Waiting(c, merged, u);
    }
  }

  /** A cut look-ahead gives up the held chunk. */
  lemma CutOk(c: Config, s: State, t: Trace)
    requires HoldsBody(s) && Waiting(c, s, t) && TraceOk(s, t) && !s.failed && s.held.Some?
    ensures Released(c, s).failed || Mode(c, Released(c, s), CutShort(t))
    ensures CutShort(t).cutAfter > 0
  {
    assert t.bodies > 0;
    if !Released(c, s).failed { ReleaseOk(c, s, CutShort(t)); }
  }

  /** Another message while a chunk is held releases the chunk first, then passes through. */
  lemma InterruptOk(c: Config, s: State, t: Trace, m: Message)
    requires HoldsBody(s) && Waiting(c, s, t) && TraceOk(s, t) && !s.failed && s.held.Some? && m.Other?
    requires !Handled(c, s, m).failed
    ensures Mode(c, Handled(c, s, m), Extend(c, t, Send(m)))
  {
    CutOk(c, s, t);
    var r, u := Released(c, s), CutShort(t);
    assert !r.deciding && r.held.None? && u == Extend(c, t, Send(m)) == Extend(c, u, Send(m));
    PassThrough(c, r, u, m);
  }

  lemma UnheldOk(c: Config, s: State, t: Trace, m: Message)
    requires Inv(c, s, t) && !s.failed && s.held.None? && !m.Start?
    requires Extend(c, t, Send(m)).phase != Malformed && !UnheldHandled(c, s, m).failed
    ensures Mode(c, UnheldHandled(c, s, m), Extend(c, t, Send(m)))
  {
    if s.deciding { FirstMessage(c, s, t, m); }
    else if s.compressing && m.Body? { EncodeMore(c, s, t, m); }
    else { PassThrough(c, s, t, m); }
  }

  lemma StepKeepsMode(c: Config, s: State, t: Trace, e: Event)
    requires HoldsBody(s) && Inv(c, s, t) && !s.failed
    requires Extend(c, t, e).phase != Malformed && !Step(c, s, e).failed
    ensures Mode(c, Step(c, s, e), Extend(c, t, e))
  {
    match e
    case TimerFires => TimerMode(c, s, t);
    case ExpireRuns => if s.tasks > 0 && s.held.Some? { ExpireMode(c, s, t); } else { IdleExpiry(c, s, t); }
    case Send(m) =>
      if m.Start? {
        assert Waiting(c, Handled(c, s, m), Extend(c, t, e));
      } else if s.held.None? { UnheldOk(c, s, t, m); }
      else if m.Body? { MergeOk(c, s, t, m); }
      else { InterruptOk(c, s, t, m); }
  }

  lemma TimerMode(c: Config, s: State, t: Trace)
    requires HoldsBody(s) && Inv(c, s, t) && !s.failed
    ensures Mode(c, Step(c, s, TimerFires), Extend(c, t, TimerFires))
  {}

  lemma ExpireMode(c: Config, s: State, t: Trace)
    requires HoldsBody(s) && Inv(c, s, t) && !s.failed && s.tasks > 0 && s.held.Some?
    requires !Step(c, s, ExpireRuns).failed
    ensures Mode(c, Step(c, s, ExpireRuns), Extend(c, t, ExpireRuns))
  {
    var u := s.(tasks := s.tasks - 1);
    assert Waiting(c, u, t);
    CutOk(c, u, t);
  }

  lemma IdleExpiry(c: Config, s: State, t: Trace)
    requires HoldsBody(s) && Inv(c, s, t) && !s.failed && (s.tasks == 0 || s.held.None?)
    ensures Mode(c, Step(c, s, ExpireRuns), Extend(c, t, ExpireRuns))
  {
    assert Extend(c, t, ExpireRuns) == t;
  }

  lemma StepKeepsBooks(c: Config, s: State, t: Trace, e: Event)
    requires HoldsBody(s) && Inv(c, s, t) && !s.failed
    requires Extend(c, t, e).phase != Malformed && !Step(c, s, e).failed
    ensures TimersOk(Step(c, s, e), Extend(c, t, e)) && TraceOk(Step(c, s, e), Extend(c, t, e))
  {
    if e.Send? && e.m.Body? {
      if s.held.Some? { MergedBooks(c, s, t, e.m); } else { UnheldBooks(c, s, t, e.m); }
    }
  }

  lemma MergedBooks(c: Config, s: State, t: Trace, m: Message)
    requires HoldsBody(s) && Inv(c, s, t) && !s.failed && s.held.Some? && m.Body? && !Merged(c, s, m).failed
    ensures TimersOk(Merged(c, s, m), Extend(c, t, Send(m))) && TraceOk(Merged(c, s, m), Extend(c, t, Send(m)))
  {}

  lemma UnheldBooks(c: Config, s: State, t: Trace, m: Message)
    requires Inv(c, s, t) && !s.failed && s.held.None? && m.Body? && !UnheldHandled(c, s, m).failed
    requires Extend(c, t, Send(m)).phase != Malformed
    ensures TimersOk(UnheldHandled(c, s, m), Extend(c, t, Send(m)))
    ensures TraceOk(UnheldHandled(c, s, m), Extend(c, t, Send(m)))
  {}

  /** Every step of every interleaving keeps the invariant, as long as nothing is raised. */
  lemma StepKeepsInv(c: Config, s: State, t: Trace, e: Event)
    requires HoldsBody(s) && Inv(c, s, t) && !s.failed
    requires Extend(c, t, e).phase != Malformed && !Step(c, s, e).failed
    ensures Inv(c, Step(c, s, e), Extend(c, t, e))
  {
    StepKeepsMode(c, s, t, e);
    StepKeepsBooks(c, s, t, e);
  }

  // ------------------------------------------------------- results over runs

  lemma {:induction false} RunKeepsInv(c: Config, es: seq<Event>)
    requires TraceOf(c, es).phase != Malformed && !Run(c, es).failed
    ensures Inv(c, Run(c, es), TraceOf(c, es))
  {
    if es != [] {
      RunKeepsInv(c, es[..|es|-1]);
      StepKeepsInv(c, Run(c, es[..|es|-1]), TraceOf(c, es[..|es|-1]), es[|es|-1]);
    }
  }

  function HeldBytes(s: State): Bytes
    requires HoldsBody(s)
  {
    if s.held.Some? then BodyOf(s.held.value) else []
  }

  /** What the client has after decoding every body sent so far, gzip or not. */
  ghost function Decoded(c: Config, s: State): Bytes {
    if s.ops == [] then SentBytes(s.sent) else c.zlib.inflate(SentBytes(s.sent))
  }

  /** Nothing is lost, repeated or reordered: at every moment of every run the decoded output
      followed by the held chunk is exactly what the application sent, and at the end nothing is held. */
  lemma {:induction false} BytesAreConserved(c: Config, es: seq<Event>)
    requires Sound(c.zlib) && TraceOf(c, es).phase != Malformed && !Run(c, es).failed
    ensures Decoded(c, Run(c, es)) + HeldBytes(Run(c, es)) == TraceOf(c, es).received
    ensures TraceOf(c, es).phase == Ended ==> Run(c, es).held.None? && !Run(c, es).timer
  {
    RunKeepsInv(c, es);
    InvConserves(c, Run(c, es), TraceOf(c, es));
  }

  lemma InvConserves(c: Config, s: State, t: Trace)
    requires Sound(c.zlib) && HoldsBody(s) && Inv(c, s, t)
    ensures Decoded(c, s) + HeldBytes(s) == t.received && (t.phase.Ended? ==> s.held.None? && !s.timer)
  {
    if Idle(c, s, t) || Waiting(c, s, t) { NothingOutHasNoBytes(s.sent); }
  }

  /** The start goes out once and before every body, unchanged for a plain body; exactly when the bodies are
      encoded it says gzip, with every other header kept. */
  lemma {:induction false} HeadersAgreeWithBytes(c: Config, es: seq<Event>)
    requires TraceOf(c, es).phase != Malformed && !Run(c, es).failed
    ensures var s, t := Run(c, es), TraceOf(c, es);
      || (NothingOut(s.sent) && s.ops == [] && !t.phase.Ended?)
      || (StartedWith(s.sent, t.headers) && s.ops == [])
      || (exists h :: StartedWith(s.sent, Some(h)) && s.ops != [] && t.headers.Some?
            && MayBeGzipped(t.headers.value) && MarkedFrom(h, t.headers.value))
  {
    RunKeepsInv(c, es);
    var s, t := Run(c, es), TraceOf(c, es);
    if Gzipped(c, s, t) {
      MarkingMarks(t.headers.value, |c.zlib.emit(s.ops[..1])|, !s.ops[0].finish);
      EligibleMeans(t.headers.value);
    }
  }

  lemma GzippedLength(c: Config, s: State, t: Trace, h: Headers)
    requires Gzipped(c, s, t) && t.phase == Ended && StartedWith(s.sent, Some(h)) && "content-length" in h
    ensures Declares(h, |SentBytes(s.sent)|)
  {
    var size, more := |c.zlib.emit(s.ops[..1])|, !s.ops[0].finish;
    OneStart(s.sent, Some(h), Some(MarkCompressed(t.headers.value, size, more)));
    MarkedLength(t.headers.value, size, more);
    assert |s.ops| == 1 && s.ops[..1] == s.ops && s.ops[..0] == [];
    assert Emitted(c.zlib, s.ops) == Emitted(c.zlib, []) + c.zlib.emit(s.ops);
  }

  /** A declared length is the number of body bytes on the wire (section 8.6 of RFC 9110). */
  lemma {:induction false} ContentLengthIsTrue(c: Config, es: seq<Event>, h: Headers)
    requires TraceOf(c, es).phase == Ended && !Run(c, es).failed
    requires var t := TraceOf(c, es);
      t.headers.Some? && "content-length" in t.headers.value ==> Declares(t.headers.value, |t.received|)
    requires StartedWith(Run(c, es).sent, Some(h)) && "content-length" in h
    ensures Declares(h, |SentBytes(Run(c, es).sent)|)
  {
    RunKeepsInv(c, es);
    if Gzipped(c, Run(c, es), TraceOf(c, es)) {
      GzippedLength(c, Run(c, es), TraceOf(c, es), h);
    } else {
      OneStart(Run(c, es).sent, Some(h), TraceOf(c, es).headers);
    }
  }

  lemma OneStart(sent: seq<Message>, h: Option<Headers>, k: Option<Headers>)
    requires StartedWith(sent, h) && StartedWith(sent, k)
    ensures h == k
  {
    var i :| 0 <= i < |sent| && sent[i] == Start(h) && NothingOut(sent[..i]) && forall m <- sent[i+1..] :: !m.Start?;
    var j :| 0 <= j < |sent| && sent[j] == Start(k) && NothingOut(sent[..j]) && forall m <- sent[j+1..] :: !m.Start?;
    NothingBefore(sent, i);
    NothingBefore(sent, j);
  }

  lemma NothingBefore(sent: seq<Message>, i: nat)
    requires i <= |sent| && NothingOut(sent[..i])
    ensures forall k :: 0 <= k < i ==> sent[k].Other?
  {
    forall k | 0 <= k < i ensures sent[k].Other? {
      assert sent[..i][k] in sent[..i];
    }
  }

  /** Only a body that begins an unsized response, and no line-delimited stream, is ever held; a held chunk
      is shorter than the minimum, and something is pending that will release it. */
  lemma {:induction false} HeldIsShortAndTimed(c: Config, es: seq<Event>)
    requires TraceOf(c, es).phase != Malformed && !Run(c, es).failed && Run(c, es).held.Some?
    ensures |HeldBytes(Run(c, es))| < c.minimumSize
    ensures Run(c, es).timer && (Run(c, es).armed || Run(c, es).tasks > 0)
    ensures var t := TraceOf(c, es);
      && t.bodyFirst && t.headers.Some? && MayBeGzipped(t.headers.value) && "content-length" !in t.headers.value
      && MediaType(Get(t.headers.value, "content-type")) !in LINE_STREAM_TYPES
  {
    RunKeepsInv(c, es);
    EligibleMeans(TraceOf(c, es).headers.value);
  }

  /** The decision does not depend on chunking: a body right after the start of an unsized response is
      gzipped exactly when it reaches the minimum or its look-ahead was cut short. */
  lemma DecisionIgnoresChunking(c: Config, es: seq<Event>)
    requires TraceOf(c, es).phase == Ended && !Run(c, es).failed
    requires LookedAhead(TraceOf(c, es))
    ensures Run(c, es).ops != [] <==> |TraceOf(c, es).received| >= c.minimumSize || TraceOf(c, es).cutAfter > 0
  {
    RunKeepsInv(c, es);
  }

  lemma GzipsAsDue(c: Config, es: seq<Event>)
    requires TraceOf(c, es).phase == Ended && !Run(c, es).failed
    ensures var t := TraceOf(c, es);
      Run(c, es).ops != [] <==>
        t.bodyFirst && if LookedAhead(t) then |t.received| >= c.minimumSize || t.cutAfter > 0 else FirstIsDue(c, t)
  {
    RunKeepsInv(c, es);
  }

  /** A response that headers forbid to gzip, or that another message begins, is left alone. */
  lemma NeverGzipped(c: Config, es: seq<Event>)
    requires TraceOf(c, es).phase == Ended && !Run(c, es).failed
    requires var t := TraceOf(c, es); t.headers.None? || !t.bodyFirst || !MayBeGzipped(t.headers.value)
    ensures Run(c, es).ops == []
  {
    GzipsAsDue(c, es);
    if TraceOf(c, es).headers.Some? { EligibleMeans(TraceOf(c, es).headers.value); }
  }

  /** A declared length decides, however the body comes. */
  lemma DeclaredLengthDecides(c: Config, es: seq<Event>, n: nat)
    requires TraceOf(c, es).phase == Ended && !Run(c, es).failed && TraceOf(c, es).bodyFirst
    requires var t := TraceOf(c, es);
      t.headers.Some? && MayBeGzipped(t.headers.value) && Declares(t.headers.value, n)
    ensures Run(c, es).ops != [] <==> n >= c.minimumSize
  {
    var h := TraceOf(c, es).headers.value;
    EligibleMeans(h);
    NothingUnreadable(c, es);
    DeclaredIsRead(h, n);
    assert DeclaredLength(h) == Declared(n) && !Unsized(h);
    GzipsAsDue(c, es);
    FirstIsABody(c, es);
  }

  /** What has not raised had a length that can be read, if it matters. */
  lemma NothingUnreadable(c: Config, es: seq<Event>)
    requires TraceOf(c, es).phase == Ended && !Run(c, es).failed && TraceOf(c, es).bodyFirst
    ensures var t := TraceOf(c, es);
      t.first.Some? && t.headers.Some? && (Eligible(t.headers.value) ==> !DeclaredLength(t.headers.value).Unreadable?)
  {
    RunKeepsInv(c, es);
    RaisesExactly(c, es);
    TracePrefix(c, es);
  }

  /** Without one, line-delimited streams, and lengths that are no number, go by the first body alone. */
  lemma FirstBodyDecides(c: Config, es: seq<Event>)
    requires TraceOf(c, es).phase == Ended && !Run(c, es).failed && TraceOf(c, es).bodyFirst
    requires var t := TraceOf(c, es);
      && t.headers.Some? && MayBeGzipped(t.headers.value) && !AllDigitLike(Get(t.headers.value, "content-length"))
      && ("content-length" in t.headers.value
          || MediaType(Get(t.headers.value, "content-type")) in LINE_STREAM_TYPES)
    ensures var first := TraceOf(c, es).first;
      && first.Some? && first.value.Body?
      && (Run(c, es).ops != [] <==> first.value.more || |BodyOf(first.value)| >= c.minimumSize)
  {
    GzipsAsDue(c, es);
    NothingUnreadable(c, es);
    FirstIsABody(c, es);
    OddLengths(TraceOf(c, es).headers.value);
    EligibleMeans(TraceOf(c, es).headers.value);
  }

  /** And all others by everything that came, in however many bodies, or by the cut of the look-ahead. */
  lemma WholeBodyDecides(c: Config, es: seq<Event>)
    requires TraceOf(c, es).phase == Ended && !Run(c, es).failed && TraceOf(c, es).bodyFirst
    requires var t := TraceOf(c, es);
      && t.headers.Some? && MayBeGzipped(t.headers.value) && "content-length" !in t.headers.value
      && MediaType(Get(t.headers.value, "content-type")) !in LINE_STREAM_TYPES
    ensures Run(c, es).ops != [] <==> |TraceOf(c, es).received| >= c.minimumSize || TraceOf(c, es).cutAfter > 0
  {
    GzipsAsDue(c, es);
    EligibleMeans(TraceOf(c, es).headers.value);
  }

  lemma {:induction false} FirstIsABody(c: Config, es: seq<Event>)
    ensures TraceOf(c, es).first.Some? ==> TraceOf(c, es).first.value.Body?
  {
    if es != [] { FirstIsABody(c, es[..|es|-1]); }
  }

  /** Looking ahead is cut short only while too little of a body still streaming is there. */
  lemma {:induction false} CutsHappenEarly(c: Config, es: seq<Event>, e: Event)
    requires TraceOf(c, es).phase != Malformed && Extend(c, TraceOf(c, es), e).cutAfter != TraceOf(c, es).cutAfter
    ensures var t := TraceOf(c, es); LookedAhead(t) && t.phase.Streaming? && |t.received| < c.minimumSize
    ensures e == ExpireRuns || (e.Send? && e.m.Other?)
  {
    LookingMeans(c, es);
    OnlyLookingIsCut(c, TraceOf(c, es), e);
  }

  lemma OnlyLookingIsCut(c: Config, t: Trace, e: Event)
    requires Extend(c, t, e).cutAfter != t.cutAfter
    ensures t.looking && (e == ExpireRuns || (e.Send? && e.m.Other?))
  {}

  lemma {:induction false} LookingMeans(c: Config, es: seq<Event>)
    ensures var t := TraceOf(c, es);
      && (t.looking ==> LookedAhead(t) && (t.phase.Streaming? || t.phase.Malformed?))
      && (t.looking ==> |t.received| < c.minimumSize && t.bodies > 0)
  {
    if es != [] { LookingMeans(c, es[..|es|-1]); }
  }

  // ------------------------------------------------------ when a run raises

  /** The first body comes without its key and starts a look-ahead. */
  predicate KeylessHold(c: Config, t: Trace) {
    && t.bodyFirst && t.first.Some? && t.first.value.Body? && t.first.value.body.None?
    && ShouldHold(c, t.headers, t.first.value).Yes?
  }

  /** A guard on what came in, for a body right after the start: the start has no `headers` key, or
      the declared length is one `int` refuses, or the body is held although it has no `body` key and
      another body follows before an expiry or another message releases it. */
  predicate WillRaise(c: Config, t: Trace) {
    || (t.bodies >= 1 && t.bodyFirst
          && (t.headers.None? || (Eligible(t.headers.value) && DeclaredLength(t.headers.value).Unreadable?)))
    || (t.bodies >= 2 && KeylessHold(c, t) && t.cutAfter != 1)
  }

  predicate KeylessHeld(s: State) { s.held.Some? && s.held.value.Body? && s.held.value.body.None? }

  /** Exactly a held first chunk without its key is kept for a later merge to trip over. */
  ghost predicate KeylessInv(c: Config, s: State, t: Trace) {
    !WillRaise(c, t) && (KeylessHeld(s) <==> t.bodies == 1 && KeylessHold(c, t) && t.cutAfter == 0)
  }

  lemma FirstBodyRaises(c: Config, s: State, t: Trace, m: Message)
    requires HoldsBody(s) && !s.failed && Inv(c, s, t) && KeylessInv(c, s, t) && m.Body? && t.bodies == 0
    requires t.phase.Opened? || t.phase.Streaming?
    ensures Handled(c, s, m).failed <==> WillRaise(c, Extend(c, t, Send(m)))
    ensures !Handled(c, s, m).failed ==> KeylessInv(c, Handled(c, s, m), Extend(c, t, Send(m)))
  {}

  lemma LaterBodyRaises(c: Config, s: State, t: Trace, m: Message)
    requires HoldsBody(s) && !s.failed && Inv(c, s, t) && KeylessInv(c, s, t) && m.Body? && t.phase.Streaming?
    requires t.bodies > 0
    ensures Handled(c, s, m).failed <==> WillRaise(c, Extend(c, t, Send(m)))
    ensures !Handled(c, s, m).failed ==> KeylessInv(c, Handled(c, s, m), Extend(c, t, Send(m)))
  {}

  lemma OtherRaises(c: Config, s: State, t: Trace, m: Message)
    requires HoldsBody(s) && !s.failed && Inv(c, s, t) && KeylessInv(c, s, t) && !m.Body?
    requires Extend(c, t, Send(m)).phase != Malformed
    ensures !Handled(c, s, m).failed && KeylessInv(c, Handled(c, s, m), Extend(c, t, Send(m)))
  {}

  lemma TimerRaises(c: Config, s: State, t: Trace, e: Event)
    requires HoldsBody(s) && !s.failed && Inv(c, s, t) && KeylessInv(c, s, t) && !e.Send?
    requires t.phase != Malformed
    ensures !Step(c, s, e).failed && KeylessInv(c, Step(c, s, e), Extend(c, t, e))
  {}

  lemma StepRaises(c: Config, s: State, t: Trace, e: Event)
    requires HoldsBody(s) && !s.failed && Inv(c, s, t) && KeylessInv(c, s, t)
    requires Extend(c, t, e).phase != Malformed
    ensures Step(c, s, e).failed <==> WillRaise(c, Extend(c, t, e))
    ensures !Step(c, s, e).failed ==> KeylessInv(c, Step(c, s, e), Extend(c, t, e))
  {
    if !e.Send? {
      TimerRaises(c, s, t, e);
    } else if !e.m.Body? {
      OtherRaises(c, s, t, e.m);
    } else if t.bodies == 0 {
      FirstBodyRaises(c, s, t, e.m);
    } else {
      LaterBodyRaises(c, s, t, e.m);
    }
  }

  lemma OnceRaising(c: Config, t: Trace, e: Event)
    requires WillRaise(c, t) && Extend(c, t, e).phase != Malformed
    requires t.bodies > 0 ==> t.phase.Streaming? || t.phase.Ended?
    ensures WillRaise(c, Extend(c, t, e))
  {
    var u := Extend(c, t, e);
    assert u.headers == t.headers && u.first == t.first && u.bodyFirst == t.bodyFirst && u.bodies >= t.bodies;
    assert t.bodies >= 2 && u.cutAfter == 1 ==> t.cutAfter == 1;
    assert KeylessHold(c, u) == KeylessHold(c, t);
  }

  /** Over every run, expiries at any moment included: an exception leaves the responder exactly when
      `WillRaise` says so. */
  lemma {:induction false} RaisesExactly(c: Config, es: seq<Event>)
    requires TraceOf(c, es).phase != Malformed
    ensures Run(c, es).failed <==> WillRaise(c, TraceOf(c, es))
    ensures !Run(c, es).failed ==> KeylessInv(c, Run(c, es), TraceOf(c, es))
  {
    if es != [] {
      var before, e := es[..|es|-1], es[|es|-1];
      RaisesExactly(c, before);
      TracePrefix(c, before);
      if Run(c, before).failed {
        OnceRaising(c, TraceOf(c, before), e);
      } else {
        RunKeepsInv(c, before);
        StepRaises(c, Run(c, before), TraceOf(c, before), e);
      }
    }
  }

  lemma {:induction false} TracePrefix(c: Config, es: seq<Event>)
    requires TraceOf(c, es).phase != Malformed
    ensures TraceOf(c, es).bodies > 0 <==> TraceOf(c, es).first.Some?
    ensures TraceOf(c, es).bodies > 0 ==> TraceOf(c, es).phase.Streaming? || TraceOf(c, es).phase.Ended?
  {
    if es != [] { TracePrefix(c, es[..|es|-1]); }
  }

  // ------------------------------------------------- message by message

  /** The messages that are neither start nor body. */
  function Others(ms: seq<Message>): seq<Message> {
    if ms == [] then [] else Others(ms[..|ms|-1]) + if ms[|ms|-1].Other? then [ms[|ms|-1]] else []
  }

  /** What the application sent. */
  function SentIn(es: seq<Event>): seq<Message> {
    if es == [] then [] else SentIn(es[..|es|-1]) + if es[|es|-1].Send? then [es[|es|-1].m] else []
  }

  lemma OthersSnoc(ms: seq<Message>, m: Message)
    ensures Others(ms + [m]) == Others(ms) + if m.Other? then [m] else []
  {
    assert (ms + [m])[..|ms|] == ms;
  }

  /** A body is sent as a body with its `more`, another message as it is. */
  predicate Echoes(out: Message, m: Message) { if m.Body? then out.Body? && out.more == m.more else out == m }

  /** For `m` one message is sent, perhaps after a start. */
  ghost predicate SendsFor(before: seq<Message>, after: seq<Message>, m: Message) {
    && after != [] && Echoes(after[|after|-1], m)
    && var rest := after[..|after|-1];
       rest == before || (rest != [] && rest[|rest|-1].Start? && rest[..|rest|-1] == before)
  }

  lemma SendsBoth(sent: seq<Message>, h: Option<Headers>, out: Message, m: Message)
    requires Echoes(out, m)
    ensures SendsFor(sent, sent + [Start(h), out], m)
  {
    var after := sent + [Start(h), out];
    assert after[..|after|-1] == sent + [Start(h)] && (sent + [Start(h)])[..|sent|] == sent;
  }

  lemma SendsOne(sent: seq<Message>, out: Message, m: Message)
    requires Echoes(out, m)
    ensures SendsFor(sent, sent + [out], m)
  {
    assert (sent + [out])[..|sent|] == sent;
  }

  lemma DecidedSendsFor(c: Config, s: State, m: Message)
    requires !Decided(c, s, m).failed && !m.Start?
    ensures SendsFor(s.sent, Decided(c, s, m).sent, m) && Decided(c, s, m).held == s.held
  {
    if m.Body? && ShouldCompress(c, s.start, m).Yes? {
      var out := Encoded(c, EncodedInto(s.(deciding := false, compressing := true), m), m.more);
      SendsBoth(s.sent, Decided(c, s, m).start, out, m);
    } else {
      SendsBoth(s.sent, s.start, m, m);
    }
  }

  lemma ReleasedSendsFor(c: Config, s: State)
    requires s.held.Some? && s.held.value.Body? && !Released(c, s).failed
    ensures SendsFor(s.sent, Released(c, s).sent, s.held.value) && Released(c, s).held.None?
  {
    DecidedSendsFor(c, TimerCancelled(s).(held := None), s.held.value);
  }

  lemma UnheldSendsFor(c: Config, s: State, m: Message)
    requires s.held.None? && !m.Start? && !UnheldHandled(c, s, m).failed
    ensures var r := UnheldHandled(c, s, m);
      if r.held.Some? then m.Body? && m.more && r.held.value == m && r.sent == s.sent else SendsFor(s.sent, r.sent, m)
  {
    if s.deciding {
      if ShouldHold(c, s.start, m).No? { DecidedSendsFor(c, s, m); }
    } else if s.compressing && m.Body? {
      SendsOne(s.sent, Encoded(c, EncodedInto(s, m), m.more), m);
    } else {
      SendsOne(s.sent, m, m);
    }
  }

  /** Bodies sent so far all announce more. */
  ghost predicate Going(sent: seq<Message>) { forall k :: 0 <= k < |sent| && sent[k].Body? ==> sent[k].more }

  /** Body `i` is the only one that says that nothing more comes, and none follows it. */
  ghost predicate LastAt(sent: seq<Message>, i: nat) {
    && i < |sent| && sent[i].Body? && !sent[i].more
    && forall k :: 0 <= k < |sent| && sent[k].Body? && k != i ==> k < i && sent[k].more
  }

  ghost predicate Finished(sent: seq<Message>) { exists i: nat :: LastAt(sent, i) }

  /** One message more. */
  ghost predicate Adds(before: seq<Message>, after: seq<Message>, m: Message) {
    after != [] && after[..|after|-1] == before && after[|after|-1] == m
  }

  lemma StaysGoing(before: seq<Message>, after: seq<Message>, m: Message)
    requires Adds(before, after, m) && Going(before) && (m.Body? ==> m.more)
    ensures Going(after)
  {
    forall k | 0 <= k < |after| && after[k].Body? ensures after[k].more {
      if k < |before| { assert before[k] == after[k]; }
    }
  }

  lemma GetsFinished(before: seq<Message>, after: seq<Message>, m: Message)
    requires Adds(before, after, m) && Going(before) && m.Body? && !m.more
    ensures Finished(after)
  {
    forall k | 0 <= k < |before| ensures before[k] == after[k] {}
    assert LastAt(after, |before|);
  }

  lemma StaysFinished(before: seq<Message>, after: seq<Message>, m: Message)
    requires Adds(before, after, m) && Finished(before) && !m.Body?
    ensures Finished(after)
  {
    var i: nat :| LastAt(before, i);
    forall k | 0 <= k < |before| ensures before[k] == after[k] {}
    assert LastAt(after, i);
  }

  lemma OneMore(before: seq<Message>, after: seq<Message>, m: Message)
    requires Adds(before, after, m)
    ensures Going(before) ==> if m.Body? && !m.more then Finished(after) else Going(after)
    ensures !m.Body? && Finished(before) ==> Finished(after)
  {
    if Going(before) {
      if m.Body? && !m.more { GetsFinished(before, after, m); } else { StaysGoing(before, after, m); }
    }
    if !m.Body? && Finished(before) { StaysFinished(before, after, m); }
  }

  lemma SendsOthers(before: seq<Message>, after: seq<Message>, m: Message)
    requires SendsFor(before, after, m)
    ensures Others(after) == Others(before) + if m.Other? then [m] else []
  {
    var rest, out := after[..|after|-1], after[|after|-1];
    OthersSnoc(rest, out);
    assert after == rest + [out];
    if rest != before {
      OthersSnoc(before, rest[|rest|-1]);
      assert rest == before + [rest[|rest|-1]];
    }
  }

  lemma SendsMarks(before: seq<Message>, after: seq<Message>, m: Message)
    requires SendsFor(before, after, m)
    ensures Going(before) ==> if m.Body? && !m.more then Finished(after) else Going(after)
    ensures !m.Body? && Finished(before) ==> Finished(after)
  {
    var rest := after[..|after|-1];
    if rest != before { OneMore(before, rest, rest[|rest|-1]); }
    OneMore(rest, after, after[|after|-1]);
  }

  lemma SendsKeep(before: seq<Message>, after: seq<Message>, m: Message)
    requires SendsFor(before, after, m)
    ensures Others(after) == Others(before) + if m.Other? then [m] else []
    ensures Going(before) ==> if m.Body? && !m.more then Finished(after) else Going(after)
    ensures !m.Body? && Finished(before) ==> Finished(after)
  {
    SendsOthers(before, after, m);
    SendsMarks(before, after, m);
  }

  /** A held body with more to come, and then another message. */
  lemma TwoSends(before: seq<Message>, mid: seq<Message>, after: seq<Message>, b: Message, m: Message)
    requires SendsFor(before, mid, b) && b.Body? && b.more && SendsFor(mid, after, m) && m.Other?
    ensures Others(after) == Others(before) + [m] && (Going(before) ==> Going(after))
  {
    SendsKeep(before, mid, b);
    SendsKeep(mid, after, m);
  }

  /** The last body sent says that nothing more comes exactly when the application's has. */
  ghost predicate EndsWell(sent: seq<Message>, t: Trace) { if t.phase.Ended? then Finished(sent) else Going(sent) }

  /** How what is sent grows from `s` to `r` by what the event brings. */
  ghost predicate Passes(s: State, r: State, t: Trace, u: Trace, e: Event) {
    && Others(r.sent) == Others(s.sent) + (if e.Send? && e.m.Other? then [e.m] else [])
    && (EndsWell(s.sent, t) ==> EndsWell(r.sent, u))
    && (e.Send? && e.m.Other? ==> r.held.None? && r.sent != [] && r.sent[|r.sent|-1] == e.m)
  }

  lemma BodyPasses(c: Config, s: State, t: Trace, m: Message)
    requires HoldsBody(s) && Inv(c, s, t) && !s.failed && m.Body? && !Handled(c, s, m).failed
    requires t.phase.Opened? || t.phase.Streaming?
    ensures Passes(s, Handled(c, s, m), t, Extend(c, t, Send(m)), Send(m))
  {
    var r := Handled(c, s, m);
    if s.held.None? {
      UnheldSendsFor(c, s, m);
      if r.held.None? { SendsKeep(s.sent, r.sent, m); }
    } else if r.held.None? {
      var merged := Body(Some(BodyOf(s.held.value) + BodyOf(m)), m.more);
      ReleasedSendsFor(c, s.(held := Some(merged)));
      SendsKeep(s.sent, r.sent, merged);
    }
  }

  lemma OtherPasses(c: Config, s: State, t: Trace, m: Message)
    requires HoldsBody(s) && Inv(c, s, t) && !s.failed && m.Other? && !Handled(c, s, m).failed
    ensures Passes(s, Handled(c, s, m), t, Extend(c, t, Send(m)), Send(m))
  {
    var after := Handled(c, s, m);
    if s.held.Some? {
      var r := Released(c, s);
      ReleasedSendsFor(c, s);
      UnheldSendsFor(c, r, m);
      TwoSends(s.sent, r.sent, after.sent, s.held.value, m);
    } else {
      UnheldSendsFor(c, s, m);
      SendsKeep(s.sent, after.sent, m);
    }
  }

  lemma StepPasses(c: Config, s: State, t: Trace, e: Event)
    requires HoldsBody(s) && Inv(c, s, t) && !s.failed
    requires Extend(c, t, e).phase != Malformed && !Step(c, s, e).failed
    ensures Passes(s, Step(c, s, e), t, Extend(c, t, e), e)
  {
    match e
    case TimerFires =>
    case ExpireRuns =>
      if s.tasks > 0 && s.held.Some? {
        ReleasedSendsFor(c, s.(tasks := s.tasks - 1));
        SendsKeep(s.sent, Step(c, s, e).sent, s.held.value);
      }
    case Send(m) => if m.Body? { BodyPasses(c, s, t, m); } else if m.Other? { OtherPasses(c, s, t, m); }
  }

  /** Other messages all go out, unchanged, in their order and at their place: whatever came before such a
      message is out before it. */
  lemma {:induction false} OtherMessagesKeepTheirPlace(c: Config, es: seq<Event>)
    requires TraceOf(c, es).phase != Malformed && !Run(c, es).failed
    ensures Others(Run(c, es).sent) == Others(SentIn(es))
    ensures es != [] && es[|es|-1].Send? && es[|es|-1].m.Other? ==>
      var s := Run(c, es); s.held.None? && s.sent != [] && s.sent[|s.sent|-1] == es[|es|-1].m
  {
    if es != [] {
      var before, e := es[..|es|-1], es[|es|-1];
      OtherMessagesKeepTheirPlace(c, before);
      RunKeepsInv(c, before);
      StepPasses(c, Run(c, before), TraceOf(c, before), e);
      if e.Send? {
        OthersSnoc(SentIn(before), e.m);
      } else {
        assert SentIn(before) + [] == SentIn(before);
      }
    }
  }

  /** The client sees the end exactly when the application has sent it: until then every body sent says
      that more comes, and then one body, the last, says it is the last. */
  lemma {:induction false} EndIsSentOnce(c: Config, es: seq<Event>)
    requires TraceOf(c, es).phase != Malformed && !Run(c, es).failed
    ensures EndsWell(Run(c, es).sent, TraceOf(c, es))
  {
    if es != [] {
      var before := es[..|es|-1];
      EndIsSentOnce(c, before);
      RunKeepsInv(c, before);
      StepPasses(c, Run(c, before), TraceOf(c, before), es[|es|-1]);
    }
  }

  /** So a first body with its key and a readable declared length is safe under every interleaving. */
  lemma {:induction false} KeyedBodiesNeverRaise(c: Config, es: seq<Event>)
    requires var t := TraceOf(c, es);
      && t.phase != Malformed && (t.first.Some? ==> t.headers.Some?)
      && (t.headers.Some? ==> !DeclaredLength(t.headers.value).Unreadable?)
    requires TraceOf(c, es).first.Some? ==> TraceOf(c, es).first.value.Body? && TraceOf(c, es).first.value.body.Some?
    ensures !Run(c, es).failed
  {
    RaisesExactly(c, es);
    TracePrefix(c, es);
  }

  /** Messages ASGI allows that the responder cannot serve: an empty first chunk sent without its
      `body` key. Nothing at all reaches the client. */
  lemma KeylessFirstChunkRaises(c: Config, rest: Bytes)
    requires c.minimumSize > 0
    ensures var es := [Send(Start(Some(map[]))), Send(Body(None, true)), Send(Body(Some(rest), false))];
      TraceOf(c, es).phase == Ended && Run(c, es).failed && Run(c, es).sent == []
  {
    var es := [Send(Start(Some(map[]))), Send(Body(None, true)), Send(Body(Some(rest), false))];
    var e1, e2 := es[..1], es[..2];
    assert e1[..0] == [] && e2[..1] == e1 && es[..|es|-1] == e2;
    assert Run(c, []) == INITIAL;
    assert Run(c, e1) == INITIAL.(start := Some(map[]), deciding := true);
    assert Unsized(map[]);
    assert Run(c, e2) == Run(c, e1).(held := Some(Body(None, true)), timer := true, armed := true);
    assert TraceOf(c, e1) == Extend(c, NOTHING, es[0]);
    assert TraceOf(c, e2) == Extend(c, TraceOf(c, e1), es[1]);
    assert TraceOf(c, e1).phase == Opened && TraceOf(c, e2).phase == Streaming;
  }

  /** Nor can it serve an eligible response whose length `int` refuses: more digits than it converts, or
      a superscript among them. */
  lemma RefusedLengthRaises(c: Config, h: Headers, body: Option<Bytes>)
    requires MayBeGzipped(h) && AllDigitLike(Get(h, "content-length"))
    requires |Get(h, "content-length")| > MAX_DIGITS || !AllDigits(Get(h, "content-length"))
    ensures var es := [Send(Start(Some(h))), Send(Body(body, false))];
      TraceOf(c, es).phase == Ended && Run(c, es).failed && Run(c, es).sent == []
  {
    var es := [Send(Start(Some(h))), Send(Body(body, false))];
    var e1 := es[..1];
    OddLengths(h);
    EligibleMeans(h);
    assert e1[..0] == [] && es[..|es|-1] == e1;
    assert Run(c, []) == INITIAL;
    assert Run(c, e1) == INITIAL.(start := Some(h), deciding := true);
    assert TraceOf(c, e1) == Extend(c, NOTHING, es[0]);
  }

  /** Nor can it serve any body right after a start without its `headers` key. */
  lemma HeaderlessStartRaises(c: Config, body: Option<Bytes>)
    ensures var es := [Send(Start(None)), Send(Body(body, false))];
      TraceOf(c, es).phase == Ended && Run(c, es).failed && Run(c, es).sent == []
  {
    var es := [Send(Start(None)), Send(Body(body, false))];
    var e1 := es[..1];
    assert e1[..0] == [] && es[..|es|-1] == e1;
    assert Run(c, []) == INITIAL;
    assert Run(c, e1) == INITIAL.(deciding := true);
    assert TraceOf(c, e1) == Extend(c, NOTHING, es[0]);
  }

  // ------------------------------------------------------------ the responder

  /** The source's object. `armed`, `tasks` and `sent` are the event loop's and the server's side of it. */
  class GzipResponder {
    const config: Config
    var start: Option<Headers>
    var deciding: bool
    var compressing: bool
    var held: Option<Message>
    var timer: bool
    var ops: seq<Op>
    var armed: bool
    var tasks: nat
    var sent: seq<Message>
    var raised: bool

    function View(): State
      reads this
    {
      State(start, deciding, compressing, held, timer, ops, armed, tasks, sent, raised)
    }

    constructor (config: Config)
      ensures this.config == config && View() == INITIAL
    {
      this.config := config;
      start, deciding, compressing, held, timer := None, false, false, None, false;
      ops, armed, tasks, sent, raised := [], false, 0, [], false;
    }

    method CancelTimer()
      modifies this`timer, this`armed
      ensures View() == TimerCancelled(old(View()))
    {
      if timer {
        armed := false;
        timer := false;
      }
    }

    method EncodeInto(m: Message) returns (out: Message)
      requires m.Body?
      modifies this`ops, this`compressing
      ensures View() == EncodedInto(old(View()), m) && out == Encoded(config, View(), m.more)
    {
      ops := ops + [Op(BodyOf(m), !m.more)];
      out := Body(Some(config.zlib.emit(ops)), m.more);
      if !m.more {
        compressing := false;
      }
    }

    method Decide(m: Message)
      modifies this
      ensures View() == Decided(config, old(View()), m)
    {
      deciding := false;
      var message := m;
      if m.Body? {
        var verdict := ShouldCompress(config, start, m);
        if verdict.Raises? {
          raised := true;
          return;
        }
        compressing := verdict.Yes?;
      } else {
        compressing := false;
      }
      if compressing {
        message := EncodeInto(m);
        start := Some(MarkCompressed(start.value, |BodyOf(message)|, m.more));
      }
      sent := sent + [Start(start), message];
    }

    method ReleaseHeld()
      requires held.Some?
      modifies this
      ensures View() == Released(config, old(View()))
    {
      CancelTimer();
      var chunk := held.value;
      held := None;
      Decide(chunk);
    }

    method MergeHeld(m: Message)
      requires held.Some? && held.value.Body? && m.Body?
      modifies this
      ensures View() == Merged(config, old(View()), m)
    {
      if held.value.body.None? {
        raised := true;
        return;
      }
      held := Some(Body(Some(BodyOf(held.value) + BodyOf(m)), m.more));
      if !m.more || |BodyOf(held.value)| >= config.minimumSize {
        ReleaseHeld();
      }
    }

    /** One message from the application, under the lock. */
    method Handle(m: Message)
      requires HoldsBody(View()) && !raised
      modifies this
      ensures View() == Step(config, old(View()), Send(m))
    {
      if m.Start? {
        start := m.headers;
        deciding := true;
        return;
      }
      if held.Some? && !m.Body? {
        ReleaseHeld();
        if raised { return; }
      }
      if held.Some? {
        MergeHeld(m);
      } else if deciding {
        var verdict := ShouldHold(config, start, m);
        if verdict.Raises? {
          raised := true;
          return;
        }
        if verdict.Yes? {
          held := Some(m);
          timer := true;
          armed := true;
          return;
        }
        Decide(m);
      } else if compressing && m.Body? {
        var message := EncodeInto(m);
        sent := sent + [message];
      } else {
        sent := sent + [m];
      }
    }

    /** The event loop fires the timer: the expiry becomes a task of its own. */
    method ExpireLookahead()
      requires armed && !raised && HoldsBody(View())
      modifies this
      ensures View() == Step(config, old(View()), TimerFires)
    {
      armed := false;
      tasks := tasks + 1;
    }

    /** An expiry task, perhaps stale, gets the lock. */
    method Expire()
      requires tasks > 0 && !raised && HoldsBody(View())
      modifies this
      ensures View() == Step(config, old(View()), ExpireRuns)
    {
      tasks := tasks - 1;
      if held.Some? {
        ReleaseHeld();
      }
    }
  }
}
