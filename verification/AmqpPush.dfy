/**
 Push (amqp.go) by any number of callers on one client, as a step system with time.  The callers
 share the channel of confirmations, which the supervisor may replace and the library may close.
 Time stands still while a caller can go on: waits end as soon as something they wait for is there.
 */
module AmqpPush {
  import opened Wrappers
  import opened Runs
  import opened Counting

  datatype Config = Config(maxRetries: int, timeout: int, resendDelay: int)

  datatype Result = Confirmed | NotConnected | TimedOut | ShutDown | Exhausted

  datatype Phase =
    | Publishing(since: int)            // in UnsafePush
    | Resending(until: int)             // the publish failed, waiting to send again
    | Confirming(source: nat)           // waiting on a channel of confirmations
    | Returned(result: Result, at: int)

  /** A call: when its deadline was set, its attempt, its publishes so far and what they took. */
  datatype Call = Call(started: int, attempt: nat, published: nat, spent: int, longest: int, phase: Phase)

  /** A channel of confirmations, which has room for one. */
  datatype Confirms = Confirms(buffer: Option<bool>, closed: bool)

  datatype State = State(now: int, ready: bool, done: bool, calls: seq<Call>, chans: seq<Confirms>, current: nat, acks: nat)

  datatype Step =
    | Begin
    | Tick(d: nat)
    | PublishReturns(c: nat, ok: bool)
    | Resend(c: nat)
    | Receive(c: nat)
    | Deadline(c: nat)
    | Shut(c: nat)
    | Deliver(i: nat, ack: bool)
    | CloseChannel(i: nat)
    | Reopen
    | SetReady(ready: bool)
    | SetDone

  function SetCall(s: State, c: nat, x: Call): State
    requires c < |s.calls|
  {
    s.(calls := s.calls[c := x])
  }

  /** The head of the loop, for the given attempt. */
  function Loop(cfg: Config, x: Call, attempt: nat, now: int): Call {
    if attempt < cfg.maxRetries then x.(attempt := attempt, phase := Publishing(now))
    else x.(phase := Returned(Exhausted, now))
  }

  function Max(a: int, b: int): int { if a < b then b else a }

  function Beginning(cfg: Config, s: State): Call {
    var x := Call(s.now, 0, 0, 0, 0, Returned(NotConnected, s.now));
    if s.ready then Loop(cfg, x, 0, s.now) else x
  }

  /** UnsafePush returns. */
  function Published(cfg: Config, s: State, x: Call, ok: bool): Call
    requires x.phase.Publishing?
  {
    var took := s.now - x.phase.since;
    x.(published := x.published + 1, spent := x.spent + took, longest := Max(x.longest, took),
       phase := if ok then Confirming(s.current) else Resending(s.now + cfg.resendDelay))
  }

  /** A call takes what is in its channel of confirmations; a closed one gives an empty answer,
      which is no acknowledgement. */
  function Receiving(cfg: Config, s: State, c: nat): Option<State>
    requires c < |s.calls|
  {
    var x := s.calls[c];
    if !x.phase.Confirming? || x.phase.source >= |s.chans| then None
    else
      var i := x.phase.source;
      var ch := s.chans[i];
      match ch.buffer
      case Some(ack) =>
        Some(SetCall(s.(chans := s.chans[i := ch.(buffer := None)]), c,
                     if ack then x.(phase := Returned(Confirmed, s.now)) else Loop(cfg, x, x.attempt + 1, s.now)))
      case None =>
        if ch.closed then Some(SetCall(s, c, Loop(cfg, x, x.attempt + 1, s.now))) else None
  }

  predicate Waits(x: Call) { x.phase.Resending? || x.phase.Confirming? }

  /** Time may pass: no call waits beyond its deadline or its delay. */
  predicate MayPass(cfg: Config, x: Call, now: int) {
    && (Waits(x) ==> now <= x.started + cfg.timeout)
    && (x.phase.Resending? ==> now <= x.phase.until)
  }

  function Calling(cfg: Config, s: State, t: Step): Option<State>
    requires t.PublishReturns? || t.Resend? || t.Receive? || t.Deadline? || t.Shut?
  {
    if t.c >= |s.calls| then None
    else
      var x := s.calls[t.c];
      match t
      case PublishReturns(c, ok) => if x.phase.Publishing? then Some(SetCall(s, c, Published(cfg, s, x, ok))) else None
      case Resend(c) =>
        if x.phase.Resending? && x.phase.until <= s.now then Some(SetCall(s, c, Loop(cfg, x, x.attempt + 1, s.now))) else None
      case Receive(c) => Receiving(cfg, s, c)
      case Deadline(c) =>
        if Waits(x) && x.started + cfg.timeout <= s.now then Some(SetCall(s, c, x.(phase := Returned(TimedOut, s.now))))
        else None
      case Shut(c) =>
        if Waits(x) && s.done then Some(SetCall(s, c, x.(phase := Returned(ShutDown, s.now)))) else None
  }

  function Next(cfg: Config, s: State, t: Step): Option<State> {
    match t
    case Begin => Some(s.(calls := s.calls + [Beginning(cfg, s)]))
    case Tick(d) =>
      if d == 0 || forall i | 0 <= i < |s.calls| :: MayPass(cfg, s.calls[i], s.now + d) then Some(s.(now := s.now + d))
      else None
    case Deliver(i, ack) =>
      if i < |s.chans| && !s.chans[i].closed && s.chans[i].buffer.None? then
        Some(s.(chans := s.chans[i := s.chans[i].(buffer := Some(ack))], acks := s.acks + if ack then 1 else 0))
      else None
    case CloseChannel(i) => if i < |s.chans| then Some(s.(chans := s.chans[i := s.chans[i].(closed := true)])) else None
    case Reopen => Some(s.(chans := s.chans + [Confirms(None, false)], current := |s.chans|))
    case SetReady(ready) => Some(s.(ready := ready))
    case SetDone => Some(s.(done := true))
    case _ => Calling(cfg, s, t)
  }

  function NextFor(cfg: Config): (State, Step) -> Option<State> {
    (s, t) => Next(cfg, s, t)
  }

  const INITIAL := State(0, false, false, [], [], 0, 0)

  ghost predicate Reaches(cfg: Config, steps: seq<Step>, s: State) {
    Run(NextFor(cfg), INITIAL, steps) == Some(s)
  }

  // ---------- confirmations ----------

  function IsConfirmed(): Call -> bool { (x: Call) => x.phase.Returned? && x.phase.result.Confirmed? }

  function HoldsAck(): Confirms -> bool { (ch: Confirms) => ch.buffer == Some(true) }

  /** Every acknowledgement ever delivered has been the nil of one call, or lies in a buffer. */
  ghost predicate AcksFit(s: State) {
    Count(s.calls, IsConfirmed()) + Count(s.chans, HoldsAck()) == s.acks
  }

  lemma CountOne<T>(p: T -> bool, x: T)
    ensures Count([x], p) == if p(x) then 1 else 0
  {
    assert [x][..0] == [];
  }

  lemma AcksReceiving(cfg: Config, s: State, c: nat)
    requires AcksFit(s) && c < |s.calls| && Receiving(cfg, s, c).Some?
    ensures AcksFit(Receiving(cfg, s, c).value)
  {
    hide Count;
    var s' := Receiving(cfg, s, c).value;
    var i := s.calls[c].phase.source;
    CountUpdate(s.calls, c, s'.calls[c], IsConfirmed());
    CountUpdate(s.chans, i, s'.chans[i], HoldsAck());
  }

  lemma AcksStep(cfg: Config, s: State, t: Step)
    requires AcksFit(s) && Next(cfg, s, t).Some?
    ensures AcksFit(Next(cfg, s, t).value)
  {
    hide Count;
    var s' := Next(cfg, s, t).value;
    match t
    case Begin =>
      CountAppend(s.calls, [Beginning(cfg, s)], IsConfirmed());
      CountOne(IsConfirmed(), Beginning(cfg, s));
    case Deliver(i, ack) => CountUpdate(s.chans, i, s'.chans[i], HoldsAck());
    case CloseChannel(i) => CountUpdate(s.chans, i, s'.chans[i], HoldsAck());
    case Reopen =>
      CountAppend(s.chans, [Confirms(None, false)], HoldsAck());
      CountOne(HoldsAck(), Confirms(None, false));
    case Receive(c) => AcksReceiving(cfg, s, c);
    case PublishReturns(c, _) => CountUpdate(s.calls, c, s'.calls[c], IsConfirmed());
    case Resend(c) => CountUpdate(s.calls, c, s'.calls[c], IsConfirmed());
    case Deadline(c) => CountUpdate(s.calls, c, s'.calls[c], IsConfirmed());
    case Shut(c) => CountUpdate(s.calls, c, s'.calls[c], IsConfirmed());
    case _ =>
  }

  /** Calls never return nil more often than the broker has acknowledged. */
  lemma NilsAreAcknowledged(cfg: Config, steps: seq<Step>, s: State)
    requires Reaches(cfg, steps, s)
    ensures Count(s.calls, IsConfirmed()) <= s.acks
  {
    hide Next, Run, Count, AcksFit;
    AcksInitially();
    forall m, t | AcksFit(m) && NextFor(cfg)(m, t).Some? ensures AcksFit(NextFor(cfg)(m, t).value) {
      AcksStep(cfg, m, t);
    }
    InvariantHolds(NextFor(cfg), m => AcksFit(m), INITIAL, steps);
    AcksBound(s);
  }

  lemma AcksInitially()
    ensures AcksFit(INITIAL)
  {
  }

  lemma AcksBound(s: State)
    requires AcksFit(s)
    ensures Count(s.calls, IsConfirmed()) <= s.acks
  {
  }

  // ---------- publishes and time ----------

  /** What `n` publishes can take when none takes longer than `longest`. */
  function Worst(n: nat, longest: int): int { n * longest }

  lemma OneMorePublish(n: nat, spent: int, longest: int, took: int)
    requires spent <= Worst(n, longest) && 0 <= longest && 0 <= took
    ensures spent + took <= Worst(n + 1, Max(longest, took))
  {
    assert n * longest <= n * Max(longest, took);
    assert (n + 1) * Max(longest, took) == n * Max(longest, took) + Max(longest, took);
  }

  lemma WorstGrows(n: nat, m: nat, longest: int)
    requires n <= m && 0 <= longest
    ensures Worst(n, longest) <= Worst(m, longest)
  {
  }

  /** Until when a call may have been waiting: its deadline, and what it spent on publishing. */
  function Latest(cfg: Config, x: Call): int { x.started + Max(0, cfg.timeout) + x.spent }

  /** Of a call: each attempt publishes once, what it spent is bounded by its longest publish,
      and all the rest is waiting, which ends at the deadline. */
  ghost predicate CallFits(cfg: Config, x: Call, now: int) {
    && x.started <= now && 0 <= x.longest && 0 <= x.spent && x.spent <= Worst(x.published, x.longest)
    && match x.phase
       case Publishing(since) => x.published == x.attempt < cfg.maxRetries && since <= now && since <= Latest(cfg, x)
       case Returned(_, at) => x.published <= Max(0, cfg.maxRetries) && at <= Latest(cfg, x)
       case Resending(_) => x.published == x.attempt + 1 <= cfg.maxRetries && now <= Latest(cfg, x)
       case Confirming(_) => x.published == x.attempt + 1 <= cfg.maxRetries && now <= Latest(cfg, x)
  }

  ghost predicate CallsFit(cfg: Config, s: State) {
    forall c | 0 <= c < |s.calls| :: CallFits(cfg, s.calls[c], s.now)
  }

  lemma CallLoops(cfg: Config, x: Call, now: int)
    requires CallFits(cfg, x, now) && Waits(x)
    ensures CallFits(cfg, Loop(cfg, x, x.attempt + 1, now), now)
  {
    hide Worst;
  }

  lemma CallPublishes(cfg: Config, s: State, x: Call, ok: bool)
    requires CallFits(cfg, x, s.now) && x.phase.Publishing?
    ensures CallFits(cfg, Published(cfg, s, x, ok), s.now)
  {
    hide Worst;
    OneMorePublish(x.published, x.spent, x.longest, s.now - x.phase.since);
  }

  lemma CallPasses(cfg: Config, x: Call, now: int, d: nat)
    requires CallFits(cfg, x, now) && (MayPass(cfg, x, now + d) || d == 0)
    ensures CallFits(cfg, x, now + d)
  {
    hide Worst;
  }

  lemma CallsBegin(cfg: Config, s: State)
    ensures CallFits(cfg, Beginning(cfg, s), s.now)
  {
  }

  /** One call moves. */
  lemma OneCall(cfg: Config, s: State, c: nat, x: Call)
    requires CallsFit(cfg, s) && c < |s.calls| && CallFits(cfg, x, s.now)
    ensures CallsFit(cfg, SetCall(s, c, x))
  {
    hide CallFits;
  }

  lemma CallingFits(cfg: Config, s: State, t: Step)
    requires CallsFit(cfg, s) && (t.PublishReturns? || t.Resend? || t.Receive? || t.Deadline? || t.Shut?)
    requires Calling(cfg, s, t).Some?
    ensures CallsFit(cfg, Calling(cfg, s, t).value)
  {
    hide CallsFit, CallFits, Loop, Published;
    var x := s.calls[t.c];
    assert CallFits(cfg, x, s.now) by { FitsOne(cfg, s, t.c); }
    if t.PublishReturns? {
      CallPublishes(cfg, s, x, t.ok);
    } else {
      CallLoops(cfg, x, s.now);
      forall result { CallReturns(cfg, x, result, s.now); }
    }
    var s' := Calling(cfg, s, t).value;
    OneCall(cfg, s, t.c, s'.calls[t.c]);
    SameCalls(cfg, SetCall(s, t.c, s'.calls[t.c]), s');
  }

  lemma FitsOne(cfg: Config, s: State, c: nat)
    requires CallsFit(cfg, s) && c < |s.calls|
    ensures CallFits(cfg, s.calls[c], s.now)
  {
  }

  lemma SameCalls(cfg: Config, s: State, s': State)
    requires CallsFit(cfg, s) && s'.calls == s.calls && s'.now == s.now
    ensures CallsFit(cfg, s')
  {
  }

  lemma CallReturns(cfg: Config, x: Call, result: Result, now: int)
    requires CallFits(cfg, x, now) && Waits(x)
    ensures CallFits(cfg, x.(phase := Returned(result, now)), now)
  {
    hide Worst;
  }

  lemma CallsStep(cfg: Config, s: State, t: Step)
    requires CallsFit(cfg, s) && Next(cfg, s, t).Some?
    ensures CallsFit(cfg, Next(cfg, s, t).value)
  {
    match t
    case Begin =>
      hide CallFits, Beginning;
      CallsBegin(cfg, s);
    case Tick(d) =>
      hide CallFits, MayPass;
      forall c | 0 <= c < |s.calls| ensures CallFits(cfg, s.calls[c], s.now + d) {
        CallPasses(cfg, s.calls[c], s.now, d);
      }
    case PublishReturns(_, _) => CallingFits(cfg, s, t);
    case Resend(_) => CallingFits(cfg, s, t);
    case Receive(_) => CallingFits(cfg, s, t);
    case Deadline(_) => CallingFits(cfg, s, t);
    case Shut(_) => CallingFits(cfg, s, t);
    case _ => SameCalls(cfg, s, Next(cfg, s, t).value);
  }

  lemma CallsOfRun(cfg: Config, steps: seq<Step>, s: State)
    requires Reaches(cfg, steps, s)
    ensures CallsFit(cfg, s)
  {
    hide Next, Run, CallsFit;
    assert CallsFit(cfg, INITIAL) by { NoCalls(cfg); }
    forall m, t | CallsFit(cfg, m) && NextFor(cfg)(m, t).Some? ensures CallsFit(cfg, NextFor(cfg)(m, t).value) {
      CallsStep(cfg, m, t);
    }
    InvariantHolds(NextFor(cfg), m => CallsFit(cfg, m), INITIAL, steps);
  }

  lemma NoCalls(cfg: Config)
    ensures CallsFit(cfg, INITIAL)
  {
  }

  /** A call publishes at most `maxRetries` times, and is over within its timeout plus as many
      times its longest publish. */
  lemma PushIsBounded(cfg: Config, steps: seq<Step>, s: State, c: nat)
    requires Reaches(cfg, steps, s) && c < |s.calls|
    ensures s.calls[c].published <= Max(0, cfg.maxRetries)
    ensures s.calls[c].phase.Returned? ==>
              s.calls[c].phase.at - s.calls[c].started <= Max(0, cfg.timeout) + Max(0, cfg.maxRetries) * s.calls[c].longest
  {
    hide Reaches, Worst, CallsFit;
    CallsOfRun(cfg, steps, s);
    var x := s.calls[c];
    assert CallFits(cfg, x, s.now) by { FitsOne(cfg, s, c); }
    WorstGrows(x.published, Max(0, cfg.maxRetries), x.longest);
    WorstIs(Max(0, cfg.maxRetries), x.longest);
  }

  /** What a result says: a call gives up only after all its attempts, times out only at its deadline,
      speaks of a shutdown only when there is one, and is told that there is no connection before it
      has published anything. */
  predicate ResultFits(cfg: Config, x: Call, done: bool) {
    x.phase.Returned? ==>
      match x.phase.result
      case Confirmed => x.published > 0
      case NotConnected => x.published == 0 && x.phase.at == x.started
      case TimedOut => x.published > 0 && x.started + cfg.timeout <= x.phase.at
      case ShutDown => x.published > 0 && done
      case Exhausted => x.published == Max(0, cfg.maxRetries)
  }

  ghost predicate ResultsFit(cfg: Config, s: State) {
    forall c | 0 <= c < |s.calls| :: ResultFits(cfg, s.calls[c], s.done)
  }

  lemma CallingResults(cfg: Config, s: State, t: Step)
    requires (t.PublishReturns? || t.Resend? || t.Receive? || t.Deadline? || t.Shut?) && Calling(cfg, s, t).Some?
    requires t.c < |s.calls| && CallFits(cfg, s.calls[t.c], s.now)
    ensures var s' := Calling(cfg, s, t).value;
            s'.done == s.done && |s'.calls| == |s.calls| && s'.calls == s.calls[t.c := s'.calls[t.c]]
            && ResultFits(cfg, s'.calls[t.c], s.done)
  {
    hide Worst, Latest;
  }

  lemma ResultsStep(cfg: Config, s: State, t: Step)
    requires ResultsFit(cfg, s) && CallsFit(cfg, s) && Next(cfg, s, t).Some?
    ensures ResultsFit(cfg, Next(cfg, s, t).value)
  {
    hide CallFits, Calling, ResultFits, MayPass;
    match t
    case Begin => BeginningResult(cfg, s);
    case PublishReturns(c, _) => OthersResults(cfg, s, t);
    case Resend(_) => OthersResults(cfg, s, t);
    case Receive(_) => OthersResults(cfg, s, t);
    case Deadline(_) => OthersResults(cfg, s, t);
    case Shut(_) => OthersResults(cfg, s, t);
    case SetDone => forall c | 0 <= c < |s.calls| { StillDue(cfg, s.calls[c], s.done); }
    case _ =>
  }

  lemma OthersResults(cfg: Config, s: State, t: Step)
    requires (t.PublishReturns? || t.Resend? || t.Receive? || t.Deadline? || t.Shut?) && Calling(cfg, s, t).Some?
    requires ResultsFit(cfg, s) && CallsFit(cfg, s)
    ensures ResultsFit(cfg, Calling(cfg, s, t).value)
  {
    assert t.c < |s.calls|;
    hide CallFits, Calling, ResultFits;
    CallingResults(cfg, s, t);
  }

  lemma BeginningResult(cfg: Config, s: State)
    ensures ResultFits(cfg, Beginning(cfg, s), s.done)
  {
  }

  lemma StillDue(cfg: Config, x: Call, done: bool)
    requires ResultFits(cfg, x, done)
    ensures ResultFits(cfg, x, true)
  {
  }

  lemma NoResults(cfg: Config)
    ensures ResultsFit(cfg, INITIAL)
  {
  }

  /** In every run each call that has returned has the result that is due. */
  lemma ResultsAreDue(cfg: Config, steps: seq<Step>, s: State, c: nat)
    requires Reaches(cfg, steps, s) && c < |s.calls|
    ensures ResultFits(cfg, s.calls[c], s.done)
  {
    hide Next, Run, CallsFit, ResultsFit;
    assert CallsFit(cfg, INITIAL) && ResultsFit(cfg, INITIAL) by { NoCalls(cfg); NoResults(cfg); }
    forall m, t | CallsFit(cfg, m) && ResultsFit(cfg, m) && NextFor(cfg)(m, t).Some?
      ensures CallsFit(cfg, NextFor(cfg)(m, t).value) && ResultsFit(cfg, NextFor(cfg)(m, t).value)
    {
      CallsStep(cfg, m, t);
      ResultsStep(cfg, m, t);
    }
    InvariantHolds(NextFor(cfg), m => CallsFit(cfg, m) && ResultsFit(cfg, m), INITIAL, steps);
    OneResult(cfg, s, c);
  }

  lemma OneResult(cfg: Config, s: State, c: nat)
    requires ResultsFit(cfg, s) && c < |s.calls|
    ensures ResultFits(cfg, s.calls[c], s.done)
  {
  }

  function NotConnectedCalls(): Call -> bool { (x: Call) => x.phase.Returned? && x.phase.result.NotConnected? }

  /** A call begins while the client is not ready. */
  function BeginsUnready(): (State, Step) -> bool { (s: State, t: Step) => t.Begin? && !s.ready }

  lemma NotConnectedStep(cfg: Config, s: State, t: Step)
    requires Next(cfg, s, t).Some?
    ensures Count(Next(cfg, s, t).value.calls, NotConnectedCalls())
            == Count(s.calls, NotConnectedCalls()) + if BeginsUnready()(s, t) then 1 else 0
  {
    hide Count;
    var s' := Next(cfg, s, t).value;
    if t.Begin? {
      CountAppend(s.calls, [Beginning(cfg, s)], NotConnectedCalls());
      CountOne(NotConnectedCalls(), Beginning(cfg, s));
    } else if s'.calls != s.calls {
      assert s'.calls == s.calls[t.c := s'.calls[t.c]];
      CountUpdate(s.calls, t.c, s'.calls[t.c], NotConnectedCalls());
    }
  }

  /** In every run exactly those calls are told that there is no connection that begin while the client
      is not ready. */
  lemma {:induction false} NotConnectedIsExact(cfg: Config, steps: seq<Step>, s: State)
    requires Reaches(cfg, steps, s)
    ensures Count(s.calls, NotConnectedCalls()) == CountIn(NextFor(cfg), INITIAL, steps, BeginsUnready())
  {
    if steps != [] {
      var n := |steps| - 1;
      var m := Run(NextFor(cfg), INITIAL, steps[..n]).value;
      NotConnectedIsExact(cfg, steps[..n], m);
      hide Next, Count, CountIn, NotConnectedCalls, BeginsUnready;
      NotConnectedStep(cfg, m, steps[n]);
      CountOneMore(NextFor(cfg), INITIAL, steps, BeginsUnready());
    }
  }

  lemma WorstIs(n: nat, longest: int)
    ensures Worst(n, longest) == n * longest
  {
  }

  /** A step of call `c`. */
  predicate IsOf(t: Step, c: nat) {
    (t.PublishReturns? || t.Resend? || t.Receive? || t.Deadline? || t.Shut?) && t.c == c
  }

  lemma {:induction false} StaysAsItIs(cfg: Config, m: State, steps: seq<Step>, s: State, c: nat)
    requires Run(NextFor(cfg), m, steps) == Some(s) && c < |m.calls| && forall i | 0 <= i < |steps| :: !IsOf(steps[i], c)
    ensures c < |s.calls| && s.calls[c] == m.calls[c]
  {
    if steps != [] {
      var n := |steps| - 1;
      StaysAsItIs(cfg, m, steps[..n], Run(NextFor(cfg), m, steps[..n]).value, c);
    }
  }

  /** From any state: a call whose publish has failed begins the next attempt no sooner than the delay
      after, and then only if attempts are left; otherwise it gives up. */
  lemma ResendsAreDelayed(cfg: Config, m: State, c: nat, steps: seq<Step>, s: State)
    requires c < |m.calls| && Next(cfg, m, PublishReturns(c, false)).Some?
    requires Run(NextFor(cfg), Next(cfg, m, PublishReturns(c, false)).value, steps) == Some(s)
    requires (forall i | 0 <= i < |steps| :: !IsOf(steps[i], c)) && Next(cfg, s, Resend(c)).Some?
    ensures s.now - m.now >= cfg.resendDelay
    ensures var x := Next(cfg, s, Resend(c)).value.calls[c];
            x.phase == if m.calls[c].attempt + 1 < cfg.maxRetries then Publishing(s.now) else Returned(Exhausted, s.now)
  {
    StaysAsItIs(cfg, Next(cfg, m, PublishReturns(c, false)).value, steps, s, c);
  }

  /** Time is never stuck: when it may not pass, some call that waits can go on. */
  lemma SomeCallCanGoOn(cfg: Config, s: State) returns (t: Step)
    requires Next(cfg, s, Tick(1)).None?
    ensures (t.Deadline? || t.Resend?) && Next(cfg, s, t).Some?
  {
    var i :| 0 <= i < |s.calls| && !MayPass(cfg, s.calls[i], s.now + 1);
    t := if s.calls[i].phase.Resending? && s.calls[i].phase.until <= s.now then Resend(i) else Deadline(i);
  }
}
