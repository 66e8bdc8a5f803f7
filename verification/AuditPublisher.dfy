/**
 The audit publisher (audittrail_publisher.go) as a step system: callers of Submit, any number of
 workers on one bounded channel, a lock-free circuit breaker with its cooldown goroutines, and
 Stop.  A step is one action on shared data: a channel operation, an atomic load, store, add or
 compare-and-swap, a `go` statement, a call on the client.
 */
module AuditPublisher {
  import opened Wrappers

  /** `id` is the place of the message in the order of acceptance. */
  datatype Message = Message(id: nat, payload: string)

  /** Where a worker goroutine is. */
  datatype Worker =
    | Waiting                       // at the receive of its loop
    | Got(msg: Message)             // about to ask the client whether it is ready
    | Marshalling(msg: Message)
    | Pushing(msg: Message)
    | Resetting                     // pushed, about to store 0 into the failure counter
    | Failing                       // in recordFailure, before the add
    | Counted(n: nat, at: nat)      // the add returned n; `at` is the length of the log then
    | Won                           // has opened the breaker, before `go cooldownReset`
    | Exited

  /** Where a cooldown goroutine is. */
  datatype Cooldown = Cooling | Fired | Zeroed | Closed | Left

  /** What happened to the failure counter and the breaker, in order; the counter is reset by a
      success or by a cooldown. */
  datatype Event = Failure | Reset(cooldown: bool) | Opening(n: nat, at: nat)

  datatype Config = Config(workerCount: nat, bufferSize: nat, threshold: nat)

  /** msgChan, with the payloads of the Submit calls that have seen the breaker closed and not yet
      sent, by the number of the call; the payloads accepted so far by id, how many of them workers have received, and the
      messages handed to PushWithTTL in order. */
  datatype Channel = Channel(queue: seq<Message>, passed: map<nat, string>, accepted: seq<string>, taken: nat,
                             handed: seq<Message>)

  /** consecutiveFailures and circuitOpen, and their history. */
  datatype Breaker = Breaker(failures: nat, open: bool, log: seq<Event>)

  /** `done` closed, msgChan closed, Stop returned, a send on the closed channel. */
  datatype Ending = Ending(done: bool, shut: bool, returned: bool, crashed: bool)

  datatype Tally = Tally(submitted: nat, droppedOpen: nat, droppedFull: nat,
                         notReady: nat, marshalFailed: nat, pushFailed: nat, pushed: nat)

  datatype State = State(channel: Channel, workers: seq<Worker>, cooldowns: seq<Cooldown>, breaker: Breaker,
                         ending: Ending, tally: Tally)

  datatype Step =
    | Start
    | SubmitLoad(call: nat, payload: string)
    | SubmitSend(call: nat)
    | StopDone | StopChannel | StopReturn
    | Receive(w: nat) | Exit(w: nat)
    | AskReady(w: nat, ready: bool)
    | Marshal(w: nat, ok: bool)
    | Push(w: nat, ok: bool)
    | StoreZero(w: nat)
    | AddFailure(w: nat)
    | TryOpen(w: nat)
    | Spawn(w: nat)
    | Fire(c: nat) | Leave(c: nat)
    | ZeroFailures(c: nat)
    | Close(c: nat)

  // ---------- Submit ----------

  function Submitting(cfg: Config, s: State, t: Step): Option<State>
    requires t.SubmitLoad? || t.SubmitSend?
  {
    var ch, n := s.channel, s.tally;
    match t
    case SubmitLoad(call, payload) =>
      if call in ch.passed then None
      else Some(if s.breaker.open then s.(tally := n.(submitted := n.submitted + 1, droppedOpen := n.droppedOpen + 1))
                else s.(tally := n.(submitted := n.submitted + 1), channel := ch.(passed := ch.passed[call := payload])))
    case SubmitSend(call) =>
      if call !in ch.passed then None
      else
        var payload, rest := ch.passed[call], ch.passed - {call};
        Some(if s.ending.shut then s.(ending := s.ending.(crashed := true))
             else if |ch.queue| < cfg.bufferSize then
               s.(channel := ch.(passed := rest, queue := ch.queue + [Message(|ch.accepted|, payload)],
                                 accepted := ch.accepted + [payload]))
             else s.(channel := ch.(passed := rest), tally := n.(droppedFull := n.droppedFull + 1)))
  }

  // ---------- the workers ----------

  function SetWorker(s: State, w: nat, x: Worker): State
    requires w < |s.workers|
  {
    s.(workers := s.workers[w := x])
  }

  /** The receive of a worker's loop. */
  function Receiving(s: State, t: Step): Option<State>
    requires t.Receive? || t.Exit?
  {
    if t.w >= |s.workers| || !s.workers[t.w].Waiting? then None
    else
      var ch := s.channel;
      match t
      case Receive(w) =>
        if ch.queue == [] then None
        else Some(SetWorker(s, w, Got(ch.queue[0])).(channel := ch.(queue := ch.queue[1..], taken := ch.taken + 1)))
      case Exit(w) =>
        if ch.queue == [] && s.ending.shut then Some(SetWorker(s, w, Exited)) else None
  }

  /** processMessage up to the result of the push. */
  function Handling(s: State, t: Step): Option<State>
    requires t.AskReady? || t.Marshal? || t.Push?
  {
    if t.w >= |s.workers| then None
    else
      var x, n := s.workers[t.w], s.tally;
      match t
      case AskReady(w, ready) =>
        if !x.Got? then None
        else if ready then Some(SetWorker(s, w, Marshalling(x.msg)))
        else Some(SetWorker(s, w, Failing).(tally := n.(notReady := n.notReady + 1)))
      case Marshal(w, ok) =>
        if !x.Marshalling? then None
        else if ok then Some(SetWorker(s, w, Pushing(x.msg)))
        else Some(SetWorker(s, w, Waiting).(tally := n.(marshalFailed := n.marshalFailed + 1)))
      case Push(w, ok) =>
        if !x.Pushing? then None
        else
          var s' := s.(channel := s.channel.(handed := s.channel.handed + [x.msg]));
          Some(if ok then SetWorker(s', w, Resetting).(tally := n.(pushed := n.pushed + 1))
               else SetWorker(s', w, Failing).(tally := n.(pushFailed := n.pushFailed + 1)))
  }

  // ---------- the breaker ----------

  /** The second half of recordFailure: the test and the compare-and-swap. */
  function Opened(cfg: Config, s: State, w: nat, n: nat, at: nat): State
    requires w < |s.workers|
  {
    if n >= cfg.threshold && !s.breaker.open then
      SetWorker(s, w, Won).(breaker := s.breaker.(open := true, log := s.breaker.log + [Opening(n, at)]))
    else SetWorker(s, w, Waiting)
  }

  function ZeroCounter(b: Breaker, cooldown: bool): Breaker {
    b.(failures := 0, log := b.log + [Reset(cooldown)])
  }

  function CountFailure(b: Breaker): Breaker {
    b.(failures := b.failures + 1, log := b.log + [Failure])
  }

  /** The store of a success, and recordFailure; with `atomic`, recordFailure up to the
      compare-and-swap is one step. */
  function Breaking(cfg: Config, s: State, t: Step, atomic: bool): Option<State>
    requires t.StoreZero? || t.AddFailure? || t.TryOpen? || t.Spawn?
  {
    if t.w >= |s.workers| then None
    else
      var x, b := s.workers[t.w], s.breaker;
      match t
      case StoreZero(w) =>
        if x.Resetting? then Some(SetWorker(s, w, Waiting).(breaker := ZeroCounter(b, false))) else None
      case AddFailure(w) =>
        if !x.Failing? then None
        else
          var n, at := b.failures + 1, |b.log| + 1;
          var s' := SetWorker(s, w, Counted(n, at)).(breaker := CountFailure(b));
          Some(if atomic then Opened(cfg, s', w, n, at) else s')
      case TryOpen(w) =>
        if x.Counted? then Some(Opened(cfg, s, w, x.n, x.at)) else None
      case Spawn(w) =>
        if x.Won? then Some(SetWorker(s, w, Waiting).(cooldowns := s.cooldowns + [Cooling])) else None
  }

  function SetCooldown(s: State, c: nat, x: Cooldown): State
    requires c < |s.cooldowns|
  {
    s.(cooldowns := s.cooldowns[c := x])
  }

  /** cooldownReset: the timer fires or `done` is closed; then the two stores. */
  function CoolingDown(s: State, t: Step): Option<State>
    requires t.Fire? || t.Leave? || t.ZeroFailures? || t.Close?
  {
    if t.c >= |s.cooldowns| then None
    else
      var x, b := s.cooldowns[t.c], s.breaker;
      match t
      case Fire(c) => if x.Cooling? then Some(SetCooldown(s, c, Fired)) else None
      case Leave(c) => if x.Cooling? && s.ending.done then Some(SetCooldown(s, c, Left)) else None
      case ZeroFailures(c) =>
        if x.Fired? then Some(SetCooldown(s, c, Zeroed).(breaker := ZeroCounter(b, true))) else None
      case Close(c) =>
        if x.Zeroed? then Some(SetCooldown(s, c, Cooldown.Closed).(breaker := b.(open := false))) else None
  }

  // ---------- Stop ----------

  predicate AllExited(ws: seq<Worker>) { forall i | 0 <= i < |ws| :: ws[i].Exited? }

  function Stopping(s: State, t: Step): Option<State>
    requires t.StopDone? || t.StopChannel? || t.StopReturn?
  {
    var e := s.ending;
    match t
    case StopDone => if !e.done then Some(s.(ending := e.(done := true))) else None
    case StopChannel => if e.done && !e.shut then Some(s.(ending := e.(shut := true))) else None
    case StopReturn => if e.shut && !e.returned && AllExited(s.workers) then Some(s.(ending := e.(returned := true))) else None
  }

  /** A panic ends the process. */
  function Next(cfg: Config, s: State, t: Step, atomic: bool): Option<State> {
    if s.ending.crashed then None
    else
      match t
      case Start => Some(s.(workers := s.workers + seq(cfg.workerCount, _ => Waiting)))
      case SubmitLoad(_, _) => Submitting(cfg, s, t)
      case SubmitSend(_) => Submitting(cfg, s, t)
      case StopDone => Stopping(s, t)
      case StopChannel => Stopping(s, t)
      case StopReturn => Stopping(s, t)
      case Receive(_) => Receiving(s, t)
      case Exit(_) => Receiving(s, t)
      case AskReady(_, _) => Handling(s, t)
      case Marshal(_, _) => Handling(s, t)
      case Push(_, _) => Handling(s, t)
      case StoreZero(_) => Breaking(cfg, s, t, atomic)
      case AddFailure(_) => Breaking(cfg, s, t, atomic)
      case TryOpen(_) => Breaking(cfg, s, t, atomic)
      case Spawn(_) => Breaking(cfg, s, t, atomic)
      case Fire(_) => CoolingDown(s, t)
      case Leave(_) => CoolingDown(s, t)
      case ZeroFailures(_) => CoolingDown(s, t)
      case Close(_) => CoolingDown(s, t)
  }

  function NextBy(cfg: Config, atomic: bool): (State, Step) -> Option<State> {
    (s, t) => Next(cfg, s, t, atomic)
  }

  /** NewAuditPublisher. */
  const INITIAL := State(Channel([], map[], [], 0, []), [], [], Breaker(0, false, []), Ending(false, false, false, false),
                         Tally(0, 0, 0, 0, 0, 0, 0))
}
