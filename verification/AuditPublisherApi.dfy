/**
 The methods of the publisher as the programs they are.  Each runs among all the others: between
 any two of its own actions the rest may take any steps.  Surroundings in which somebody else
 panics are left aside, since the process ends there.
 */
module AuditPublisherApi {
  import opened Runs
  import opened Counting
  import opened AuditPublisher
  import opened AuditPublisherSafety
  import opened AuditPublisherRuns

  /** Whose action a step is. */
  datatype Actor = Caller(call: nat) | WorkerOf(w: nat) | CooldownOf(c: nat) | Stopper | Starter

  function ActorOf(t: Step): Actor {
    match t
    case Start => Starter
    case SubmitLoad(call, _) => Caller(call)
    case SubmitSend(call) => Caller(call)
    case StopDone => Stopper
    case StopChannel => Stopper
    case StopReturn => Stopper
    case Fire(c) => CooldownOf(c)
    case Leave(c) => CooldownOf(c)
    case ZeroFailures(c) => CooldownOf(c)
    case Close(c) => CooldownOf(c)
    case _ => WorkerOf(t.w)
  }

  /** The steps of one actor, in order. */
  function Own(trace: seq<Step>, a: Actor): seq<Step> {
    if trace == [] then []
    else
      var n := |trace| - 1;
      Own(trace[..n], a) + if ActorOf(trace[n]) == a then [trace[n]] else []
  }

  lemma OwnOneMore(trace: seq<Step>, t: Step, a: Actor)
    ensures Own(trace + [t], a) == Own(trace, a) + if ActorOf(t) == a then [t] else []
  {
    assert (trace + [t])[..|trace|] == trace;
  }

  /** Nobody touches what is an actor's own. */
  ghost predicate Untouched(s: State, s': State, a: Actor) {
    match a
    case Caller(call) =>
      && (call in s.channel.passed <==> call in s'.channel.passed)
      && (call in s.channel.passed ==> s'.channel.passed[call] == s.channel.passed[call])
    case WorkerOf(w) => w < |s.workers| ==> w < |s'.workers| && s'.workers[w] == s.workers[w]
    case CooldownOf(c) => c < |s.cooldowns| ==> c < |s'.cooldowns| && s'.cooldowns[c] == s.cooldowns[c]
    case Stopper => s'.ending == s.ending
    case Starter => true
  }

  /** What only grows. */
  ghost predicate Grows(s: State, s': State) {
    && s.breaker.log <= s'.breaker.log && s.channel.handed <= s'.channel.handed
    && (s.ending.done ==> s'.ending.done) && (s.ending.shut ==> s'.ending.shut)
    && |s.workers| <= |s'.workers|
  }

  lemma GrowsOn(s: State, m: State, s': State)
    requires Grows(s, m) && Grows(m, s')
    ensures Grows(s, s')
  {
  }

  lemma GrownKeeps(s: State, s': State, e: Event, m: Message)
    requires Grows(s, s')
    ensures e in s.breaker.log ==> e in s'.breaker.log
    ensures m in s.channel.handed ==> m in s'.channel.handed
  {
  }

  lemma OthersWork(cfg: Config, s: State, t: Step, a: Actor)
    requires Next(cfg, s, t, false).Some? && ActorOf(t) != a && IsWorkers(t)
    ensures Untouched(s, Next(cfg, s, t, false).value, a)
  {
    if IsReceiving(t) {
    } else if IsHandling(t) {
    } else if t.Spawn? {
    } else {
      OthersFail(cfg, s, t, a);
    }
  }

  lemma OthersFail(cfg: Config, s: State, t: Step, a: Actor)
    requires Next(cfg, s, t, false).Some? && ActorOf(t) != a && IsBreaking(t) && !t.Spawn?
    ensures Untouched(s, Next(cfg, s, t, false).value, a)
  {
  }

  lemma OthersLeaveAlone(cfg: Config, s: State, t: Step, a: Actor)
    requires Next(cfg, s, t, false).Some? && ActorOf(t) != a && !Next(cfg, s, t, false).value.ending.crashed
    ensures Untouched(s, Next(cfg, s, t, false).value, a)
  {
    if IsWorkers(t) {
      hide *;
      OthersWork(cfg, s, t, a);
    }
  }

  lemma FailureGrows(cfg: Config, s: State, t: Step)
    requires Next(cfg, s, t, false).Some? && IsBreaking(t)
    ensures Grows(s, Next(cfg, s, t, false).value)
  {
  }

  lemma StepGrows(cfg: Config, s: State, t: Step)
    requires Next(cfg, s, t, false).Some?
    ensures Grows(s, Next(cfg, s, t, false).value)
  {
    if IsBreaking(t) {
      hide *;
      FailureGrows(cfg, s, t);
    }
  }

  /** What others do before each action of a call. */
  type Surroundings = nat -> seq<Step>

  /** What became of a submitted message. */
  datatype Fate = DroppedOpen | DroppedFull | Accepted | Panicked

  /** What became of a received message; `won` when the failure opened the breaker. */
  datatype Outcome = NotReady(won: bool) | MarshalFailed | PushFailed(won: bool) | Pushed

  /** How the client and the encoder fare with a message. */
  datatype Fortune = Fortune(ready: bool, marshals: bool, pushes: bool)

  function FailureSteps(w: nat, won: bool): seq<Step> {
    [AddFailure(w), TryOpen(w)] + if won then [Spawn(w)] else []
  }

  /** The actions of processMessage. */
  function OutcomeSteps(w: nat, o: Outcome): seq<Step> {
    match o
    case NotReady(won) => [AskReady(w, false)] + FailureSteps(w, won)
    case MarshalFailed => [AskReady(w, true), Marshal(w, false)]
    case PushFailed(won) => [AskReady(w, true), Marshal(w, true), Push(w, false)] + FailureSteps(w, won)
    case Pushed => [AskReady(w, true), Marshal(w, true), Push(w, true), StoreZero(w)]
  }

  function Fits(o: Outcome, f: Fortune): bool {
    match o
    case NotReady(_) => !f.ready
    case MarshalFailed => f.ready && !f.marshals
    case PushFailed(_) => f.ready && f.marshals && !f.pushes
    case Pushed => f.ready && f.marshals && f.pushes
  }

  lemma FailureLog(log: seq<Step>, w: nat)
    ensures log + [AddFailure(w)] + [TryOpen(w)] == log + FailureSteps(w, false)
    ensures log + [AddFailure(w)] + [TryOpen(w)] + [Spawn(w)] == log + FailureSteps(w, true)
  {
  }

  lemma OutcomeLog(log: seq<Step>, w: nat, won: bool)
    ensures log + [AskReady(w, false)] + FailureSteps(w, won) == log + OutcomeSteps(w, NotReady(won))
    ensures log + [AskReady(w, true)] + [Marshal(w, false)] == log + OutcomeSteps(w, MarshalFailed)
    ensures log + [AskReady(w, true)] + [Marshal(w, true)] + [Push(w, false)] + FailureSteps(w, won)
            == log + OutcomeSteps(w, PushFailed(won))
    ensures log + [AskReady(w, true)] + [Marshal(w, true)] + [Push(w, true)] + [StoreZero(w)] == log + OutcomeSteps(w, Pushed)
  {
    hide FailureSteps;
  }

  /** A look of a worker at the channel: it was open and empty in the state `m`, or a message was
      received and came out as `o`. */
  datatype Round = Idle(m: State) | Handled(o: Outcome)

  /** The actions of a worker over some rounds. */
  function RoundsSteps(w: nat, rounds: seq<Round>): seq<Step> {
    if rounds == [] then []
    else
      var last := rounds[|rounds| - 1];
      RoundsSteps(w, rounds[..|rounds| - 1]) + if last.Idle? then [] else [Receive(w)] + OutcomeSteps(w, last.o)
  }

  lemma NoRounds(w: nat)
    ensures RoundsSteps(w, []) == []
  {
  }

  lemma OneMoreRound(w: nat, rounds: seq<Round>, m: State, o: Outcome)
    ensures RoundsSteps(w, rounds + [Idle(m)]) == RoundsSteps(w, rounds)
    ensures RoundsSteps(w, rounds + [Handled(o)]) == RoundsSteps(w, rounds) + [Receive(w)] + OutcomeSteps(w, o)
  {
    hide OutcomeSteps;
    assert (rounds + [Idle(m)])[..|rounds|] == rounds && (rounds + [Handled(o)])[..|rounds|] == rounds;
    assert RoundsSteps(w, rounds) + ([Receive(w)] + OutcomeSteps(w, o)) == RoundsSteps(w, rounds) + [Receive(w)] + OutcomeSteps(w, o);
  }

  /** Where a worker's action starts. */
  predicate Ready(s: State, w: nat, t: Step)
    requires w < |s.workers|
  {
    var x := s.workers[w];
    match t
    case Receive(_) => x.Waiting? && s.channel.queue != []
    case Exit(_) => x.Waiting? && s.channel.queue == [] && s.ending.shut
    case AskReady(_, _) => x.Got?
    case Marshal(_, _) => x.Marshalling?
    case Push(_, _) => x.Pushing?
    case StoreZero(_) => x.Resetting?
    case AddFailure(_) => x.Failing?
    case TryOpen(_) => x.Counted?
    case Spawn(_) => x.Won?
    case _ => false
  }

  /** Where a cooldown's action starts, and where it takes the cooldown. */
  predicate CoolReady(s: State, c: nat, t: Step)
    requires c < |s.cooldowns|
  {
    match t
    case Fire(_) => s.cooldowns[c].Cooling?
    case Leave(_) => s.cooldowns[c].Cooling? && s.ending.done
    case ZeroFailures(_) => s.cooldowns[c].Fired?
    case Close(_) => s.cooldowns[c].Zeroed?
    case _ => false
  }

  predicate CoolGoes(t: Step, y: Cooldown, b: Breaker) {
    match t
    case Fire(_) => y.Fired?
    case ZeroFailures(_) => y.Zeroed?
    case Close(_) => y.Closed? && !b.open
    case _ => true
  }

  /** Whether a compare-and-swap would now open the breaker. */
  predicate Opens(cfg: Config, b: Breaker, n: nat) {
    n >= cfg.threshold && !b.open
  }

  /** Where it takes the worker. */
  ghost predicate Goes(cfg: Config, b: Breaker, x: Worker, t: Step, y: Worker) {
    match t
    case Receive(_) => y.Got?
    case Exit(_) => y == Exited
    case AskReady(_, ready) => x.Got? && y == if ready then Marshalling(x.msg) else Failing
    case Marshal(_, ok) => x.Marshalling? && y == if ok then Pushing(x.msg) else Waiting
    case Push(_, ok) => y == if ok then Resetting else Failing
    case AddFailure(_) => y == Counted(b.failures + 1, |b.log| + 1)
    case TryOpen(_) => x.Counted? && y == if Opens(cfg, b, x.n) then Won else Waiting
    case _ => y == Waiting
  }

  lemma OpensMeans(cfg: Config, b: Breaker, n: nat)
    ensures Opens(cfg, b, n) <==> n >= cfg.threshold && !b.open
  {
  }

  lemma WorkerGoes(cfg: Config, s: State, w: nat, t: Step)
    requires !s.ending.crashed && ActorOf(t) == WorkerOf(w) && w < |s.workers| && Ready(s, w, t)
    ensures Next(cfg, s, t, false).Some?
    ensures var s' := Next(cfg, s, t, false).value;
            w < |s'.workers| && Goes(cfg, s.breaker, s.workers[w], t, s'.workers[w]) && s'.ending == s.ending
    ensures t.Push? ==> s.workers[w].Pushing? && s.workers[w].msg in Next(cfg, s, t, false).value.channel.handed
    ensures t.TryOpen? && s.workers[w].Counted? && Opens(cfg, s.breaker, s.workers[w].n) ==>
              Opening(s.workers[w].n, s.workers[w].at) in Next(cfg, s, t, false).value.breaker.log
    ensures t.Receive? ==> s.channel.queue != [] && Next(cfg, s, t, false).value.workers[w] == Got(s.channel.queue[0])
  {
    if t.Push? {
      var h := Next(cfg, s, t, false).value.channel.handed;
      assert h[|h| - 1] == s.workers[w].msg;
    } else if t.TryOpen? && Opens(cfg, s.breaker, s.workers[w].n) {
      var log := Next(cfg, s, t, false).value.breaker.log;
      assert log[|log| - 1] == Opening(s.workers[w].n, s.workers[w].at);
    }
  }

  /** Step `n` of a run is `t`, taken in state `m`. */
  ghost predicate TookAt(cfg: Config, trace: seq<Step>, n: nat, t: Step, m: State) {
    n < |trace| && trace[n] == t && Reaches(cfg, trace[..n], m, false)
  }

  /** From moment `from` on, step `t` has been taken in state `m`. */
  ghost predicate Took(cfg: Config, trace: seq<Step>, from: nat, t: Step, m: State) {
    exists n: nat :: from <= n && TookAt(cfg, trace, n, t, m)
  }

  lemma TookOn(cfg: Config, trace: seq<Step>, trace': seq<Step>, from: nat, from': nat, t: Step, m: State)
    requires Took(cfg, trace, from, t, m) && trace <= trace' && from' <= from
    ensures Took(cfg, trace', from', t, m)
  {
    hide Reaches;
    var n: nat :| from <= n && TookAt(cfg, trace, n, t, m);
    assert trace'[..n] == trace[..n];
    assert TookAt(cfg, trace', n, t, m);
  }

  /** The state has been one since moment `from`. */
  ghost predicate SawAt(cfg: Config, trace: seq<Step>, n: nat, m: State) {
    n <= |trace| && Reaches(cfg, trace[..n], m, false)
  }

  ghost predicate Saw(cfg: Config, trace: seq<Step>, from: nat, m: State) {
    exists n: nat :: from <= n && SawAt(cfg, trace, n, m)
  }

  lemma SawOn(cfg: Config, trace: seq<Step>, trace': seq<Step>, from: nat, from': nat, m: State)
    requires Saw(cfg, trace, from, m) && trace <= trace' && from' <= from
    ensures Saw(cfg, trace', from', m)
  {
    hide Reaches;
    var n: nat :| from <= n && SawAt(cfg, trace, n, m);
    assert trace'[..n] == trace[..n];
    assert SawAt(cfg, trace', n, m);
  }

  ghost predicate RoundFits(cfg: Config, trace: seq<Step>, from: nat, round: Round, fortune: Fortune) {
    match round
    case Idle(m) => Saw(cfg, trace, from, m) && m.channel.queue == [] && !m.ending.shut
    case Handled(o) => Fits(o, fortune)
  }

  /** Each round is idle in a state of an open and empty channel, or comes out as its fortune has it. */
  ghost predicate RoundsFit(cfg: Config, trace: seq<Step>, from: nat, rounds: seq<Round>, fortunes: seq<Fortune>) {
    |rounds| <= |fortunes| && forall i | 0 <= i < |rounds| :: RoundFits(cfg, trace, from, rounds[i], fortunes[i])
  }

  lemma RoundsFitOn(cfg: Config, trace: seq<Step>, trace': seq<Step>, from: nat, rounds: seq<Round>, fortunes: seq<Fortune>)
    requires RoundsFit(cfg, trace, from, rounds, fortunes) && trace <= trace'
    ensures RoundsFit(cfg, trace', from, rounds, fortunes)
  {
    hide Saw, Fits;
    forall i | 0 <= i < |rounds| ensures RoundFits(cfg, trace', from, rounds[i], fortunes[i]) {
      assert RoundFits(cfg, trace, from, rounds[i], fortunes[i]);
      if rounds[i].Idle? { SawOn(cfg, trace, trace', from, from, rounds[i].m); }
    }
  }

  lemma NothingFits(cfg: Config, trace: seq<Step>, from: nat, fortunes: seq<Fortune>)
    ensures RoundsFit(cfg, trace, from, [], fortunes)
  {
  }

  lemma OneMoreFits(cfg: Config, trace: seq<Step>, from: nat, rounds: seq<Round>, round: Round, fortunes: seq<Fortune>)
    requires RoundsFit(cfg, trace, from, rounds, fortunes) && |rounds| < |fortunes|
    requires RoundFits(cfg, trace, from, round, fortunes[|rounds|])
    ensures RoundsFit(cfg, trace, from, rounds + [round], fortunes)
  {
  }

  /** The workers had not all left in the states that were looked at. */
  ghost predicate Waited(cfg: Config, trace: seq<Step>, from: nat, looks: seq<State>) {
    forall i | 0 <= i < |looks| :: Saw(cfg, trace, from, looks[i]) && !AllExited(looks[i].workers)
  }

  lemma WaitedOn(cfg: Config, trace: seq<Step>, trace': seq<Step>, from: nat, looks: seq<State>)
    requires Waited(cfg, trace, from, looks) && trace <= trace'
    ensures Waited(cfg, trace', from, looks)
  {
    hide Saw, AllExited;
    forall i | 0 <= i < |looks| ensures Saw(cfg, trace', from, looks[i]) {
      SawOn(cfg, trace, trace', from, from, looks[i]);
    }
  }

  class Publisher {
    const cfg: Config
    var s: State
    ghost var trace: seq<Step>

    ghost predicate Valid()
      reads this
    {
      Reaches(cfg, trace, s, false)
    }

    ghost predicate Running()
      reads this
    {
      Valid() && !s.ending.crashed
    }

    ghost predicate WorkerIs(w: nat, x: Worker)
      reads this
    {
      w < |s.workers| && s.workers[w] == x
    }

    /** NewAuditPublisher. */
    constructor (cfg: Config)
      ensures Running() && this.cfg == cfg && s == INITIAL && trace == []
    {
      this.cfg := cfg;
      s := INITIAL;
      trace := [];
    }

    /** What an actor has done so far. */
    ghost function Log(a: Actor): seq<Step>
      reads this
    {
      Own(trace, a)
    }

    method Do(t: Step)
      requires Running() && Next(cfg, s, t, false).Some?
      modifies this
      ensures Valid() && s == Next(cfg, old(s), t, false).value && Grows(old(s), s)
      ensures forall a: Actor :: Log(a) == old(Log(a)) + if ActorOf(t) == a then [t] else []
      ensures old(trace) <= trace && Took(cfg, trace, |old(trace)|, t, old(s))
    {
      hide Next, Grows, ActorOf;
      assert TookAt(cfg, trace + [t], |trace|, t, s) by { assert (trace + [t])[..|trace|] == trace; }
      RunOneMore(NextBy(cfg, false), INITIAL, trace, t);
      StepGrows(cfg, s, t);
      s := Next(cfg, s, t, false).value;
      forall a: Actor {
        OwnOneMore(trace, t, a);
      }
      trace := trace + [t];
    }

    /** Whatever of `steps` is possible, not an action of `a` and no panic happens. */
    method Interfere(a: Actor, steps: seq<Step>)
      requires Running()
      modifies this
      ensures Running() && Untouched(old(s), s, a) && Grows(old(s), s) && Log(a) == old(Log(a))
      ensures old(trace) <= trace && (steps == [] ==> s == old(s))
    {
      hide Took;
      for i := 0 to |steps|
        invariant Running() && Untouched(old(s), s, a) && Grows(old(s), s) && Log(a) == old(Log(a))
        invariant old(trace) <= trace && (i == 0 ==> s == old(s))
      {
        var next := Next(cfg, s, steps[i], false);
        if ActorOf(steps[i]) != a && next.Some? && !next.value.ending.crashed {
          hide Next, ActorOf, Own;
          OthersLeaveAlone(cfg, s, steps[i], a);
          Do(steps[i]);
        }
      }
    }

    /** An action of worker `w`, seen from its side. */
    method Act(w: nat, t: Step)
      requires Running() && ActorOf(t) == WorkerOf(w) && w < |s.workers| && Ready(s, w, t)
      modifies this
      ensures Running() && Grows(old(s), s) && Log(WorkerOf(w)) == old(Log(WorkerOf(w))) + [t]
      ensures w < |s.workers| && Goes(cfg, old(s.breaker), old(s.workers[w]), t, s.workers[w]) && s.ending == old(s.ending)
      ensures t.Push? ==> old(s.workers[w]).Pushing? && old(s.workers[w]).msg in s.channel.handed
      ensures t.TryOpen? && old(s.workers[w]).Counted? && Opens(cfg, old(s.breaker), old(s.workers[w]).n) ==>
                Opening(old(s.workers[w]).n, old(s.workers[w]).at) in s.breaker.log
      ensures t.Exit? ==> s.channel.queue == []
      ensures t.Receive? ==> old(s.channel.queue) != [] && s.workers[w] == Got(old(s.channel.queue[0]))
      ensures old(trace) <= trace && Took(cfg, trace, |old(trace)|, t, old(s))
    {
      hide Took, Next, Ready, Goes, Opens, Reaches, Own, ActorOf;
      WorkerGoes(cfg, s, w, t);
      EmptyAtExit(s, w, t);
      Do(t);
    }

    lemma EmptyAtExit(s: State, w: nat, t: Step)
      requires !s.ending.crashed && ActorOf(t) == WorkerOf(w) && w < |s.workers| && Ready(s, w, t)
      ensures t.Exit? ==> Next(cfg, s, t, false).Some? && Next(cfg, s, t, false).value.channel.queue == []
    {
    }

    /** The same after a turn of the others, for the actions that wait for nobody. */
    method Turn(w: nat, others: seq<Step>, t: Step) returns (ghost before: State)
      requires Running() && ActorOf(t) == WorkerOf(w) && !t.Receive? && !t.Exit? && w < |s.workers| && Ready(s, w, t)
      modifies this
      ensures Running() && Grows(old(s), s) && Log(WorkerOf(w)) == old(Log(WorkerOf(w))) + [t]
      ensures w < |s.workers| && Goes(cfg, before.breaker, old(s.workers[w]), t, s.workers[w])
      ensures t.Push? ==> old(s.workers[w]).Pushing? && old(s.workers[w]).msg in s.channel.handed
      ensures t.TryOpen? && old(s.workers[w]).Counted? && Opens(cfg, before.breaker, old(s.workers[w]).n) ==>
                Opening(old(s.workers[w]).n, old(s.workers[w]).at) in s.breaker.log
      ensures old(trace) <= trace && Took(cfg, trace, |old(trace)|, t, before)
    {
      hide Goes, Opens, Reaches, Own, Grows, Took;
      Interfere(WorkerOf(w), others);
      before := s;
      ghost var n := |trace|;
      Act(w, t);
      GrowsOn(old(s), before, s);
      TookOn(cfg, trace, trace, n, |old(trace)|, t, before);
    }

    /** Submit: what becomes of the message is told by the states in which it is loaded and sent. */
    method Submit(call: nat, payload: string, env: Surroundings) returns (fate: Fate, ghost loaded: State, ghost sent: State)
      requires Running() && call !in s.channel.passed
      modifies this
      ensures Valid() && (!fate.Panicked? ==> call !in s.channel.passed)
      ensures Log(Caller(call)) == old(Log(Caller(call))) + [SubmitLoad(call, payload)] +
                                   (if fate.DroppedOpen? then [] else [SubmitSend(call)])
      ensures Took(cfg, trace, |old(trace)|, SubmitLoad(call, payload), loaded)
      ensures fate.DroppedOpen? <==> loaded.breaker.open
      ensures !fate.DroppedOpen? ==> Took(cfg, trace, |old(trace)|, SubmitSend(call), sent)
      ensures fate.Panicked? <==> !fate.DroppedOpen? && sent.ending.shut
      ensures fate.Accepted? <==> !fate.DroppedOpen? && !sent.ending.shut && |sent.channel.queue| < cfg.bufferSize
      ensures env(0) == [] ==> loaded == old(s)
      ensures env(0) == [] && env(1) == [] && !fate.DroppedOpen? ==>
                sent.ending == old(s.ending) && sent.channel.queue == old(s.channel.queue)
      ensures s.ending.crashed <==> fate.Panicked?
      ensures fate.Panicked? ==> s.ending.shut
      ensures fate.DroppedOpen? ==> s.breaker.open
      ensures fate.DroppedFull? ==> |s.channel.queue| >= cfg.bufferSize
      ensures fate.Accepted? ==> s.channel.queue == sent.channel.queue + [Message(|sent.channel.accepted|, payload)]
                                 && s.channel.accepted == sent.channel.accepted + [payload]
    {
      hide Reaches, Own, Grows, Took;
      Interfere(Caller(call), env(0));
      ghost var n := |trace|;
      loaded, sent := s, s;
      var open := s.breaker.open;
      Do(SubmitLoad(call, payload));
      TookOn(cfg, trace, trace, n, |old(trace)|, SubmitLoad(call, payload), loaded);
      if open {
        return DroppedOpen, loaded, sent;
      }
      ghost var before := trace;
      Interfere(Caller(call), env(1));
      sent := s;
      n := |trace|;
      fate := if s.ending.shut then Panicked else if |s.channel.queue| < cfg.bufferSize then Accepted else DroppedFull;
      Do(SubmitSend(call));
      TookOn(cfg, before, trace, |old(trace)|, |old(trace)|, SubmitLoad(call, payload), loaded);
      TookOn(cfg, trace, trace, n, |old(trace)|, SubmitSend(call), sent);
    }

    /** recordFailure: it opens the breaker exactly when its own count has reached the threshold and it
        finds the breaker closed. */
    method RecordFailure(w: nat, env: Surroundings)
      returns (won: bool, ghost failures: nat, ghost at: nat, ghost added: State, ghost looked: State)
      requires Running() && WorkerIs(w, Failing)
      modifies this
      ensures Running() && WorkerIs(w, Waiting) && Grows(old(s), s) && old(trace) <= trace
      ensures Log(WorkerOf(w)) == old(Log(WorkerOf(w))) + FailureSteps(w, won)
      ensures Took(cfg, trace, |old(trace)|, AddFailure(w), added) && Took(cfg, trace, |old(trace)|, TryOpen(w), looked)
      ensures failures == added.breaker.failures + 1 && at == |added.breaker.log| + 1
      ensures won <==> failures >= cfg.threshold && !looked.breaker.open
      ensures won ==> Opening(failures, at) in s.breaker.log
    {
      hide Running, Own, FailureSteps, Opens, Grows, Took;
      FailureLog(Log(WorkerOf(w)), w);
      added := Turn(w, env(0), AddFailure(w));
      ghost var m, before := s, trace;
      var x := s.workers[w];
      failures, at := x.n, x.at;
      looked := Turn(w, env(1), TryOpen(w));
      GrowsOn(old(s), m, s);
      TookOn(cfg, before, trace, |old(trace)|, |old(trace)|, AddFailure(w), added);
      TookOn(cfg, trace, trace, |before|, |old(trace)|, TryOpen(w), looked);
      won := s.workers[w].Won?;
      assert won <==> failures >= cfg.threshold && !looked.breaker.open by { OpensMeans(cfg, looked.breaker, failures); }
      if won {
        m := s;
        Launch(w, env(2), failures, at, added, looked, |old(trace)|);
        GrowsOn(old(s), m, s);
      }
    }

    /** The `go` statement of recordFailure, which leaves what has been done as it is. */
    method Launch(w: nat, others: seq<Step>, ghost failures: nat, ghost at: nat, ghost added: State, ghost looked: State,
                  ghost from: nat)
      requires Running() && WorkerIs(w, Won) && Opening(failures, at) in s.breaker.log
      requires Took(cfg, trace, from, AddFailure(w), added) && Took(cfg, trace, from, TryOpen(w), looked)
      modifies this
      ensures Running() && WorkerIs(w, Waiting) && Grows(old(s), s) && old(trace) <= trace
      ensures Log(WorkerOf(w)) == old(Log(WorkerOf(w))) + [Spawn(w)] && Opening(failures, at) in s.breaker.log
      ensures Took(cfg, trace, from, AddFailure(w), added) && Took(cfg, trace, from, TryOpen(w), looked)
    {
      hide Own, FailureSteps, Opens, Grows, Took, Reaches;
      ghost var b := Turn(w, others, Spawn(w));
      GrownKeeps(old(s), s, Opening(failures, at), Message(0, ""));
      TookOn(cfg, old(trace), trace, from, from, AddFailure(w), added);
      TookOn(cfg, old(trace), trace, from, from, TryOpen(w), looked);
    }

    /** processMessage: which of its exits it takes is told by the client and the encoder. */
    method ProcessMessage(w: nat, fortune: Fortune, env: Surroundings) returns (o: Outcome)
      requires Running() && w < |s.workers| && s.workers[w].Got?
      modifies this
      ensures Running() && WorkerIs(w, Waiting) && Grows(old(s), s) && old(trace) <= trace
      ensures Log(WorkerOf(w)) == old(Log(WorkerOf(w))) + OutcomeSteps(w, o) && Fits(o, fortune)
      ensures fortune.ready && fortune.marshals ==> old(s.workers[w].msg) in s.channel.handed
    {
      hide Running, Own, FailureSteps, OutcomeSteps, Opens, Grows, Took;
      ghost var before, m := Log(WorkerOf(w)), s.workers[w].msg;
      ghost var b := Turn(w, env(0), AskReady(w, fortune.ready));
      ghost var s1 := s;
      if !fortune.ready {
        var won, _, _, _, _ := RecordFailure(w, (n: nat) => env(n + 4));
        GrowsOn(old(s), s1, s);
        OutcomeLog(before, w, won);
        return NotReady(won);
      }
      b := Turn(w, env(1), Marshal(w, fortune.marshals));
      GrowsOn(old(s), s1, s);
      if !fortune.marshals {
        OutcomeLog(before, w, false);
        return MarshalFailed;
      }
      s1 := s;
      b := Turn(w, env(2), Push(w, fortune.pushes));
      GrowsOn(old(s), s1, s);
      s1 := s;
      o := AfterPush(w, fortune.pushes, (n: nat) => env(n + 3));
      GrowsOn(old(s), s1, s);
      GrownKeeps(s1, s, Failure, m);
      OutcomeLog(before, w, o.PushFailed? && o.won);
    }

    /** The rest of processMessage, once the push has returned. */
    method AfterPush(w: nat, pushed: bool, env: Surroundings) returns (o: Outcome)
      requires Running() && WorkerIs(w, if pushed then Resetting else Failing)
      modifies this
      ensures Running() && WorkerIs(w, Waiting) && Grows(old(s), s) && old(trace) <= trace
      ensures Log(WorkerOf(w)) == if pushed then old(Log(WorkerOf(w))) + [StoreZero(w)]
                                  else old(Log(WorkerOf(w))) + FailureSteps(w, o.PushFailed? && o.won)
      ensures if pushed then o.Pushed? else o.PushFailed?
    {
      hide Running, Own, FailureSteps, Opens, Grows, Took;
      if !pushed {
        var won, _, _, _, _ := RecordFailure(w, (n: nat) => env(n + 1));
        return PushFailed(won);
      }
      ghost var b := Turn(w, env(0), StoreZero(w));
      o := Pushed;
    }

    method Take(w: nat)
      requires Running() && WorkerIs(w, Waiting) && s.channel.queue != []
      modifies this
      ensures Running() && w < |s.workers| && s.workers[w].Got? && Log(WorkerOf(w)) == old(Log(WorkerOf(w))) + [Receive(w)]
      ensures old(trace) <= trace && s.workers[w].msg == old(s.channel.queue[0])
    {
      hide Own, Reaches, Grows, Took;
      Act(w, Receive(w));
    }

    method Depart(w: nat)
      requires Running() && WorkerIs(w, Waiting) && s.channel.queue == [] && s.ending.shut
      modifies this
      ensures Running() && WorkerIs(w, Exited) && Log(WorkerOf(w)) == old(Log(WorkerOf(w))) + [Exit(w)]
      ensures s.channel.queue == [] && s.ending.shut && old(trace) <= trace
    {
      hide Own, Reaches, Grows;
      Act(w, Exit(w));
    }

    /** The present state is one of the run. */
    lemma SeenNow(from: nat)
      requires Valid() && from <= |trace|
      ensures Saw(cfg, trace, from, s)
    {
      assert trace[..|trace|] == trace;
      assert SawAt(cfg, trace, |trace|, s);
    }

    /** worker: it handles what it receives, and leaves when the channel is closed and empty; it
        is followed for as many rounds as there are fortunes, and is idle only when the channel is
        open and empty. */
    method Work(w: nat, fortunes: seq<Fortune>, env: nat -> Surroundings) returns (exited: bool, ghost rounds: seq<Round>)
      requires Running() && WorkerIs(w, Waiting)
      modifies this
      ensures Running() && WorkerIs(w, if exited then Exited else Waiting)
      ensures Log(WorkerOf(w)) == old(Log(WorkerOf(w))) + RoundsSteps(w, rounds) + if exited then [Exit(w)] else []
      ensures RoundsFit(cfg, trace, |old(trace)|, rounds, fortunes) && (exited <==> |rounds| < |fortunes|)
      ensures exited ==> s.ending.shut && s.channel.queue == []
    {
      hide Running, Own, OutcomeSteps, RoundsSteps, RoundsFit, Grows, Fits, Saw, Took;
      rounds := [];
      assert RoundsSteps(w, []) == [] by { NoRounds(w); }
      assert RoundsFit(cfg, trace, |trace|, [], fortunes) by { NothingFits(cfg, trace, |trace|, fortunes); }
      exited := false;
      for i := 0 to |fortunes|
        invariant Running() && WorkerIs(w, Waiting) && !exited && old(trace) <= trace && |rounds| == i
        invariant Log(WorkerOf(w)) == old(Log(WorkerOf(w))) + RoundsSteps(w, rounds)
        invariant RoundsFit(cfg, trace, |old(trace)|, rounds, fortunes)
      {
        ghost var before := trace;
        ghost var round;
        exited, round := OneRound(w, fortunes[i], env(i), |old(trace)|);
        RoundsFitOn(cfg, before, trace, |old(trace)|, rounds, fortunes);
        if exited {
          return;
        }
        OneMoreFits(cfg, trace, |old(trace)|, rounds, round, fortunes);
        if round.Idle? { OneMoreRound(w, rounds, round.m, MarshalFailed); } else { OneMoreRound(w, rounds, s, round.o); }
        rounds := rounds + [round];
      }
    }

    /** One look at the channel. */
    method OneRound(w: nat, fortune: Fortune, env: Surroundings, ghost from: nat) returns (exited: bool, ghost round: Round)
      requires Running() && WorkerIs(w, Waiting) && from <= |trace|
      modifies this
      ensures Running() && WorkerIs(w, if exited then Exited else Waiting) && old(trace) <= trace
      ensures !exited ==> RoundFits(cfg, trace, from, round, fortune)
      ensures Log(WorkerOf(w)) == old(Log(WorkerOf(w))) +
                if exited then [Exit(w)] else if round.Idle? then [] else [Receive(w)] + OutcomeSteps(w, round.o)
      ensures exited ==> s.ending.shut && s.channel.queue == []
    {
      hide Own, OutcomeSteps, Grows, Fits, Saw, Took, Reaches;
      Interfere(WorkerOf(w), env(0));
      exited, round := false, Idle(s);
      if s.channel.queue != [] {
        Take(w);
        var o := ProcessMessage(w, fortune, (n: nat) => env(n + 1));
        round := Handled(o);
      } else if s.ending.shut {
        Depart(w);
        exited := true;
      } else {
        SeenNow(from);
      }
    }

    /** An action of cooldown `c`, after a turn of the others. */
    method CoolDown(c: nat, others: seq<Step>, t: Step)
      requires Running() && ActorOf(t) == CooldownOf(c) && c < |s.cooldowns| && CoolReady(s, c, t) && !t.Leave?
      modifies this
      ensures Running() && Log(CooldownOf(c)) == old(Log(CooldownOf(c))) + [t]
      ensures c < |s.cooldowns| && CoolGoes(t, s.cooldowns[c], s.breaker) && old(trace) <= trace
      ensures others == [] ==> Took(cfg, trace, |old(trace)|, t, old(s))
    {
      hide Own, Reaches, Grows, Took;
      Interfere(CooldownOf(c), others);
      ghost var m, before := s, trace;
      Do(t);
      TookOn(cfg, trace, trace, |before|, |old(trace)|, t, m);
    }

    /** cooldownReset, with the choice of its select once `done` is closed. */
    method CooldownReset(c: nat, takesDone: bool, env: Surroundings) returns (closed: bool, ghost chose: State)
      requires Running() && c < |s.cooldowns| && s.cooldowns[c].Cooling?
      modifies this
      ensures Running()
      ensures Log(CooldownOf(c)) == old(Log(CooldownOf(c))) +
                                    if closed then [Fire(c), ZeroFailures(c), Step.Close(c)] else [Leave(c)]
      ensures closed ==> !s.breaker.open
      ensures !closed ==> s.ending.done
      ensures Took(cfg, trace, |old(trace)|, if closed then Fire(c) else Leave(c), chose)
      ensures closed <==> !(chose.ending.done && takesDone)
    {
      hide Reaches, Own, Grows, Took;
      Interfere(CooldownOf(c), env(0));
      ghost var before := trace;
      chose := s;
      if s.ending.done && takesDone {
        Do(Leave(c));
        TookOn(cfg, trace, trace, |before|, |old(trace)|, Leave(c), chose);
        return false, chose;
      }
      CoolDown(c, [], Fire(c));
      TookOn(cfg, trace, trace, |before|, |old(trace)|, Fire(c), chose);
      Reset(c, env, chose, |old(trace)|);
      closed := true;
    }

    /** The two stores of cooldownReset. */
    method Reset(c: nat, env: Surroundings, ghost chose: State, ghost from: nat)
      requires Running() && c < |s.cooldowns| && s.cooldowns[c].Fired? && Took(cfg, trace, from, Fire(c), chose)
      modifies this
      ensures Running() && Took(cfg, trace, from, Fire(c), chose) && !s.breaker.open
      ensures Log(CooldownOf(c)) == old(Log(CooldownOf(c))) + [ZeroFailures(c), Step.Close(c)]
    {
      hide Reaches, Own, Grows, Took;
      CoolDown(c, env(1), ZeroFailures(c));
      CoolDown(c, env(2), Step.Close(c));
      TookOn(cfg, old(trace), trace, from, from, Fire(c), chose);
    }

    /** Start. */
    method Start()
      requires Running()
      modifies this
      ensures Running() && |s.workers| == old(|s.workers|) + cfg.workerCount
      ensures forall w | old(|s.workers|) <= w < |s.workers| :: s.workers[w] == Waiting
    {
      hide Reaches, Own;
      Do(Step.Start);
    }

    /** Stop: `returned` once the wait for the workers is over, which is followed for `patience`
        looks; at each look before some worker had not left. */
    method Stop(patience: nat, env: Surroundings) returns (returned: bool, ghost looks: seq<State>)
      requires Running()
      modifies this
      ensures Running()
      ensures old(s.ending.done) ==> Log(Stopper) == old(Log(Stopper)) && !returned && looks == []
      ensures !old(s.ending.done) ==>
                Log(Stopper) == old(Log(Stopper)) + [StopDone, StopChannel] + if returned then [StopReturn] else []
      ensures !old(s.ending.done) ==> |looks| <= patience && (returned <==> |looks| < patience)
      ensures Waited(cfg, trace, |old(trace)|, looks)
      ensures returned && old(s.workers) != [] ==> s.channel.queue == [] && InFlight(s) == 0
    {
      hide Own, Count, AllExited, Reaches, Saw, Took;
      returned, looks := false, [];
      if s.ending.done {
        return;
      }
      ExitsOfRun(cfg, trace, s, false);
      Do(StopDone);
      Interfere(Stopper, env(0));
      Do(StopChannel);
      for i := 0 to patience
        invariant Running() && s.ending.shut && !s.ending.returned && !returned
        invariant |s.workers| >= old(|s.workers|) && old(trace) <= trace
        invariant Log(Stopper) == old(Log(Stopper)) + [StopDone, StopChannel]
        invariant |looks| == i && Waited(cfg, trace, |old(trace)|, looks)
      {
        ghost var before := trace;
        Interfere(Stopper, env(i + 1));
        WaitedOn(cfg, before, trace, |old(trace)|, looks);
        if AllExited(s.workers) {
          if s.workers != [] { StopDrains(cfg, trace, s, false); }
          before := trace;
          Do(StopReturn);
          WaitedOn(cfg, before, trace, |old(trace)|, looks);
          returned := true;
          return;
        }
        SeenNow(|old(trace)|);
        looks := looks + [s];
      }
    }
  }
}
