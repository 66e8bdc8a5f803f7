/**
 The lock functions of redis.go as the programs they are.  Each runs in a world that it shares
 with all other callers: between any two of its own actions others may take any steps, and the
 network may lose its commands or the replies to them.
 */
module RedisLockApi {
  import opened Wrappers
  import opened Runs
  import opened RedisLock
  import opened RedisLockSafety

  /** The caller whose action a step is; the server's and the clocks' steps are nobody's. */
  function Actor(t: Step): Option<nat> {
    match t
    case Expire(_) => None
    case Tick(_, _) => None
    case _ => Some(t.h)
  }

  /** The steps of one caller, in order. */
  function Own(trace: seq<Step>, h: nat): seq<Step> {
    if trace == [] then []
    else
      var n := |trace| - 1;
      Own(trace[..n], h) + if Actor(trace[n]) == Some(h) then [trace[n]] else []
  }

  lemma OwnOneMore(trace: seq<Step>, t: Step, h: nat)
    ensures Own(trace + [t], h) == Own(trace, h) + if Actor(t) == Some(h) then [t] else []
  {
    assert (trace + [t])[..|trace|] == trace;
  }

  lemma OthersLeaveAlone(s: State, t: Step, h: nat)
    requires h in s.handles && Next(s, t).Some? && Actor(t) != Some(h)
    ensures h in Next(s, t).value.handles && Next(s, t).value.handles[h] == s.handles[h]
  {
  }

  /** What happens to one command: it may not reach the server, and its reply may not come back. */
  datatype Delivery = Delivery(executed: bool, replied: bool)

  /** The surroundings of a call: what others do before each of its actions, how each of its
      commands fares, and whether the lock library makes an error of it when an unlock does not
      find its token, as some of its releases do, or only answers so. */
  datatype Surroundings = Surroundings(others: nat -> seq<Step>, network: nat -> Delivery, missingIsError: bool)

  /** The caller's lock is not in force. */
  predicate Gone(s: State, h: nat)
    requires h in s.handles
  {
    !Owns(s.redis, s.now, s.handles[h].key, s.handles[h].token)
  }

  /** Once a settled caller's lock is gone, nobody can bring it back. */
  lemma GoneStays(s: State, t: Step, h: nat)
    requires Inv(s, Free) && Next(s, t).Some? && Actor(t) != Some(h)
    requires h in s.handles && Settled(s.handles[h].phase) && Gone(s, h)
    ensures h in Next(s, t).value.handles && Gone(Next(s, t).value, h)
  {
    hide HandleInv, MapsHold, MapFits, FoundFits;
  }

  /** Where an action of the programs below starts. */
  predicate Ready(s: State, h: nat, t: Step)
    requires h in s.handles
  {
    var x := s.handles[h];
    match t
    case StartTry(_) => x.phase.Idle?
    case SetNX(_, _) => x.phase.Sent?
    case LoseSet(_) => x.phase.Sent?
    case Conclude(_) => x.phase.Answered?
    case CleanUp(_, _) => x.phase.Cleanup?
    case GiveUp(_) => x.phase.Idle?
    case StoreMutex(_) => x.phase.Held? && x.api == ByKey
    case BeginWrite(_) => x.phase.Stored?
    case EndWrite(_) => x.phase.Writing?
    case GetMutex(_) => MayRelease(s, h)
    case UnlockFound(_, _, _) => x.phase.Found? && x.phase.handle in s.handles
    case RemoveMutex(_) => x.phase.Removing?
    case StartRelease(_) => x.phase.Held? && x.api == ByHandle
    case _ => false
  }

  /** Where it takes its caller. */
  predicate Goes(t: Step, phase: Phase) {
    match t
    case StartTry(_) => phase.Sent?
    case SetNX(_, _) => phase.Answered?
    case LoseSet(_) => phase.Answered?
    case Conclude(_) => phase.Held? || phase.Cleanup?
    case CleanUp(_, _) => phase.Idle?
    case GiveUp(_) => phase.Failed?
    case StoreMutex(_) => phase.Stored?
    case BeginWrite(_) => phase.Writing?
    case EndWrite(_) => phase.Written?
    case GetMutex(_) => phase.Found? || phase.Released?
    case UnlockFound(_, executed, replied) => phase.Released? || (phase.Removing? && executed && replied)
    case RemoveMutex(_) => phase.Released?
    case StartRelease(_) => phase.Releasing?
    case _ => true
  }

  /** The map of the caller's process has its handle under its key. */
  predicate InItsMap(s: State, h: nat)
    requires h in s.handles
  {
    var slot := Slot(s.handles[h].proc, s.handles[h].key);
    slot in s.maps && s.maps[slot] == h
  }

  predicate SameRequest(x: Handle, y: Handle) {
    x.api == y.api && x.proc == y.proc && x.key == y.key && x.token == y.token && x.ttl == y.ttl
  }

  /** The steps of LockContext. */
  predicate IsTryStep(t: Step) {
    t.StartTry? || t.SetNX? || t.LoseSet? || t.Conclude? || t.CleanUp? || t.GiveUp?
  }

  /** `log` with nothing but tries added. */
  ghost predicate OnlyTries(before: seq<Step>, log: seq<Step>) {
    before <= log && forall i | |before| <= i < |log| :: IsTryStep(log[i])
  }

  lemma AllOfIt(log: seq<Step>, tries: seq<Step>, h: nat, release: seq<Step>)
    ensures log + tries + [StoreMutex(h)] + [BeginWrite(h)] + [EndWrite(h)] + release
            == log + tries + ([StoreMutex(h), BeginWrite(h), EndWrite(h)] + release)
  {
  }

  // ---------- moments of a run ----------

  /** Step number `at` of a run, and the state in which it is taken. */
  datatype Moment = Moment(at: nat, t: Step, s: State)

  ghost predicate Happened(first: State, trace: seq<Step>, m: Moment) {
    m.at < |trace| && trace[m.at] == m.t && Run(NextUnder(Free), first, trace[..m.at]) == Some(m.s)
  }

  lemma HappenedOn(first: State, trace: seq<Step>, trace': seq<Step>, m: Moment)
    requires Happened(first, trace, m) && trace <= trace'
    ensures Happened(first, trace', m)
  {
    hide Run;
    assert trace'[..m.at] == trace[..m.at];
  }

  lemma HappensNow(first: State, trace: seq<Step>, t: Step, s: State)
    requires Run(NextUnder(Free), first, trace) == Some(s)
    ensures Happened(first, trace + [t], Moment(|trace|, t, s))
  {
    hide Run;
    assert (trace + [t])[..|trace|] == trace;
  }

  // ---------- what a try is ----------

  /** Nobody else does anything meanwhile. */
  ghost predicate Quiet(env: Surroundings) { forall i: nat :: env.others(i) == [] }

  predicate KeyIsTaken(s: State, h: nat)
    requires h in s.handles
  {
    Live(s.redis, s.now, s.handles[h].key)
  }

  /** How a try asks for the lock. */
  function AskStep(h: nat, d: Delivery): Step { if d.executed then SetNX(h, d.replied) else LoseSet(h) }

  /** The actions of a try; `asking` and `cleaning` are how its two commands fare. */
  function TrySteps(h: nat, asking: Delivery, cleaning: Delivery, ok: bool): seq<Step> {
    [StartTry(h), AskStep(h, asking), Conclude(h)] + if ok then [] else [CleanUp(h, cleaning.executed)]
  }

  /** The actions of `n` tries, the last of which succeeds if `ok`. */
  function TriesSteps(h: nat, env: Surroundings, n: nat, ok: bool): seq<Step> {
    if n == 0 then []
    else TriesSteps(h, env, n - 1, false) + TrySteps(h, env.network(2 * n - 2), env.network(2 * n - 1), ok)
  }

  lemma TryLog(log: seq<Step>, h: nat, asking: Delivery, cleaning: Delivery)
    ensures log + [StartTry(h)] + [AskStep(h, asking)] + [Conclude(h)] == log + TrySteps(h, asking, cleaning, true)
    ensures log + [StartTry(h)] + [AskStep(h, asking)] + [Conclude(h)] + [CleanUp(h, cleaning.executed)]
            == log + TrySteps(h, asking, cleaning, false)
  {
  }

  lemma TriesLog(log: seq<Step>, h: nat, env: Surroundings, n: nat, ok: bool)
    ensures log + TriesSteps(h, env, n, false) + TrySteps(h, env.network(2 * n), env.network(2 * n + 1), ok)
            == log + TriesSteps(h, env, n + 1, ok)
  {
  }

  /** All of that is nothing but tries. */
  lemma {:induction false} TriesAreTries(log: seq<Step>, h: nat, env: Surroundings, n: nat, ok: bool)
    ensures OnlyTries(log, log + TriesSteps(h, env, n, ok)) && OnlyTries(log, log + TriesSteps(h, env, n, ok) + [GiveUp(h)])
  {
    if n > 0 {
      TriesAreTries(log, h, env, n - 1, false);
      TriesLog(log, h, env, n - 1, ok);
    }
  }

  /** A try that has been made: where it asked, and where it concluded. */
  datatype Tried = Tried(asked: Moment, ended: Moment)

  /** The try's command was carried out and answered, found its key free, and the answer was there
      before the deadline. */
  predicate Gets(h: nat, x: Tried) {
    && x.asked.t == SetNX(h, true) && h in x.asked.s.handles && !KeyIsTaken(x.asked.s, h)
    && h in x.ended.s.handles && BeforeDeadline(x.ended.s, x.ended.s.handles[h])
  }

  /** A try of `h` since moment `from`, whose command fared as `d` says. */
  ghost predicate IsTry(first: State, trace: seq<Step>, from: nat, h: nat, d: Delivery, x: Tried) {
    && Happened(first, trace, x.asked) && Happened(first, trace, x.ended) && from <= x.asked.at < x.ended.at
    && x.asked.t == AskStep(h, d) && x.ended.t == Conclude(h)
  }

  /** Where the next of a list of tries begins. */
  function BeginsAfter(from: nat, tried: seq<Tried>): nat { if tried == [] then from else tried[|tried| - 1].ended.at + 1 }

  /** Tries of `h` one after the other since moment `from`. */
  ghost predicate AreTries(first: State, trace: seq<Step>, from: nat, h: nat, env: Surroundings, tried: seq<Tried>) {
    forall i | 0 <= i < |tried| :: IsTry(first, trace, BeginsAfter(from, tried[..i]), h, env.network(2 * i), tried[i])
  }

  lemma AreTriesOn(first: State, trace: seq<Step>, trace': seq<Step>, from: nat, h: nat, env: Surroundings, tried: seq<Tried>)
    requires AreTries(first, trace, from, h, env, tried) && trace <= trace'
    ensures AreTries(first, trace', from, h, env, tried)
  {
    hide Happened;
    forall i | 0 <= i < |tried| ensures IsTry(first, trace', BeginsAfter(from, tried[..i]), h, env.network(2 * i), tried[i]) {
      HappenedOn(first, trace, trace', tried[i].asked);
      HappenedOn(first, trace, trace', tried[i].ended);
    }
  }

  lemma OneMoreTry(first: State, trace: seq<Step>, from: nat, h: nat, env: Surroundings, tried: seq<Tried>, x: Tried)
    requires AreTries(first, trace, from, h, env, tried) && IsTry(first, trace, BeginsAfter(from, tried), h, env.network(2 * |tried|), x)
    ensures AreTries(first, trace, from, h, env, tried + [x])
  {
    hide Happened, BeginsAfter;
    assert (tried + [x])[..|tried|] == tried;
    forall i | 0 <= i < |tried + [x]|
      ensures IsTry(first, trace, BeginsAfter(from, (tried + [x])[..i]), h, env.network(2 * i), (tried + [x])[i])
    {
      if i < |tried| { assert (tried + [x])[..i] == tried[..i]; }
    }
  }

  /** None of the tries got the lock, except the last one if `ok`. */
  ghost predicate OnlyLastGets(h: nat, tried: seq<Tried>, ok: bool) {
    && (forall i | 0 <= i < |tried| - 1 :: !Gets(h, tried[i]))
    && (ok <==> tried != [] && Gets(h, tried[|tried| - 1]))
  }

  /** The first command that reaches the server is that of try `k`, and it is answered. */
  ghost predicate FirstThrough(env: Surroundings, tries: nat, k: nat) {
    k < tries && env.network(2 * k) == Delivery(true, true) && forall i: nat | i < k :: !env.network(2 * i).executed
  }

  // ---------- what the actions of a try do ----------

  lemma StartTryDoes(s: State, h: nat)
    requires In(s, h, Idle)
    ensures Next(s, StartTry(h)).Some?
    ensures var s' := Next(s, StartTry(h)).value;
            && In(s', h, Sent) && SameRequest(s'.handles[h], s.handles[h]) && s'.handles[h].start == Clock(s', s'.handles[h])
            && s'.redis == s.redis && s'.now == s.now
  {
  }

  lemma AskDoes(s: State, h: nat, d: Delivery)
    requires In(s, h, Sent)
    ensures Next(s, AskStep(h, d)).Some?
    ensures var s' := Next(s, AskStep(h, d)).value;
            && In(s', h, Answered(d.executed && d.replied && !KeyIsTaken(s, h))) && SameRequest(s'.handles[h], s.handles[h])
            && s'.handles[h].start == s.handles[h].start && Clock(s', s'.handles[h]) == Clock(s, s.handles[h])
            && s'.now == s.now
            && s'.redis == if d.executed then SetIfFree(s.redis, s.now, s.handles[h].key, s.handles[h].token, s.handles[h].ttl)
                           else s.redis
  {
  }

  lemma ConcludeDoes(s: State, h: nat, ok: bool)
    requires In(s, h, Answered(ok))
    ensures Next(s, Conclude(h)).Some?
    ensures var s' := Next(s, Conclude(h)).value;
            && In(s', h, if ok && BeforeDeadline(s, s.handles[h]) then Held else Cleanup)
            && SameRequest(s'.handles[h], s.handles[h]) && s'.redis == s.redis && s'.now == s.now
  {
  }

  lemma CleanUpDoes(s: State, h: nat, executed: bool)
    requires In(s, h, Cleanup)
    ensures Next(s, CleanUp(h, executed)).Some?
    ensures var s' := Next(s, CleanUp(h, executed)).value;
            && In(s', h, Idle) && SameRequest(s'.handles[h], s.handles[h]) && s'.now == s.now
            && (executed ==> Gone(s', h)) && (Gone(s, h) ==> s'.redis == s.redis)
  {
  }

  lemma SameKey(s: State, s': State, h: nat)
    requires h in s.handles && h in s'.handles && SameRequest(s'.handles[h], s.handles[h])
    requires s'.redis == s.redis && s'.now == s.now
    ensures KeyIsTaken(s', h) == KeyIsTaken(s, h) && Gone(s', h) == Gone(s, h)
  {
  }

  lemma FreeMeansGone(s: State, h: nat)
    requires h in s.handles && !KeyIsTaken(s, h)
    ensures Gone(s, h)
  {
  }

  lemma KeyAfterAsk(s: State, s': State, h: nat, executed: bool)
    requires h in s.handles && h in s'.handles && SameRequest(s'.handles[h], s.handles[h]) && s.handles[h].ttl > 0
    requires s'.now == s.now
    requires s'.redis == if executed then SetIfFree(s.redis, s.now, s'.handles[h].key, s'.handles[h].token, s'.handles[h].ttl)
                         else s.redis
    ensures !KeyIsTaken(s, h) && executed ==> !Gone(s', h)
    ensures KeyIsTaken(s, h) || !executed ==> KeyIsTaken(s', h) == KeyIsTaken(s, h) && Gone(s', h) == Gone(s, h)
  {
  }

  /** In time, when no time has passed. */
  lemma InTimeAtOnce(s: State, h: nat)
    requires h in s.handles && s.handles[h].start == Clock(s, s.handles[h]) && s.handles[h].ttl > 0
    ensures BeforeDeadline(s, s.handles[h])
  {
  }

  class World {
    var s: State
    ghost const first: State
    ghost var trace: seq<Step>

    ghost predicate Valid()
      reads this
    {
      IsInitial(first) && Run(NextUnder(Free), first, trace) == Some(s)
    }

    constructor (s: State)
      requires IsInitial(s)
      ensures Valid() && this.s == s && trace == []
    {
      this.s := s;
      first := s;
      trace := [];
    }

    /** The steps that caller `h` has taken. */
    ghost function Log(h: nat): seq<Step>
      reads this
    {
      Own(trace, h)
    }

    method Do(t: Step)
      requires Valid() && Next(s, t).Some?
      modifies this
      ensures Valid() && s == Next(old(s), t).value
      ensures forall h: nat :: Log(h) == old(Log(h)) + if Actor(t) == Some(h) then [t] else []
      ensures trace == old(trace) + [t] && Happened(first, trace, Moment(|old(trace)|, t, old(s)))
    {
      hide Next;
      HappensNow(first, trace, t, s);
      RunOneMore(NextUnder(Free), first, trace, t);
      assert Obeys(s, t, Free);
      s := Next(s, t).value;
      forall h: nat {
        OwnOneMore(trace, t, h);
      }
      trace := trace + [t];
    }

    /** An action of caller `h`, seen from its side. */
    method Move(h: nat, t: Step)
      requires Valid() && Actor(t) == Some(h) && h in s.handles && Ready(s, h, t)
      modifies this
      ensures Valid() && h in s.handles && SameRequest(s.handles[h], old(s.handles[h]))
      ensures Log(h) == old(Log(h)) + [t]
      ensures Goes(t, s.handles[h].phase)
      ensures t.StoreMutex? ==> InItsMap(s, h) && s.redis == old(s.redis) && s.now == old(s.now)
      ensures t.RemoveMutex? ==> Slot(s.handles[h].proc, s.handles[h].key) !in s.maps
      ensures trace == old(trace) + [t] && Happened(first, trace, Moment(|old(trace)|, t, old(s)))
      ensures Next(old(s), t) == Some(s)
    {
      hide Happened;
      Do(t);
    }

    /** The compare-and-delete of the caller's own token: what it answers, and what it leaves. */
    method SendUnlock(h: nat) returns (owned: bool)
      requires Valid() && In(s, h, Releasing)
      modifies this
      ensures Valid() && In(s, h, Releasing) && SameRequest(s.handles[h], old(s.handles[h]))
      ensures Log(h) == old(Log(h)) + [Unlock(h)]
      ensures owned == !old(Gone(s, h)) && Gone(s, h)
      ensures trace == old(trace) + [Unlock(h)] && Happened(first, trace, Moment(|old(trace)|, Unlock(h), old(s)))
    {
      hide Happened;
      owned := Owns(s.redis, s.now, s.handles[h].key, s.handles[h].token);
      Do(Unlock(h));
    }

    /** Whatever of `steps` is possible and not an action of `h` happens. */
    method Interfere(h: nat, steps: seq<Step>)
      requires Valid() && h in s.handles
      modifies this
      ensures Valid() && h in s.handles && s.handles[h] == old(s.handles[h])
      ensures Log(h) == old(Log(h))
      ensures Settled(s.handles[h].phase) && old(Gone(s, h)) ==> Gone(s, h)
      ensures old(trace) <= trace && (steps == [] ==> s == old(s) && trace == old(trace))
    {
      for i := 0 to |steps|
        invariant Valid() && h in s.handles && s.handles[h] == old(s.handles[h])
        invariant Log(h) == old(Log(h))
        invariant Settled(s.handles[h].phase) && old(Gone(s, h)) ==> Gone(s, h)
        invariant old(trace) <= trace && (i == 0 ==> s == old(s) && trace == old(trace))
      {
        hide Next, Gone, Run, Inv, Happened;
        if Actor(steps[i]) != Some(h) && Next(s, steps[i]).Some? {
          InvOfRun(first, trace, Free);
          OthersLeaveAlone(s, steps[i], h);
          if Settled(s.handles[h].phase) && Gone(s, h) { GoneStays(s, steps[i], h); }
          Do(steps[i]);
        }
      }
    }

    /** The library's LockContext: tries with one token until one succeeds in time.  It makes all its
        tries unless one gets the lock, and succeeds exactly when its last one does. */
    method LockContext(h: nat, tries: nat, env: Surroundings) returns (ok: bool, ghost tried: seq<Tried>)
      requires Valid() && In(s, h, Idle)
      modifies this
      ensures Valid() && In(s, h, if ok then Held else Failed) && old(trace) <= trace
      ensures SameRequest(s.handles[h], old(s.handles[h]))
      ensures Log(h) == old(Log(h)) + TriesSteps(h, env, |tried|, ok) + if ok then [] else [GiveUp(h)]
      ensures AreTries(first, trace, |old(trace)|, h, env, tried) && OnlyLastGets(h, tried, ok)
      ensures |tried| <= tries && (!ok ==> |tried| == tries)
      ensures !ok && tries > 0 && env.network(2 * tries - 1).executed ==> Gone(s, h)
      ensures Quiet(env) && !old(KeyIsTaken(s, h)) && (exists k: nat :: FirstThrough(env, tries, k)) ==> ok && !Gone(s, h)
      ensures Quiet(env) && old(KeyIsTaken(s, h) && Gone(s, h)) ==> !ok
    {
      hide Run, Next, Own, Happened, TriesSteps, TrySteps, AreTries, IsTry, Gets, Gone, KeyIsTaken, Quiet, BeginsAfter;
      tried := [];
      assert Log(h) + TriesSteps(h, env, 0, false) == Log(h) by { NoTries(Log(h), h, env); }
      NoneTried(first, trace, |trace|, h, env);
      for i := 0 to tries
        invariant Valid() && In(s, h, Idle) && old(trace) <= trace && |tried| == i
        invariant SameRequest(s.handles[h], old(s.handles[h]))
        invariant Log(h) == old(Log(h)) + TriesSteps(h, env, i, false)
        invariant AreTries(first, trace, |old(trace)|, h, env, tried) && forall j | 0 <= j < i :: !Gets(h, tried[j])
        invariant BeginsAfter(|old(trace)|, tried) <= |trace|
        invariant i > 0 && env.network(2 * i - 1).executed ==> Gone(s, h)
        invariant Quiet(env) && !old(KeyIsTaken(s, h)) && (forall j: nat | j < i :: !env.network(2 * j).executed) ==>
                    !KeyIsTaken(s, h)
        invariant forall k: nat | k < i :: Quiet(env) && !old(KeyIsTaken(s, h)) ==> !FirstThrough(env, tries, k)
        invariant Quiet(env) && old(KeyIsTaken(s, h) && Gone(s, h)) ==> KeyIsTaken(s, h) && Gone(s, h)
      {
        ghost var before := trace;
        ghost var x;
        ok, x := Try(h, env, i);
        TriesLog(old(Log(h)), h, env, i, ok);
        AreTriesOn(first, before, trace, |old(trace)|, h, env, tried);
        LaterTry(first, trace, BeginsAfter(|old(trace)|, tried), |before|, h, env.network(2 * i), x);
        OneMoreTry(first, trace, |old(trace)|, h, env, tried, x);
        tried := tried + [x];
        if ok {
          return;
        }
        AfterIsPast(first, trace, |before|, h, env.network(2 * i), x, |old(trace)|, tried);
      }
      ghost var before := trace;
      GiveUpNow(h);
      AreTriesOn(first, before, trace, |old(trace)|, h, env, tried);
      ok := false;
    }

    method GiveUpNow(h: nat)
      requires Valid() && In(s, h, Idle)
      modifies this
      ensures Valid() && In(s, h, Failed) && SameRequest(s.handles[h], old(s.handles[h])) && trace == old(trace) + [GiveUp(h)]
      ensures Log(h) == old(Log(h)) + [GiveUp(h)] && (old(Gone(s, h)) ==> Gone(s, h))
    {
      hide Run, Own, Happened;
      Move(h, GiveUp(h));
    }

    /** One try: it succeeds exactly when its command is carried out and answered, finds the key free,
        and the answer is there in time. */
    method Try(h: nat, env: Surroundings, i: nat) returns (ok: bool, ghost x: Tried)
      requires Valid() && In(s, h, Idle)
      modifies this
      ensures Valid() && In(s, h, if ok then Held else Idle) && old(trace) <= trace
      ensures SameRequest(s.handles[h], old(s.handles[h]))
      ensures Log(h) == old(Log(h)) + TrySteps(h, env.network(2 * i), env.network(2 * i + 1), ok)
      ensures IsTry(first, trace, |old(trace)|, h, env.network(2 * i), x) && (ok <==> Gets(h, x))
      ensures ok ==> env.network(2 * i) == Delivery(true, true)
      ensures !ok && env.network(2 * i + 1).executed ==> Gone(s, h)
      ensures Quiet(env) && !old(KeyIsTaken(s, h)) && env.network(2 * i) == Delivery(true, true) ==> ok && !Gone(s, h)
      ensures Quiet(env) && !old(KeyIsTaken(s, h)) && !env.network(2 * i).executed ==> !KeyIsTaken(s, h)
      ensures Quiet(env) && old(KeyIsTaken(s, h) && Gone(s, h)) ==> !ok && KeyIsTaken(s, h) && Gone(s, h)
    {
      hide Run, Next, Own, Happened, TrySteps, Gone, KeyIsTaken, Gets;
      TryLog(Log(h), h, env.network(2 * i), env.network(2 * i + 1));
      ok, x := AskAndConclude(h, env, i);
      if ok {
        return;
      }
      ghost var before, m := trace, s;
      CleanNow(h, env.others(4 * i + 3), env.network(2 * i + 1).executed);
      HappenedOn(first, before, trace, x.asked);
      HappenedOn(first, before, trace, x.ended);
      if s.now == m.now && s.redis == m.redis { SameKey(m, s, h); }
      if !KeyIsTaken(m, h) { FreeMeansGone(m, h); }
    }

    /** A try without its clean-up. */
    method AskAndConclude(h: nat, env: Surroundings, i: nat) returns (ok: bool, ghost x: Tried)
      requires Valid() && In(s, h, Idle)
      modifies this
      ensures Valid() && In(s, h, if ok then Held else Cleanup) && old(trace) <= trace
      ensures SameRequest(s.handles[h], old(s.handles[h]))
      ensures Log(h) == old(Log(h)) + [StartTry(h)] + [AskStep(h, env.network(2 * i))] + [Conclude(h)]
      ensures IsTry(first, trace, |old(trace)|, h, env.network(2 * i), x) && (ok <==> Gets(h, x))
      ensures ok ==> env.network(2 * i) == Delivery(true, true)
      ensures Quiet(env) && !old(KeyIsTaken(s, h)) && env.network(2 * i) == Delivery(true, true) ==> ok && !Gone(s, h)
      ensures Quiet(env) && !old(KeyIsTaken(s, h)) && !env.network(2 * i).executed ==> !KeyIsTaken(s, h)
      ensures Quiet(env) && old(KeyIsTaken(s, h) && Gone(s, h)) ==> !ok && KeyIsTaken(s, h) && Gone(s, h)
    {
      hide Run, Next, Own, Happened, Gone, KeyIsTaken, SetIfFree, BeforeDeadline, Clock;
      ghost var asked, ended;
      asked := Ask(h, env, i);
      ghost var before, m := trace, s;
      TtlIsPositive(h);
      ok, ended := End(h, env.others(4 * i + 2), Carried(asked, h));
      x := Tried(asked, ended);
      HappenedOn(first, before, trace, asked);
      if Quiet(env) {
        KeyAfterAsk(old(s), m, h, env.network(2 * i).executed);
        SameKey(m, s, h);
        InTimeAtOnce(m, h);
      }
    }

    lemma TtlIsPositive(h: nat)
      requires Valid() && h in s.handles
      ensures s.handles[h].ttl > 0
    {
      InvOfRun(first, trace, Free);
      assert HandleInv(s, h, Free);
    }

    /** The clock is read and the command sent. */
    method Ask(h: nat, env: Surroundings, i: nat) returns (ghost asked: Moment)
      requires Valid() && In(s, h, Idle)
      modifies this
      ensures Valid() && In(s, h, Answered(Carried(asked, h))) && SameRequest(s.handles[h], old(s.handles[h]))
      ensures Log(h) == old(Log(h)) + [StartTry(h)] + [AskStep(h, env.network(2 * i))]
      ensures old(trace) <= trace && Happened(first, trace, asked) && |old(trace)| <= asked.at < |trace|
      ensures asked.t == AskStep(h, env.network(2 * i)) && h in asked.s.handles
      ensures Quiet(env) ==>
                && s.now == old(s.now) && s.handles[h].start == Clock(s, s.handles[h])
                && (Carried(asked, h) <==> env.network(2 * i) == Delivery(true, true) && !old(KeyIsTaken(s, h)))
                && s.redis == if env.network(2 * i).executed
                              then SetIfFree(old(s.redis), s.now, s.handles[h].key, s.handles[h].token, s.handles[h].ttl)
                              else old(s.redis)
    {
      hide Run, Next, Own, Happened, SetIfFree, Live, Clock;
      Interfere(h, env.others(4 * i));
      StartTryDoes(s, h);
      Move(h, StartTry(h));
      Interfere(h, env.others(4 * i + 1));
      var sent := env.network(2 * i);
      asked := Moment(|trace|, AskStep(h, sent), s);
      AskDoes(s, h, sent);
      if sent.executed {
        Move(h, SetNX(h, sent.replied));
      } else {
        Move(h, LoseSet(h));
      }
    }

    /** The answer is judged by the caller's clock. */
    method End(h: nat, others: seq<Step>, ghost answered: bool) returns (ok: bool, ghost ended: Moment)
      requires Valid() && In(s, h, Answered(answered))
      modifies this
      ensures Valid() && In(s, h, if ok then Held else Cleanup) && SameRequest(s.handles[h], old(s.handles[h]))
      ensures Log(h) == old(Log(h)) + [Conclude(h)]
      ensures old(trace) <= trace && Happened(first, trace, ended) && |old(trace)| <= ended.at && ended.t == Conclude(h)
      ensures ok <==> answered && h in ended.s.handles && BeforeDeadline(ended.s, ended.s.handles[h])
      ensures others == [] ==> ended.s == old(s) && s.redis == old(s.redis) && s.now == old(s.now)
    {
      hide Run, Next, Own, Happened, BeforeDeadline;
      Interfere(h, others);
      ended := Moment(|trace|, Conclude(h), s);
      ConcludeDoes(s, h, answered);
      Move(h, Conclude(h));
      ok := s.handles[h].phase == Held;
    }

    method CleanNow(h: nat, others: seq<Step>, executed: bool)
      requires Valid() && In(s, h, Cleanup)
      modifies this
      ensures Valid() && In(s, h, Idle) && SameRequest(s.handles[h], old(s.handles[h]))
      ensures Log(h) == old(Log(h)) + [CleanUp(h, executed)] && old(trace) <= trace
      ensures executed ==> Gone(s, h)
      ensures others == [] ==> s.now == old(s.now) && (old(Gone(s, h)) ==> s.redis == old(s.redis))
    {
      hide Run, Next, Own, Happened, Gone;
      Interfere(h, others);
      CleanUpDoes(s, h, executed);
      Move(h, CleanUp(h, executed));
    }

    /** AcquireLockWithRetry: the handle of an acquired lock is the caller's. */
    method AcquireLockWithRetry(h: nat, maxRetries: nat, env: Surroundings) returns (ok: bool, ghost tried: seq<Tried>)
      requires Valid() && In(s, h, Idle) && s.handles[h].api == ByHandle
      modifies this
      ensures Valid() && In(s, h, if ok then Held else Failed)
      ensures SameRequest(s.handles[h], old(s.handles[h]))
      ensures Log(h) == old(Log(h)) + TriesSteps(h, env, |tried|, ok) + if ok then [] else [GiveUp(h)]
      ensures AreTries(first, trace, |old(trace)|, h, env, tried) && OnlyLastGets(h, tried, ok)
      ensures |tried| <= maxRetries && (!ok ==> |tried| == maxRetries)
      ensures !ok && maxRetries > 0 && env.network(2 * maxRetries - 1).executed ==> Gone(s, h)
      ensures Quiet(env) && !old(KeyIsTaken(s, h)) && (exists k: nat :: FirstThrough(env, maxRetries, k)) ==> ok && !Gone(s, h)
      ensures Quiet(env) && old(KeyIsTaken(s, h) && Gone(s, h)) ==> !ok
    {
      ok, tried := LockContext(h, maxRetries, env);
    }

    /** ReleaseLockWithRetry: unlock until the server says that the lock was there.  All it
        ever sends is the compare-and-delete of its own token, at most `maxRetries` times; it returns
        without an error exactly when one of them was carried out and answered and found the token,
        which can only be the first that was carried out; but the lock is gone whenever one was. */
    method ReleaseLockWithRetry(h: nat, maxRetries: int, env: Surroundings)
      returns (ok: bool, ghost sent: nat, ghost used: seq<Moment>)
      requires Valid() && (In(s, h, Held) || In(s, h, Releasing)) && s.handles[h].api == ByHandle
      modifies this
      ensures Valid() && In(s, h, Releasing) && SameRequest(s.handles[h], old(s.handles[h]))
      ensures Log(h) == old(Log(h)) + (if old(In(s, h, Held)) then [StartRelease(h)] else []) + Unlocks(h, sent)
      ensures sent == Executed(env, |used|) && AreUnlocks(first, trace, |old(trace)|, h, env, used)
      ensures |used| <= (if maxRetries < 0 then 0 else maxRetries)
      ensures !ok ==> |used| == if maxRetries < 0 then 0 else maxRetries
      ensures OnlyLastFrees(h, env, used, ok)
      ensures sent > 0 ==> Gone(s, h)
      ensures ok ==> sent == 1
    {
      hide Run, Next, Own, Gone, Happened, Unlocks, AreUnlocks, NoneFrees, OnlyLastFrees, Executed, Frees;
      BeginRelease(h);
      sent, used := 0, [];
      ok := false;
      NothingSent(Log(h), h);
      NoUnlocks(first, trace, |old(trace)|, h, env);
      ghost var begun := Log(h);
      var i := 0;
      while i < maxRetries
        invariant Valid() && In(s, h, Releasing) && SameRequest(s.handles[h], old(s.handles[h])) && old(trace) <= trace
        invariant Log(h) == begun + Unlocks(h, sent)
        invariant i == |used| && (i == 0 || i <= maxRetries)
        invariant sent == Executed(env, i) && AreUnlocks(first, trace, |old(trace)|, h, env, used)
        invariant NoneFrees(h, env, used) && OnlyLastFrees(h, env, used, false)
        invariant sent > 0 ==> Gone(s, h)
      {
        ok, sent, used := OneUnlock(h, i, env, |old(trace)|, begun, sent, used);
        if ok {
          return;
        }
        i := i + 1;
      }
    }

    /** One attempt more. */
    method OneUnlock(h: nat, i: nat, env: Surroundings, ghost from: nat, ghost begun: seq<Step>, ghost sent: nat,
                     ghost used: seq<Moment>)
      returns (freed: bool, ghost sent': nat, ghost used': seq<Moment>)
      requires Valid() && In(s, h, Releasing) && from <= |trace| && i == |used|
      requires Log(h) == begun + Unlocks(h, sent) && sent == Executed(env, |used|)
      requires AreUnlocks(first, trace, from, h, env, used) && NoneFrees(h, env, used) && (sent > 0 ==> Gone(s, h))
      modifies this
      ensures Valid() && In(s, h, Releasing) && SameRequest(s.handles[h], old(s.handles[h])) && old(trace) <= trace
      ensures |used'| == |used| + 1 && Log(h) == begun + Unlocks(h, sent') && sent' == Executed(env, |used'|)
      ensures AreUnlocks(first, trace, from, h, env, used') && OnlyLastFrees(h, env, used', freed)
      ensures (!freed ==> NoneFrees(h, env, used')) && (sent' > 0 ==> Gone(s, h)) && (freed ==> sent' == 1)
    {
      hide Run, Next, Own, Gone, Happened, Unlocks, AreUnlocks, NoneFrees, OnlyLastFrees, Executed;
      ghost var m;
      freed, m := Deliver(h, env.others(i), env.network(i));
      UnlocksMore(begun, h, sent);
      UnlocksOn(first, old(trace), trace, from, h, env, used, m);
      OneMoreFrees(h, env, used, m, freed);
      used' := used + [m];
      sent' := sent + if env.network(|used|).executed then 1 else 0;
    }

    method BeginRelease(h: nat)
      requires Valid() && (In(s, h, Held) || In(s, h, Releasing)) && s.handles[h].api == ByHandle
      modifies this
      ensures Valid() && In(s, h, Releasing) && SameRequest(s.handles[h], old(s.handles[h])) && old(trace) <= trace
      ensures Log(h) == old(Log(h)) + if old(In(s, h, Held)) then [StartRelease(h)] else []
    {
      hide Run, Next, Own, Happened;
      if s.handles[h].phase == Held {
        Move(h, StartRelease(h));
      }
    }

    /** One attempt of ReleaseLockWithRetry. */
    method Deliver(h: nat, others: seq<Step>, d: Delivery) returns (freed: bool, ghost m: Moment)
      requires Valid() && In(s, h, Releasing)
      modifies this
      ensures Valid() && In(s, h, Releasing) && SameRequest(s.handles[h], old(s.handles[h])) && old(trace) <= trace
      ensures Log(h) == old(Log(h)) + if d.executed then [Unlock(h)] else []
      ensures d.executed ==> Happened(first, trace, m) && m.t == Unlock(h)
      ensures |old(trace)| <= m.at && h in m.s.handles && (freed <==> Frees(h, d, m))
      ensures (d.executed || old(Gone(s, h))) ==> Gone(s, h)
      ensures old(Gone(s, h)) ==> !freed
    {
      hide Run, Next, Own, Gone, Happened;
      Interfere(h, others);
      m := Moment(|trace|, Unlock(h), s);
      freed := false;
      if d.executed {
        var owned := SendUnlock(h);
        freed := d.replied && owned;
      }
    }

    /** AcquireLock: the handle of an acquired lock goes into the map of the process. */
    method AcquireLock(h: nat, tries: nat, env: Surroundings) returns (ok: bool, ghost tried: seq<Tried>)
      requires Valid() && In(s, h, Idle) && s.handles[h].api == ByKey
      modifies this
      ensures Valid() && In(s, h, if ok then Stored else Failed)
      ensures ok ==> InItsMap(s, h)
      ensures SameRequest(s.handles[h], old(s.handles[h]))
      ensures Log(h) == old(Log(h)) + TriesSteps(h, env, |tried|, ok) + if ok then [StoreMutex(h)] else [GiveUp(h)]
      ensures AreTries(first, trace, |old(trace)|, h, env, tried) && OnlyLastGets(h, tried, ok)
      ensures |tried| <= tries && (!ok ==> |tried| == tries)
      ensures !ok && tries > 0 && env.network(2 * tries - 1).executed ==> Gone(s, h)
      ensures Quiet(env) && !old(KeyIsTaken(s, h)) && (exists k: nat :: FirstThrough(env, tries, k)) ==> ok && !Gone(s, h)
      ensures Quiet(env) && old(KeyIsTaken(s, h) && Gone(s, h)) ==> !ok
    {
      hide Run, Next, Own, Happened, TriesSteps, AreTries, OnlyLastGets, FirstThrough;
      ok, tried := LockContext(h, tries, env);
      if !ok {
        return;
      }
      ghost var before := trace;
      Interfere(h, env.others(4 * tries));
      Move(h, StoreMutex(h));
      AreTriesOn(first, before, trace, |old(trace)|, h, env, tried);
    }

    /** ReleaseLock: the caller's handle is looked up by key, unlocked and taken out of the map.
        What it has done and what it reports are told by the lookup and by how its one command fared. */
    method ReleaseLock(h: nat, env: Surroundings) returns (r: Release, ghost looked: Moment, ghost asked: Moment)
      requires Valid() && MayRelease(s, h)
      modifies this
      ensures Valid() && In(s, h, Released) && old(trace) <= trace
      ensures Log(h) == old(Log(h)) + ReleaseSteps(h, r, env.network(0))
      ensures Happened(first, trace, looked) && |old(trace)| <= looked.at && looked.t == GetMutex(h)
      ensures h in looked.s.handles && (r.NoMutex? <==> SlotOf(looked.s, h) !in looked.s.maps)
      ensures !r.NoMutex? ==> IsUnlock(first, trace, looked.at + 1, h, env, asked)
                              && asked.s.handles[h].phase == Found(looked.s.maps[SlotOf(looked.s, h)])
      ensures r == if r.NoMutex? then NoMutex else Reported(asked.s, h, env)
      ensures r.Unlocked? ==> SlotOf(s, h) !in s.maps
    {
      hide Run, Next, Own, SameRequest, Happened, Reported, Goes;
      r := NoMutex;
      looked := LookUp(h, env.others(0));
      asked := looked;
      if s.handles[h].phase == Released {
        return;
      }
      ghost var before := trace;
      r, asked := UnlockMutex(h, env);
      HappenedOn(first, before, trace, looked);
    }

    /** GetMutex. */
    method LookUp(h: nat, others: seq<Step>) returns (ghost looked: Moment)
      requires Valid() && MayRelease(s, h)
      modifies this
      ensures Valid() && old(trace) <= trace && Log(h) == old(Log(h)) + [GetMutex(h)]
      ensures Happened(first, trace, looked) && |old(trace)| <= looked.at < |trace| && looked.t == GetMutex(h)
      ensures h in looked.s.handles
      ensures In(s, h, if SlotOf(looked.s, h) in looked.s.maps then Found(looked.s.maps[SlotOf(looked.s, h)]) else Released)
    {
      hide Run, Next, Own, SameRequest, Happened, Goes;
      Interfere(h, others);
      looked := Moment(|trace|, GetMutex(h), s);
      LookupFinds(s, h);
      Move(h, GetMutex(h));
    }

    /** The rest of ReleaseLock, once a handle has been found. */
    method UnlockMutex(h: nat, env: Surroundings) returns (r: Release, ghost asked: Moment)
      requires Valid() && h in s.handles && s.handles[h].phase.Found?
      modifies this
      ensures Valid() && In(s, h, Released) && !r.NoMutex? && old(trace) <= trace
      ensures Log(h) == old(Log(h)) + UnlockSteps(h, r, env.network(0))
      ensures IsUnlock(first, trace, |old(trace)|, h, env, asked) && asked.s.handles[h] == old(s.handles[h])
      ensures r == Reported(asked.s, h, env)
      ensures r.Unlocked? ==> SlotOf(s, h) !in s.maps
    {
      hide Run, Next, Own, SameRequest, Happened, FoundOwns, Goes;
      Interfere(h, env.others(1));
      var d := env.network(0);
      FoundIsKnown(h);
      asked := Moment(|trace|, UnlockFound(h, d.executed, d.replied), s);
      UnlockFoundDoes(s, h, d);
      Move(h, UnlockFound(h, d.executed, d.replied));
      if !d.executed || !d.replied {
        return Faulty, asked;
      }
      if s.handles[h].phase == Released {
        return if env.missingIsError then Faulty else NotOwner, asked;
      }
      ghost var before := trace;
      TakeOut(h, env.others(2));
      HappenedOn(first, before, trace, asked);
      return Unlocked, asked;
    }

    /** RemoveMutex. */
    method TakeOut(h: nat, others: seq<Step>)
      requires Valid() && In(s, h, Removing)
      modifies this
      ensures Valid() && In(s, h, Released) && old(trace) <= trace && SlotOf(s, h) !in s.maps
      ensures Log(h) == old(Log(h)) + [RemoveMutex(h)]
    {
      hide Run, Next, Own, Happened;
      Interfere(h, others);
      Move(h, RemoveMutex(h));
    }

    lemma FoundIsKnown(h: nat)
      requires Valid() && h in s.handles && s.handles[h].phase.Found?
      ensures s.handles[h].phase.handle in s.handles
    {
      InvOfRun(first, trace, Free);
      assert HandleInv(s, h, Free);
    }

    /** StoreRedisWithLock: the data is written between acquire and release, or not at all. */
    method StoreRedisWithLock(h: nat, tries: nat, acquiring: Surroundings, writing: seq<Step>, releasing: Surroundings)
      returns (stored: bool, ghost tried: seq<Tried>, ghost r: Release)
      requires Valid() && In(s, h, Idle) && s.handles[h].api == ByKey
      modifies this
      ensures Valid() && In(s, h, if stored then Released else Failed)
      ensures |tried| <= tries && (!stored ==> |tried| == tries) && OnlyLastGets(h, tried, stored)
      ensures AreTries(first, trace, |old(trace)|, h, acquiring, tried)
      ensures Log(h) == old(Log(h)) + TriesSteps(h, acquiring, |tried|, stored) +
                if stored then [StoreMutex(h), BeginWrite(h), EndWrite(h)] + ReleaseSteps(h, r, releasing.network(0))
                else [GiveUp(h)]
      ensures Quiet(acquiring) && !old(KeyIsTaken(s, h)) && (exists k: nat :: FirstThrough(acquiring, tries, k)) ==> stored
      ensures Quiet(acquiring) && old(KeyIsTaken(s, h) && Gone(s, h)) ==> !stored
    {
      hide Run, Next, Own, TriesSteps, ReleaseSteps, Happened, AreTries, OnlyLastGets, FirstThrough, KeyIsTaken,
           Gone, IsUnlock, Reported;
      r := NoMutex;
      stored, tried := AcquireLock(h, tries, acquiring);
      if !stored {
        return;
      }
      ghost var log, before := Log(h), trace;
      StoreRedis(h, writing);
      ghost var looked, asked;
      r, looked, asked := ReleaseLock(h, releasing);
      AllOfIt(old(Log(h)), TriesSteps(h, acquiring, |tried|, true), h, ReleaseSteps(h, r, releasing.network(0)));
      AreTriesOn(first, before, trace, |old(trace)|, h, acquiring, tried);
    }

    /** The write itself, while others go on. */
    method StoreRedis(h: nat, others: seq<Step>)
      requires Valid() && In(s, h, Stored) && s.handles[h].api == ByKey
      modifies this
      ensures Valid() && In(s, h, Written) && s.handles[h].api == ByKey
      ensures Log(h) == old(Log(h)) + [BeginWrite(h)] + [EndWrite(h)] && old(trace) <= trace
    {
      hide Run, Next, Own, Happened;
      Move(h, BeginWrite(h));
      Interfere(h, others);
      Move(h, EndWrite(h));
    }
  }

  lemma NoTries(log: seq<Step>, h: nat, env: Surroundings)
    ensures log + TriesSteps(h, env, 0, false) == log
  {
  }

  lemma NoneTried(first: State, trace: seq<Step>, from: nat, h: nat, env: Surroundings)
    ensures AreTries(first, trace, from, h, env, []) && BeginsAfter(from, []) == from
  {
  }

  lemma LaterTry(first: State, trace: seq<Step>, from: nat, later: nat, h: nat, d: Delivery, x: Tried)
    requires IsTry(first, trace, later, h, d, x) && from <= later
    ensures IsTry(first, trace, from, h, d, x)
  {
  }

  lemma AfterIsPast(first: State, trace: seq<Step>, later: nat, h: nat, d: Delivery, x: Tried, from: nat, tried: seq<Tried>)
    requires IsTry(first, trace, later, h, d, x) && tried != [] && tried[|tried| - 1] == x
    ensures BeginsAfter(from, tried) <= |trace|
  {
  }

  /** The command that asked was carried out and answered and found the key free. */
  predicate Carried(asked: Moment, h: nat) {
    asked.t == SetNX(h, true) && h in asked.s.handles && !KeyIsTaken(asked.s, h)
  }

  // ---------- what a release is ----------

  function SlotOf(s: State, h: nat): Slot
    requires h in s.handles
  {
    Slot(s.handles[h].proc, s.handles[h].key)
  }

  /** The unlock of ReleaseLock. */
  ghost predicate IsUnlock(first: State, trace: seq<Step>, from: nat, h: nat, env: Surroundings, asked: Moment) {
    && Happened(first, trace, asked) && from <= asked.at
    && asked.t == UnlockFound(h, env.network(0).executed, env.network(0).replied) && h in asked.s.handles
  }

  /** The handle that ReleaseLock has found has its lock in Redis. */
  predicate FoundOwns(s: State, h: nat)
    requires h in s.handles
  {
    var phase := s.handles[h].phase;
    phase.Found? && phase.handle in s.handles && !Gone(s, phase.handle)
  }

  /** What ReleaseLock reports when its unlock is carried out in state `s`, or lost. */
  function Reported(s: State, h: nat, env: Surroundings): Release
    requires h in s.handles
  {
    if !env.network(0).executed || !env.network(0).replied then Faulty
    else if FoundOwns(s, h) then Unlocked
    else if env.missingIsError then Faulty else NotOwner
  }

  lemma LookupFinds(s: State, h: nat)
    requires MayRelease(s, h)
    ensures var next := Next(s, GetMutex(h));
            next.Some? && h in next.value.handles
            && next.value.handles[h].phase == if SlotOf(s, h) in s.maps then Found(s.maps[SlotOf(s, h)]) else Released
  {
  }

  lemma UnlockFoundDoes(s: State, h: nat, d: Delivery)
    requires h in s.handles && s.handles[h].phase.Found? && s.handles[h].phase.handle in s.handles
    ensures var next := Next(s, UnlockFound(h, d.executed, d.replied));
            next.Some? && In(next.value, h, if d.executed && d.replied && FoundOwns(s, h) then Removing else Released)
  {
  }

  /** How many of the first `n` commands are carried out. */
  function Executed(env: Surroundings, n: nat): nat {
    if n == 0 then 0 else Executed(env, n - 1) + if env.network(n - 1).executed then 1 else 0
  }

  /** The unlock was carried out and answered, and the token was there. */
  predicate Frees(h: nat, d: Delivery, m: Moment) {
    d.executed && d.replied && h in m.s.handles && !Gone(m.s, h)
  }

  /** The moments of the unlocks that are carried out, in order. */
  ghost predicate AreUnlocks(first: State, trace: seq<Step>, from: nat, h: nat, env: Surroundings, used: seq<Moment>) {
    && (forall i | 0 <= i < |used| && env.network(i).executed ::
          Happened(first, trace, used[i]) && used[i].t == Unlock(h) && from <= used[i].at)
    && (forall i, j | 0 <= i < j < |used| && env.network(i).executed :: used[i].at < used[j].at)
  }

  /** None of the unlocks found its token and was answered, except the last one if `ok`. */
  ghost predicate OnlyLastFrees(h: nat, env: Surroundings, used: seq<Moment>, ok: bool) {
    && (forall i | 0 <= i < |used| - 1 :: !Frees(h, env.network(i), used[i]))
    && (ok <==> used != [] && Frees(h, env.network(|used| - 1), used[|used| - 1]))
  }

  lemma NothingSent(log: seq<Step>, h: nat)
    ensures log == log + Unlocks(h, 0)
  {
  }

  lemma NoUnlocks(first: State, trace: seq<Step>, from: nat, h: nat, env: Surroundings)
    ensures AreUnlocks(first, trace, from, h, env, []) && NoneFrees(h, env, []) && OnlyLastFrees(h, env, [], false)
    ensures Executed(env, 0) == 0
  {
  }

  ghost predicate NoneFrees(h: nat, env: Surroundings, used: seq<Moment>) {
    forall i | 0 <= i < |used| :: !Frees(h, env.network(i), used[i])
  }

  lemma OneMoreFrees(h: nat, env: Surroundings, used: seq<Moment>, m: Moment, freed: bool)
    requires NoneFrees(h, env, used) && (freed <==> Frees(h, env.network(|used|), m))
    ensures OnlyLastFrees(h, env, used + [m], freed) && (!freed ==> NoneFrees(h, env, used + [m]))
    ensures Executed(env, |used| + 1) == Executed(env, |used|) + if env.network(|used|).executed then 1 else 0
  {
    hide Frees;
  }

  lemma UnlocksOn(first: State, trace: seq<Step>, trace': seq<Step>, from: nat, h: nat, env: Surroundings, used: seq<Moment>,
                  m: Moment)
    requires AreUnlocks(first, trace, from, h, env, used) && trace <= trace' && from <= |trace| <= m.at
    requires env.network(|used|).executed ==> Happened(first, trace', m) && m.t == Unlock(h)
    ensures AreUnlocks(first, trace', from, h, env, used + [m])
  {
    forall i | 0 <= i < |used| && env.network(i).executed
      ensures Happened(first, trace', used[i]) && used[i].at < |trace|
    {
      HappenedOn(first, trace, trace', used[i]);
    }
    hide Happened;
  }

  /** `n` times the command that unlocks. */
  function Unlocks(h: nat, n: nat): seq<Step> {
    seq(n, _ => Unlock(h))
  }

  lemma UnlocksMore(log: seq<Step>, h: nat, n: nat)
    ensures log + Unlocks(h, n) + [Unlock(h)] == log + Unlocks(h, n + 1) && log + Unlocks(h, n) + [] == log + Unlocks(h, n)
  {
  }

  /** What ReleaseLock reports. */
  datatype Release = NoMutex | Faulty | NotOwner | Unlocked

  /** What ReleaseLock has then done. */
  function ReleaseSteps(h: nat, r: Release, d: Delivery): seq<Step> {
    [GetMutex(h)] + UnlockSteps(h, r, d)
  }

  function UnlockSteps(h: nat, r: Release, d: Delivery): seq<Step> {
    match r
    case NoMutex => []
    case Faulty => [UnlockFound(h, d.executed, d.replied)]
    case NotOwner => [UnlockFound(h, true, true)]
    case Unlocked => [UnlockFound(h, true, true), RemoveMutex(h)]
  }
}
