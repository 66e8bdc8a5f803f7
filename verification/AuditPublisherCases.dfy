/** Runs of the publisher that must be possible, and ones that its users must not provoke. */
module AuditPublisherCases {
  import opened Wrappers
  import opened Runs
  import opened Counting
  import opened AuditPublisher
  import opened AuditPublisherSafety
  import opened AuditPublisherRuns

  ghost predicate Reached(cfg: Config, s: State) {
    exists steps :: Reaches(cfg, steps, s, false)
  }

  lemma Go(cfg: Config, s: State, t: Step)
    requires Reached(cfg, s) && Next(cfg, s, t, false).Some?
    ensures Reached(cfg, Next(cfg, s, t, false).value)
  {
    hide Next;
    var steps :| Reaches(cfg, steps, s, false);
    RunOneMore(NextBy(cfg, false), INITIAL, steps, t);
    assert Reaches(cfg, steps + [t], Next(cfg, s, t, false).value, false);
  }

  // ---------- an open breaker can be closed ----------

  /** Steps other than the count of a new failure. */
  function NextNoFailure(cfg: Config): (State, Step) -> Option<State> {
    (s: State, t: Step) => if t.AddFailure? then None else Next(cfg, s, t, false)
  }

  /** `s` can go on to `s'` without a new failure. */
  ghost predicate LeadsTo(cfg: Config, s: State, s': State) {
    exists steps :: Run(NextNoFailure(cfg), s, steps) == Some(s')
  }

  lemma OneStep(cfg: Config, s: State, m: State, t: Step)
    requires LeadsTo(cfg, s, m) && !t.AddFailure? && Next(cfg, m, t, false).Some?
    ensures LeadsTo(cfg, s, Next(cfg, m, t, false).value)
  {
    hide Next;
    var steps :| Run(NextNoFailure(cfg), s, steps) == Some(m);
    RunOneMore(NextNoFailure(cfg), s, steps, t);
  }

  lemma NoStep(cfg: Config, s: State)
    ensures LeadsTo(cfg, s, s)
  {
    assert Run(NextNoFailure(cfg), s, []) == Some(s);
  }

  /** A worker that has counted a failure up to the threshold and not yet tried to open. */
  predicate HasCounted(cfg: Config, s: State, w: nat) {
    w < |s.workers| && s.workers[w].Counted? && s.workers[w].n >= cfg.threshold
  }

  /** What closing the breaker leaves alone. */
  ghost predicate OnlyCloses(s: State, s': State) {
    && !s'.breaker.open && !s'.ending.crashed && s.breaker.log <= s'.breaker.log
    && |s'.workers| == |s.workers|
    && forall w | 0 <= w < |s.workers| && s.workers[w].Counted? :: s'.workers[w] == s.workers[w]
  }

  /** A cooldown that has not left goes on until it has closed the breaker. */
  lemma CooldownCloses(cfg: Config, s: State, m: State, c: nat) returns (s': State)
    requires LeadsTo(cfg, s, m) && !m.ending.crashed && c < |m.cooldowns| && Pending()(m.cooldowns[c])
    ensures LeadsTo(cfg, s, s') && OnlyCloses(m, s')
  {
    hide LeadsTo;
    s' := m;
    if s'.cooldowns[c].Cooling? {
      OneStep(cfg, s, s', Fire(c));
      s' := Next(cfg, s', Fire(c), false).value;
    }
    if s'.cooldowns[c].Fired? {
      OneStep(cfg, s, s', ZeroFailures(c));
      s' := Next(cfg, s', ZeroFailures(c), false).value;
    }
    OneStep(cfg, s, s', Step.Close(c));
    s' := Next(cfg, s', Step.Close(c), false).value;
  }

  lemma FindOne<T>(xs: seq<T>, p: T -> bool) returns (i: nat)
    requires Count(xs, p) > 0
    ensures i < |xs| && p(xs[i])
  {
    CountNone(xs, p);
    i :| 0 <= i < |xs| && p(xs[i]);
  }

  /** Before Stop, an open breaker can always be closed, by steps of nobody but its closer. */
  lemma OpenBreakerCanClose(cfg: Config, steps: seq<Step>, s: State) returns (s': State)
    requires Reaches(cfg, steps, s, false) && s.breaker.open && !s.ending.done && !s.ending.crashed
    ensures LeadsTo(cfg, s, s') && OnlyCloses(s, s')
  {
    hide Reaches, LeadsTo, Count;
    OneCloserAtMost(cfg, steps, s, false);
    NoStep(cfg, s);
    if Count(s.cooldowns, Pending()) > 0 {
      var c := FindOne(s.cooldowns, Pending());
      s' := CooldownCloses(cfg, s, s, c);
    } else {
      var w := FindOne(s.workers, HasWon());
      OneStep(cfg, s, s, Spawn(w));
      var m := Next(cfg, s, Spawn(w), false).value;
      s' := CooldownCloses(cfg, s, m, |s.cooldowns|);
    }
  }

  // ---------- Submit after Stop ----------

  /** The caller's part: no Submit is begun once Stop has begun, and Stop waits for those under way. */
  predicate Guarded(s: State, t: Step) {
    && (t.SubmitLoad? ==> !s.ending.done)
    && (t.StopDone? ==> s.channel.passed == map[])
  }

  function NextGuarded(cfg: Config): (State, Step) -> Option<State> {
    (s, t) => if Guarded(s, t) then Next(cfg, s, t, false) else None
  }

  predicate Quiet(s: State) {
    && !s.ending.crashed
    && (s.ending.shut ==> s.ending.done)
    && (s.ending.done ==> s.channel.passed == map[])
  }

  lemma QuietStep(cfg: Config, s: State, t: Step)
    requires Quiet(s) && NextGuarded(cfg)(s, t).Some?
    ensures Quiet(NextGuarded(cfg)(s, t).value)
  {
  }

  /** With that, nothing is ever sent on the closed channel. */
  lemma GuardedNeverPanics(cfg: Config, steps: seq<Step>)
    ensures var end := Run(NextGuarded(cfg), INITIAL, steps); end.Some? ==> !end.value.ending.crashed
  {
    hide Next, Run;
    forall m, t | Quiet(m) && NextGuarded(cfg)(m, t).Some? ensures Quiet(NextGuarded(cfg)(m, t).value) {
      QuietStep(cfg, m, t);
    }
    InvariantHolds(NextGuarded(cfg), Quiet, INITIAL, steps);
  }

  /** Steps other than the beginning of a Submit. */
  function NextNoSubmit(cfg: Config): (State, Step) -> Option<State> {
    (s: State, t: Step) => if t.SubmitLoad? then None else Next(cfg, s, t, false)
  }

  /** The process can come to panic without another Submit. */
  ghost predicate CanPanic(cfg: Config, s: State) {
    exists steps :: Panics(cfg, s, steps)
  }

  ghost predicate Panics(cfg: Config, s: State, steps: seq<Step>) {
    var end := Run(NextNoSubmit(cfg), s, steps);
    end.Some? && end.value.ending.crashed
  }

  predicate NobodySends(s: State) {
    !s.ending.crashed && s.channel.passed == map[]
  }

  lemma NobodySendsStep(cfg: Config, s: State, t: Step)
    requires NobodySends(s) && NextNoSubmit(cfg)(s, t).Some?
    ensures NobodySends(NextNoSubmit(cfg)(s, t).value)
  {
  }

  lemma NobodySendsRun(cfg: Config, s: State, steps: seq<Step>)
    requires NobodySends(s)
    ensures !Panics(cfg, s, steps)
  {
    hide Next, Run;
    forall m, t | NobodySends(m) && NextNoSubmit(cfg)(m, t).Some? ensures NobodySends(NextNoSubmit(cfg)(m, t).value) {
      NobodySendsStep(cfg, m, t);
    }
    InvariantHolds(NextNoSubmit(cfg), NobodySends, s, steps);
  }

  lemma TwoStepRun(cfg: Config, s: State, a: Step, m: State, b: Step)
    requires NextNoSubmit(cfg)(s, a) == Some(m)
    ensures Run(NextNoSubmit(cfg), s, [a]) == Some(m)
    ensures Run(NextNoSubmit(cfg), s, [a, b]) == NextNoSubmit(cfg)(m, b)
  {
    hide Next;
    assert Run(NextNoSubmit(cfg), s, []) == Some(s);
    RunOneMore(NextNoSubmit(cfg), s, [], a);
    RunOneMore(NextNoSubmit(cfg), s, [a], b);
    assert [] + [a] == [a] && [a] + [b] == [a, b];
  }

  lemma SendPanics(cfg: Config, s: State, call: nat) returns (steps: seq<Step>)
    requires !s.ending.crashed && s.ending.done && call in s.channel.passed
    ensures Panics(cfg, s, steps)
  {
    hide Run;
    if s.ending.shut {
      steps := [SubmitSend(call)];
      TwoStepRun(cfg, s, SubmitSend(call), Next(cfg, s, SubmitSend(call), false).value, StopDone);
    } else {
      steps := [StopChannel, SubmitSend(call)];
      TwoStepRun(cfg, s, StopChannel, Next(cfg, s, StopChannel, false).value, SubmitSend(call));
    }
  }

  /** Once Stop has begun, the process can still panic without another Submit exactly when one
      is under way. */
  lemma CanPanicIffUnderWay(cfg: Config, s: State)
    requires !s.ending.crashed && s.ending.done
    ensures CanPanic(cfg, s) <==> s.channel.passed != map[]
  {
    hide Panics, Next;
    if s.channel.passed == map[] {
      forall steps ensures !Panics(cfg, s, steps) {
        NobodySendsRun(cfg, s, steps);
      }
    } else {
      var call :| call in s.channel.passed;
      var steps := SendPanics(cfg, s, call);
    }
  }

  /** Without it, a Submit that Stop overtakes between its two actions panics. */
  lemma OvertakenSubmitPanics(cfg: Config, payload: string) returns (s: State)
    ensures Reached(cfg, s) && s.ending.crashed
  {
    hide Reaches;
    assert Reached(cfg, INITIAL) by { Begun(cfg); }
    Go(cfg, INITIAL, SubmitLoad(0, payload));
    s := Next(cfg, INITIAL, SubmitLoad(0, payload), false).value;
    Go(cfg, s, StopDone);
    s := Next(cfg, s, StopDone, false).value;
    Go(cfg, s, StopChannel);
    s := Next(cfg, s, StopChannel, false).value;
    Go(cfg, s, SubmitSend(0));
    s := Next(cfg, s, SubmitSend(0), false).value;
  }

  lemma Begun(cfg: Config)
    ensures Reached(cfg, INITIAL)
  {
    assert Reaches(cfg, [], INITIAL, false);
  }

  // ---------- openings without a failure in between ----------

  const TWO := Config(2, 2, 1)

  /** `s` with the workers `v` and `w` and the cooldowns `cs`. */
  function With(s: State, v: Worker, w: Worker, cs: seq<Cooldown>, b: Breaker): State {
    s.(workers := [v, w], cooldowns := cs, breaker := b)
  }

  function At(n: nat, messages: seq<string>, taken: nat, v: Worker, w: Worker): State
    requires |messages| == n && taken <= n
  {
    State(Channel(seq(n - taken, i requires 0 <= i < n - taken => Message(taken + i, messages[taken + i])),
                  map[], messages, taken, []),
          [v, w], [], Breaker(0, false, []), Ending(false, false, false, false), Tally(n, 0, 0, taken, 0, 0, 0))
  }

  /** Equality, field by field. */
  predicate Same(a: State, b: State) {
    && a.channel.queue == b.channel.queue && a.channel.passed == b.channel.passed && a.channel.accepted == b.channel.accepted
    && a.channel.taken == b.channel.taken && a.channel.handed == b.channel.handed
    && a.workers == b.workers && a.cooldowns == b.cooldowns
    && a.breaker.failures == b.breaker.failures && a.breaker.open == b.breaker.open && a.breaker.log == b.breaker.log
    && a.ending == b.ending && a.tally == b.tally
  }

  lemma Then(s: State, t: Step, s': State)
    requires Reached(TWO, s) && Next(TWO, s, t, false).Some? && Same(Next(TWO, s, t, false).value, s')
    ensures Reached(TWO, s')
  {
    hide Next;
    Go(TWO, s, t);
  }

  lemma Submitted(messages: seq<string>, payload: string)
    requires Reached(TWO, At(|messages|, messages, 0, Waiting, Waiting)) && |messages| < 2
    ensures Reached(TWO, At(|messages| + 1, messages + [payload], 0, Waiting, Waiting))
  {
    hide Reached;
    var s := At(|messages|, messages, 0, Waiting, Waiting);
    var s1 := s.(tally := s.tally.(submitted := |messages| + 1), channel := s.channel.(passed := map[0 := payload]));
    Then(s, SubmitLoad(0, payload), s1);
    var s2 := At(|messages| + 1, messages + [payload], 0, Waiting, Waiting);
    assert s2.channel.queue == s.channel.queue + [Message(|messages|, payload)];
    Then(s1, SubmitSend(0), s2);
  }

  lemma BothSubmitted()
    ensures Reached(TWO, At(2, ["a", "b"], 0, Waiting, Waiting))
  {
    hide Reached;
    Begun(TWO);
    var s := At(0, [], 0, Waiting, Waiting);
    assert [] + seq(2, _ => Waiting) == [Waiting, Waiting];
    Then(INITIAL, Start, s);
    Submitted([], "a");
    assert [] + ["a"] == ["a"];
    Submitted(["a"], "b");
    assert ["a"] + ["b"] == ["a", "b"];
  }

  /** Both workers have a message and find the client not ready. */
  lemma BothFail()
    ensures Reached(TWO, BOTH_FAIL)
  {
    hide Reached;
    BothSubmitted();
    var messages := ["a", "b"];
    var a, b := Message(0, "a"), Message(1, "b");
    var s := At(2, messages, 0, Waiting, Waiting);
    assert s.channel.queue == [a, b];
    var s1 := At(2, messages, 1, Got(a), Waiting).(tally := s.tally);
    assert s1.channel.queue == [b];
    Then(s, Receive(0), s1);
    var s2 := At(2, messages, 2, Got(a), Got(b)).(tally := s.tally);
    Then(s1, Receive(1), s2);
    Then(s2, AskReady(0, false), s2.(workers := [Failing, Got(b)], tally := s.tally.(notReady := 1)));
    Then(s2.(workers := [Failing, Got(b)], tally := s.tally.(notReady := 1)), AskReady(1, false), BOTH_FAIL);
  }

  const BOTH_FAIL := At(2, ["a", "b"], 2, Failing, Failing)

  const ONCE := [Failure, Failure, Opening(1, 1)]
  const TWICE := [Failure, Failure, Opening(1, 1), Reset(true), Opening(2, 2)]

  /** Both count their failure, and the first opens the breaker. */
  lemma FirstOpens()
    ensures Reached(TWO, With(BOTH_FAIL, Won, Counted(2, 2), [], Breaker(2, true, ONCE)))
  {
    hide Reached;
    BothFail();
    var s1 := With(BOTH_FAIL, Counted(1, 1), Failing, [], Breaker(1, false, [Failure]));
    Then(BOTH_FAIL, AddFailure(0), s1);
    var s2 := With(BOTH_FAIL, Counted(1, 1), Counted(2, 2), [], Breaker(2, false, [Failure, Failure]));
    Then(s1, AddFailure(1), s2);
    Then(s2, TryOpen(0), With(BOTH_FAIL, Won, Counted(2, 2), [], Breaker(2, true, ONCE)));
  }

  /** Its cooldown passes. */
  lemma CooldownPasses()
    ensures Reached(TWO, With(BOTH_FAIL, Waiting, Counted(2, 2), [Cooldown.Closed], Breaker(0, false, ONCE + [Reset(true)])))
  {
    hide Reached;
    FirstOpens();
    var s := With(BOTH_FAIL, Won, Counted(2, 2), [], Breaker(2, true, ONCE));
    var s1 := With(BOTH_FAIL, Waiting, Counted(2, 2), [Cooling], Breaker(2, true, ONCE));
    Then(s, Spawn(0), s1);
    var s2 := With(BOTH_FAIL, Waiting, Counted(2, 2), [Fired], Breaker(2, true, ONCE));
    Then(s1, Fire(0), s2);
    var s3 := With(BOTH_FAIL, Waiting, Counted(2, 2), [Zeroed], Breaker(0, true, ONCE + [Reset(true)]));
    Then(s2, ZeroFailures(0), s3);
    Then(s3, Step.Close(0), With(BOTH_FAIL, Waiting, Counted(2, 2), [Cooldown.Closed], Breaker(0, false, ONCE + [Reset(true)])));
  }

  /** The other, which counted long ago, opens the breaker again: with a threshold of one, two
      openings with no failure between them. */
  lemma OpeningsCanTouch() returns (s: State)
    ensures Reached(TWO, s) && s.breaker.log == TWICE
    ensures Count(s.breaker.log[2..4], IsFailure()) < TWO.threshold
  {
    hide Reached, Count;
    CooldownPasses();
    s := With(BOTH_FAIL, Waiting, Won, [Cooldown.Closed], Breaker(0, true, TWICE));
    Then(With(BOTH_FAIL, Waiting, Counted(2, 2), [Cooldown.Closed], Breaker(0, false, ONCE + [Reset(true)])), TryOpen(1), s);
    CountNone([Opening(1, 1), Reset(true)], IsFailure());
    assert s.breaker.log[2..4] == [Opening(1, 1), Reset(true)];
  }
}
