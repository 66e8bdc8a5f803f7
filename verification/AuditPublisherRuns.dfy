/** What holds of every run of the publisher, whatever the interleaving. */
module AuditPublisherRuns {
  import opened Wrappers
  import opened Runs
  import opened Counting
  import opened AuditPublisher
  import opened AuditPublisherSafety
  import opened AuditPublisherOrder
  import opened AuditPublisherBreaker

  /** A run of the publisher reaches `s`. */
  ghost predicate Reaches(cfg: Config, steps: seq<Step>, s: State, atomic: bool) {
    Run(NextBy(cfg, atomic), INITIAL, steps) == Some(s)
  }

  lemma ConservedOfRun(cfg: Config, steps: seq<Step>, s: State, atomic: bool)
    requires Reaches(cfg, steps, s, atomic)
    ensures Conserved(cfg, s)
  {
    hide Conserved, Next, Run;
    assert Conserved(cfg, INITIAL) by { CountNone(INITIAL.workers, InHand); ConservedInitially(cfg); }
    forall m, t | Conserved(cfg, m) && NextBy(cfg, atomic)(m, t).Some? ensures Conserved(cfg, NextBy(cfg, atomic)(m, t).value) {
      ConservedStep(cfg, m, t, atomic);
    }
    InvariantHolds(NextBy(cfg, atomic), m => Conserved(cfg, m), INITIAL, steps);
  }

  lemma ConservedInitially(cfg: Config)
    ensures Conserved(cfg, INITIAL)
  {
  }

  lemma TokenOfRun(cfg: Config, steps: seq<Step>, s: State, atomic: bool)
    requires Reaches(cfg, steps, s, atomic)
    ensures TokenFits(s)
  {
    hide TokenFits, Next, Run;
    TokenInitially();
    forall m, t | TokenFits(m) && NextBy(cfg, atomic)(m, t).Some? ensures TokenFits(NextBy(cfg, atomic)(m, t).value) {
      TokenStep(cfg, m, t, atomic);
    }
    InvariantHolds(NextBy(cfg, atomic), m => TokenFits(m), INITIAL, steps);
  }

  lemma TokenInitially()
    ensures TokenFits(INITIAL)
  {
  }

  lemma ExitsOfRun(cfg: Config, steps: seq<Step>, s: State, atomic: bool)
    requires Reaches(cfg, steps, s, atomic)
    ensures ExitsFit(s)
  {
    hide ExitsFit, Next, Run;
    assert ExitsFit(INITIAL) by { ExitsInitially(); }
    forall m, t | ExitsFit(m) && NextBy(cfg, atomic)(m, t).Some? ensures ExitsFit(NextBy(cfg, atomic)(m, t).value) {
      ExitsStep(cfg, m, t, atomic);
    }
    InvariantHolds(NextBy(cfg, atomic), m => ExitsFit(m), INITIAL, steps);
  }

  lemma ExitsInitially()
    ensures ExitsFit(INITIAL)
  {
  }

  lemma MessagesOfRun(cfg: Config, steps: seq<Step>, s: State, atomic: bool)
    requires Reaches(cfg, steps, s, atomic)
    ensures MessagesFit(s) && InOrder(s)
  {
    hide MessagesFit, InOrder, Next, Run;
    MessagesInitially();
    forall m, t | MessagesFit(m) && InOrder(m) && NextBy(cfg, atomic)(m, t).Some?
      ensures MessagesFit(NextBy(cfg, atomic)(m, t).value) && InOrder(NextBy(cfg, atomic)(m, t).value)
    {
      MessagesStep(cfg, m, t, atomic);
      OrderStep(cfg, m, t, atomic);
    }
    InvariantHolds(NextBy(cfg, atomic), m => MessagesFit(m) && InOrder(m), INITIAL, steps);
  }

  lemma MessagesInitially()
    ensures MessagesFit(INITIAL) && InOrder(INITIAL)
  {
  }

  lemma HistoryOfRun(cfg: Config, steps: seq<Step>, s: State, atomic: bool)
    requires Reaches(cfg, steps, s, atomic)
    ensures HistoryFits(cfg, s)
  {
    hide HistoryFits, Next, Run;
    assert HistoryFits(cfg, INITIAL) by { HistoryInitially(cfg); }
    forall m, t | HistoryFits(cfg, m) && NextBy(cfg, atomic)(m, t).Some?
      ensures HistoryFits(cfg, NextBy(cfg, atomic)(m, t).value)
    {
      HistoryStep(cfg, m, t, atomic);
    }
    InvariantHolds(NextBy(cfg, atomic), m => HistoryFits(cfg, m), INITIAL, steps);
  }

  lemma HistoryInitially(cfg: Config)
    ensures HistoryFits(cfg, INITIAL)
  {
  }

  lemma SpacingOfRun(cfg: Config, steps: seq<Step>, s: State)
    requires Reaches(cfg, steps, s, true)
    ensures SpacingFits(cfg, s)
  {
    hide SpacingFits, TokenFits, Next, Run;
    TokenInitially();
    assert SpacingFits(cfg, INITIAL) by { SpacingInitially(cfg); }
    forall m, t | TokenFits(m) && SpacingFits(cfg, m) && NextBy(cfg, true)(m, t).Some?
      ensures TokenFits(NextBy(cfg, true)(m, t).value) && SpacingFits(cfg, NextBy(cfg, true)(m, t).value)
    {
      TokenStep(cfg, m, t, true);
      SpacingStep(cfg, m, t);
    }
    InvariantHolds(NextBy(cfg, true), m => TokenFits(m) && SpacingFits(cfg, m), INITIAL, steps);
  }

  lemma SpacingInitially(cfg: Config)
    ensures SpacingFits(cfg, INITIAL)
  {
  }

  // ---------- messages ----------

  /** Every submitted message is somewhere, and in one place. */
  lemma NothingIsLost(cfg: Config, steps: seq<Step>, s: State, atomic: bool)
    requires Reaches(cfg, steps, s, atomic)
    ensures var n := s.tally;
            n.submitted == |s.channel.passed| + n.droppedOpen + n.droppedFull + |s.channel.queue| + InFlight(s)
                           + n.notReady + n.marshalFailed + n.pushFailed + n.pushed
    ensures |s.channel.queue| <= cfg.bufferSize
  {
    hide Reaches;
    ConservedOfRun(cfg, steps, s, atomic);
  }

  /** What reaches PushWithTTL was accepted and is as it was submitted, and comes once. */
  lemma PushedAtMostOnce(cfg: Config, steps: seq<Step>, s: State, atomic: bool)
    requires Reaches(cfg, steps, s, atomic)
    ensures forall i | 0 <= i < |s.channel.handed| ::
              && s.channel.handed[i].id < |s.channel.accepted|
              && s.channel.handed[i].payload == s.channel.accepted[s.channel.handed[i].id]
    ensures forall i, j | 0 <= i < j < |s.channel.handed| :: s.channel.handed[i].id != s.channel.handed[j].id
  {
    hide Reaches, HoldingsFit, QueueFits;
    MessagesOfRun(cfg, steps, s, atomic);
  }

  lemma OneWorkerPushesInOrder(cfg: Config, steps: seq<Step>, s: State, atomic: bool)
    requires Reaches(cfg, steps, s, atomic) && |s.workers| <= 1
    ensures forall i, j | 0 <= i < j < |s.channel.handed| :: s.channel.handed[i].id < s.channel.handed[j].id
  {
    hide Reaches, MessagesFit;
    MessagesOfRun(cfg, steps, s, atomic);
  }

  /** When Stop returns after Start, every accepted message has been dealt with. */
  lemma StopDrains(cfg: Config, steps: seq<Step>, s: State, atomic: bool)
    requires Reaches(cfg, steps, s, atomic) && Next(cfg, s, StopReturn, atomic).Some? && s.workers != []
    ensures s.channel.queue == [] && InFlight(s) == 0
    ensures |s.channel.accepted| == s.tally.notReady + s.tally.marshalFailed + s.tally.pushFailed + s.tally.pushed
  {
    hide Reaches, Count;
    ConservedOfRun(cfg, steps, s, atomic);
    ExitsOfRun(cfg, steps, s, atomic);
    assert s.workers[0].Exited?;
    CountNone(s.workers, InHand);
  }

  // ---------- the breaker ----------

  /** An open breaker is owed to one goroutine, and before Stop that one is there to close it. */
  lemma OneCloserAtMost(cfg: Config, steps: seq<Step>, s: State, atomic: bool)
    requires Reaches(cfg, steps, s, atomic)
    ensures Count(s.workers, HasWon()) + Count(s.cooldowns, Pending()) + Count(s.cooldowns, HasLeft())
            == (if s.breaker.open then 1 else 0)
    ensures Count(s.cooldowns, Pending()) <= 1
    ensures s.breaker.open && !s.ending.done ==> Count(s.workers, HasWon()) + Count(s.cooldowns, Pending()) == 1
  {
    hide Reaches, Count;
    TokenOfRun(cfg, steps, s, atomic);
  }

  /** The counter is the failures since the last success or cooldown, and whoever opens the
      breaker has itself counted up to the threshold. */
  lemma OpeningsAreEarned(cfg: Config, steps: seq<Step>, s: State, atomic: bool)
    requires Reaches(cfg, steps, s, atomic)
    ensures s.breaker.failures == SinceReset(s.breaker.log)
    ensures forall i | 0 <= i < |s.breaker.log| && s.breaker.log[i].Opening? ::
              var e := s.breaker.log[i];
              && 0 < e.at <= i && s.breaker.log[e.at - 1].Failure?
              && cfg.threshold <= e.n == SinceReset(s.breaker.log[..e.at])
  {
    hide Reaches, CountedFit, SinceReset;
    HistoryOfRun(cfg, steps, s, atomic);
    forall i | 0 <= i < |s.breaker.log| && s.breaker.log[i].Opening?
      ensures
        var e := s.breaker.log[i];
        0 < e.at <= i && s.breaker.log[e.at - 1].Failure? && cfg.threshold <= e.n == SinceReset(s.breaker.log[..e.at])
    {
      assert OpeningFits(s.breaker.log, i, cfg.threshold);
    }
  }

  function IsFailure(): Event -> bool { (e: Event) => e.Failure? }

  /** The failures since the last opening are among those since any earlier one. */
  lemma {:induction false} SinceOpeningIsLess(log: seq<Event>, i: nat)
    requires i < |log| && log[i].Opening?
    ensures SinceOpening(log) <= Count(log[i..], IsFailure())
  {
    var n := |log| - 1;
    if i < n {
      SinceOpeningIsLess(log[..n], i);
      assert log[..n][i..] == log[i..][..n - i];
      assert log[i..][n - i] == log[n];
    }
  }

  /** With recordFailure taken as one step, any two openings have a full count of failures
      between them. */
  lemma OpeningsLieApart(cfg: Config, steps: seq<Step>, s: State, i: nat, j: nat)
    requires Reaches(cfg, steps, s, true) && i < j < |s.breaker.log|
    requires s.breaker.log[i].Opening? && s.breaker.log[j].Opening?
    ensures Count(s.breaker.log[i..j], IsFailure()) >= cfg.threshold
  {
    hide Reaches, SinceOpening, Count;
    SpacingOfRun(cfg, steps, s);
    SinceOpeningIsLess(s.breaker.log[..j], i);
    assert s.breaker.log[..j][i..] == s.breaker.log[i..j];
  }
}
