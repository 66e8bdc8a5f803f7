/** The failure counter and the openings of the breaker against the history of failures. */
module AuditPublisherBreaker {
  import opened Counting
  import opened AuditPublisher
  import opened AuditPublisherSafety

  /** Failures since the last successful push or cooldown. */
  function SinceReset(log: seq<Event>): nat {
    if log == [] then 0
    else
      var n := |log| - 1;
      match log[n]
      case Failure => SinceReset(log[..n]) + 1
      case Reset(_) => 0
      case Opening(_, _) => SinceReset(log[..n])
  }

  /** Failures since the last opening, or since the start. */
  function SinceOpening(log: seq<Event>): nat {
    if log == [] then 0
    else
      var n := |log| - 1;
      match log[n]
      case Failure => SinceOpening(log[..n]) + 1
      case Reset(_) => SinceOpening(log[..n])
      case Opening(_, _) => 0
  }

  lemma OneMoreEvent(log: seq<Event>, e: Event)
    ensures SinceReset(log + [e]) ==
              (match e case Failure => SinceReset(log) + 1 case Reset(_) => 0 case Opening(_, _) => SinceReset(log))
    ensures SinceOpening(log + [e]) ==
              (match e case Failure => SinceOpening(log) + 1 case Reset(_) => SinceOpening(log) case Opening(_, _) => 0)
  {
    assert (log + [e])[..|log|] == log;
  }

  /** The increment that made the log `at` long returned `n`, the failures since the last reset. */
  ghost predicate IncrementFits(log: seq<Event>, n: nat, at: nat) {
    0 < at <= |log| && log[at - 1].Failure? && SinceReset(log[..at]) == n
  }

  lemma IncrementStays(log: seq<Event>, e: Event, n: nat, at: nat)
    requires IncrementFits(log, n, at)
    ensures IncrementFits(log + [e], n, at)
  {
    assert (log + [e])[..at] == log[..at];
  }

  ghost predicate CountedFit(b: Breaker, ws: seq<Worker>) {
    forall w | 0 <= w < |ws| && ws[w].Counted? :: IncrementFits(b.log, ws[w].n, ws[w].at)
  }

  /** Every opening was made by a worker whose own, earlier increment returned the threshold. */
  ghost predicate OpeningFits(log: seq<Event>, i: nat, threshold: nat)
    requires i < |log|
  {
    log[i].Opening? ==> log[i].n >= threshold && log[i].at <= i && IncrementFits(log, log[i].n, log[i].at)
  }

  ghost predicate LogFits(cfg: Config, b: Breaker) {
    && b.failures == SinceReset(b.log)
    && forall i | 0 <= i < |b.log| :: OpeningFits(b.log, i, cfg.threshold)
  }

  ghost predicate HistoryFits(cfg: Config, s: State) {
    LogFits(cfg, s.breaker) && CountedFit(s.breaker, s.workers)
  }

  /** One more event, which is an opening only by a worker that has counted enough. */
  lemma LogGrows(cfg: Config, b: Breaker, b': Breaker, e: Event)
    requires LogFits(cfg, b) && b'.log == b.log + [e]
    requires b'.failures == match e case Failure => b.failures + 1 case Reset(_) => 0 case Opening(_, _) => b.failures
    requires e.Opening? ==> e.n >= cfg.threshold && IncrementFits(b.log, e.n, e.at)
    ensures LogFits(cfg, b')
  {
    hide SinceReset, IncrementFits;
    OneMoreEvent(b.log, e);
    forall i | 0 <= i < |b'.log| ensures OpeningFits(b'.log, i, cfg.threshold) {
      if i < |b.log| {
        assert OpeningFits(b.log, i, cfg.threshold);
        if b.log[i].Opening? { IncrementStays(b.log, e, b.log[i].n, b.log[i].at); }
      } else if e.Opening? {
        IncrementBound(b.log, e.n, e.at);
        IncrementStays(b.log, e, e.n, e.at);
      }
    }
  }

  lemma IncrementBound(log: seq<Event>, n: nat, at: nat)
    ensures IncrementFits(log, n, at) ==> at <= |log|
  {
  }

  lemma CountedGrows(b: Breaker, b': Breaker, ws: seq<Worker>, e: Event)
    requires CountedFit(b, ws) && b'.log == b.log + [e]
    ensures CountedFit(b', ws)
  {
    hide IncrementFits;
    forall w | 0 <= w < |ws| && ws[w].Counted? ensures IncrementFits(b'.log, ws[w].n, ws[w].at) {
      IncrementStays(b.log, e, ws[w].n, ws[w].at);
    }
  }

  /** A worker moves on; if it has counted, then its count fits. */
  lemma CountedMoves(b: Breaker, ws: seq<Worker>, w: nat, x: Worker)
    requires CountedFit(b, ws) && w < |ws| && (x.Counted? ==> IncrementFits(b.log, x.n, x.at))
    ensures CountedFit(b, ws[w := x])
  {
    hide IncrementFits;
  }

  lemma HistoryZero(cfg: Config, s: State, cooldown: bool)
    requires HistoryFits(cfg, s)
    ensures HistoryFits(cfg, s.(breaker := ZeroCounter(s.breaker, cooldown)))
  {
    hide LogFits, CountedFit;
    LogGrows(cfg, s.breaker, ZeroCounter(s.breaker, cooldown), Reset(cooldown));
    CountedGrows(s.breaker, ZeroCounter(s.breaker, cooldown), s.workers, Reset(cooldown));
  }

  lemma HistoryAdd(cfg: Config, s: State, w: nat)
    requires HistoryFits(cfg, s) && w < |s.workers|
    ensures var counted := Counted(s.breaker.failures + 1, |s.breaker.log| + 1);
            HistoryFits(cfg, SetWorker(s, w, counted).(breaker := CountFailure(s.breaker)))
  {
    hide CountedFit, OpeningFits;
    var b := s.breaker;
    LogGrows(cfg, b, CountFailure(b), Failure);
    CountedGrows(b, CountFailure(b), s.workers, Failure);
    OneMoreEvent(b.log, Failure);
    assert (b.log + [Failure])[..|b.log| + 1] == b.log + [Failure];
    CountedMoves(CountFailure(b), s.workers, w, Counted(b.failures + 1, |b.log| + 1));
  }

  lemma HistoryOpened(cfg: Config, s: State, w: nat)
    requires HistoryFits(cfg, s) && w < |s.workers| && s.workers[w].Counted?
    ensures HistoryFits(cfg, Opened(cfg, s, w, s.workers[w].n, s.workers[w].at))
  {
    hide LogFits, IncrementFits;
    var b, x := s.breaker, s.workers[w];
    if x.n >= cfg.threshold && !b.open {
      var b' := b.(open := true, log := b.log + [Opening(x.n, x.at)]);
      LogGrows(cfg, b, b', Opening(x.n, x.at));
      CountedGrows(b, b', s.workers, Opening(x.n, x.at));
      CountedMoves(b', s.workers, w, Won);
    } else {
      CountedMoves(b, s.workers, w, Waiting);
      assert LogFits(cfg, b);
    }
  }

  lemma HistoryMoves(cfg: Config, s: State, s': State)
    requires HistoryFits(cfg, s)
    requires s'.breaker.log == s.breaker.log && s'.breaker.failures == s.breaker.failures
    requires forall w | 0 <= w < |s'.workers| && s'.workers[w].Counted? :: w < |s.workers| && s'.workers[w] == s.workers[w]
    ensures HistoryFits(cfg, s')
  {
    hide IncrementFits, OpeningFits, SinceReset;
  }

  lemma HistoryBreaking(cfg: Config, s: State, t: Step, atomic: bool)
    requires HistoryFits(cfg, s) && Next(cfg, s, t, atomic).Some? && IsBreaking(t)
    ensures HistoryFits(cfg, Next(cfg, s, t, atomic).value)
  {
    hide HistoryFits, Opened, ZeroCounter, CountFailure;
    var b := s.breaker;
    match t
    case StoreZero(w) =>
      HistoryZero(cfg, s, false);
      HistoryMoves(cfg, s.(breaker := ZeroCounter(b, false)), SetWorker(s, w, Waiting).(breaker := ZeroCounter(b, false)));
    case AddFailure(w) =>
      HistoryAdd(cfg, s, w);
      if atomic {
        HistoryOpened(cfg, SetWorker(s, w, Counted(b.failures + 1, |b.log| + 1)).(breaker := CountFailure(b)), w);
      }
    case TryOpen(w) =>
      HistoryOpened(cfg, s, w);
    case Spawn(w) =>
      HistoryMoves(cfg, s, Next(cfg, s, t, atomic).value);
  }

  lemma HistoryWorkers(cfg: Config, s: State, t: Step, atomic: bool)
    requires HistoryFits(cfg, s) && Next(cfg, s, t, atomic).Some? && (IsReceiving(t) || IsHandling(t))
    ensures HistoryFits(cfg, Next(cfg, s, t, atomic).value)
  {
    hide HistoryFits;
    HistoryMoves(cfg, s, Next(cfg, s, t, atomic).value);
  }

  lemma HistoryCooling(cfg: Config, s: State, t: Step, atomic: bool)
    requires HistoryFits(cfg, s) && Next(cfg, s, t, atomic).Some? && IsCooling(t)
    ensures HistoryFits(cfg, Next(cfg, s, t, atomic).value)
  {
    hide HistoryFits, ZeroCounter;
    if t.ZeroFailures? {
      HistoryZero(cfg, s, true);
      HistoryMoves(cfg, s.(breaker := ZeroCounter(s.breaker, true)), Next(cfg, s, t, atomic).value);
    } else {
      HistoryMoves(cfg, s, Next(cfg, s, t, atomic).value);
    }
  }

  lemma HistoryStep(cfg: Config, s: State, t: Step, atomic: bool)
    requires HistoryFits(cfg, s) && Next(cfg, s, t, atomic).Some?
    ensures HistoryFits(cfg, Next(cfg, s, t, atomic).value)
  {
    if IsReceiving(t) || IsHandling(t) {
      hide *;
      HistoryWorkers(cfg, s, t, atomic);
    } else if IsBreaking(t) {
      hide *;
      HistoryBreaking(cfg, s, t, atomic);
    } else if IsCooling(t) {
      hide *;
      HistoryCooling(cfg, s, t, atomic);
    } else {
      hide HistoryFits;
      HistoryMoves(cfg, s, Next(cfg, s, t, atomic).value);
    }
  }

  // ---------- openings lie apart, when recordFailure is one step ----------

  ghost predicate Spaced(log: seq<Event>, threshold: nat) {
    forall i | 0 <= i < |log| && log[i].Opening? :: SinceOpening(log[..i]) >= threshold
  }

  lemma SpacedGrows(log: seq<Event>, e: Event, threshold: nat)
    requires Spaced(log, threshold) && (e.Opening? ==> SinceOpening(log) >= threshold)
    ensures Spaced(log + [e], threshold)
  {
    forall i | 0 <= i < |log + [e]| && (log + [e])[i].Opening? ensures SinceOpening((log + [e])[..i]) >= threshold {
      assert (log + [e])[..i] == log[..i];
      assert log[..|log|] == log;
    }
  }

  /** The breaker is about to let failures open it: it is closed, or its counter has been zeroed. */
  predicate Rearmed(s: State) {
    !s.breaker.open || exists c | 0 <= c < |s.cooldowns| :: s.cooldowns[c].Zeroed?
  }

  ghost predicate SpacingFits(cfg: Config, s: State) {
    && Spaced(s.breaker.log, cfg.threshold)
    && (Rearmed(s) ==> s.breaker.failures <= SinceOpening(s.breaker.log))
    && (forall w | 0 <= w < |s.workers| :: !s.workers[w].Counted?)
  }

  /** While the breaker is closed, no cooldown is under way. */
  lemma NoneZeroed(s: State)
    requires TokenFits(s) && !s.breaker.open
    ensures forall c | 0 <= c < |s.cooldowns| :: !s.cooldowns[c].Zeroed?
  {
    CountNone(s.cooldowns, Pending());
    forall c | 0 <= c < |s.cooldowns| ensures !s.cooldowns[c].Zeroed? {
      assert !Pending()(s.cooldowns[c]);
    }
  }

  lemma SpacingAdd(cfg: Config, s: State, w: nat)
    requires SpacingFits(cfg, s) && TokenFits(s) && Next(cfg, s, AddFailure(w), true).Some?
    ensures SpacingFits(cfg, Next(cfg, s, AddFailure(w), true).value)
  {
    hide Spaced, TokenFits, SinceOpening;
    var b := s.breaker;
    SpacedGrows(b.log, Failure, cfg.threshold);
    OneMoreEvent(b.log, Failure);
    if b.failures + 1 >= cfg.threshold && !b.open {
      var e := Opening(b.failures + 1, |b.log| + 1);
      NoneZeroed(s);
      SpacedGrows(b.log + [Failure], e, cfg.threshold);
    }
  }

  lemma SpacingZero(cfg: Config, s: State, t: Step)
    requires SpacingFits(cfg, s) && Next(cfg, s, t, true).Some? && (t.StoreZero? || t.ZeroFailures?)
    ensures SpacingFits(cfg, Next(cfg, s, t, true).value)
  {
    hide Spaced, SinceOpening;
    SpacedGrows(s.breaker.log, Reset(t.ZeroFailures?), cfg.threshold);
    OneMoreEvent(s.breaker.log, Reset(t.ZeroFailures?));
  }

  lemma SpacingMoves(cfg: Config, s: State, s': State)
    requires SpacingFits(cfg, s) && s'.breaker.log == s.breaker.log && s'.breaker.failures == s.breaker.failures
    requires Rearmed(s') ==> Rearmed(s)
    requires forall w | 0 <= w < |s'.workers| && s'.workers[w].Counted? :: w < |s.workers| && s'.workers[w] == s.workers[w]
    ensures SpacingFits(cfg, s')
  {
    hide Spaced, SinceOpening, Rearmed;
  }

  lemma SpacingWorkers(cfg: Config, s: State, t: Step)
    requires SpacingFits(cfg, s) && Next(cfg, s, t, true).Some? && (IsReceiving(t) || IsHandling(t))
    ensures SpacingFits(cfg, Next(cfg, s, t, true).value)
  {
    hide SpacingFits;
    SpacingMoves(cfg, s, Next(cfg, s, t, true).value);
  }

  lemma SpacingBreaking(cfg: Config, s: State, t: Step)
    requires SpacingFits(cfg, s) && TokenFits(s) && Next(cfg, s, t, true).Some? && IsBreaking(t)
    ensures SpacingFits(cfg, Next(cfg, s, t, true).value)
  {
    match t
    case StoreZero(_) => SpacingZero(cfg, s, t);
    case AddFailure(w) => SpacingAdd(cfg, s, w);
    case TryOpen(w) => assert false;
    case Spawn(w) =>
      hide SpacingFits, TokenFits;
      var s' := Next(cfg, s, t, true).value;
      assert forall c | 0 <= c < |s'.cooldowns| && s'.cooldowns[c].Zeroed? :: s.cooldowns[c].Zeroed?;
      SpacingMoves(cfg, s, s');
  }

  lemma SpacingCooling(cfg: Config, s: State, t: Step)
    requires SpacingFits(cfg, s) && TokenFits(s) && Next(cfg, s, t, true).Some? && IsCooling(t)
    ensures SpacingFits(cfg, Next(cfg, s, t, true).value)
  {
    if t.ZeroFailures? {
      SpacingZero(cfg, s, t);
    } else {
      hide SpacingFits, TokenFits;
      var s' := Next(cfg, s, t, true).value;
      assert forall c | 0 <= c < |s'.cooldowns| && s'.cooldowns[c].Zeroed? :: s.cooldowns[c].Zeroed?;
      SpacingMoves(cfg, s, s');
    }
  }

  lemma SpacingStep(cfg: Config, s: State, t: Step)
    requires SpacingFits(cfg, s) && TokenFits(s) && Next(cfg, s, t, true).Some?
    ensures SpacingFits(cfg, Next(cfg, s, t, true).value)
  {
    if IsReceiving(t) || IsHandling(t) {
      hide *;
      SpacingWorkers(cfg, s, t);
    } else if IsBreaking(t) {
      hide *;
      SpacingBreaking(cfg, s, t);
    } else if IsCooling(t) {
      hide *;
      SpacingCooling(cfg, s, t);
    } else {
      hide SpacingFits, TokenFits;
      SpacingMoves(cfg, s, Next(cfg, s, t, true).value);
    }
  }
}
