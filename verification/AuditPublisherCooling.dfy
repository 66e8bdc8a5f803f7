/**
 How far openings of the breaker lie apart with the two atomic operations that recordFailure
 really has: a cooldown lies between any two, and they can be close only when the second opener
 had counted its failure before that cooldown zeroed the counter.
 */
module AuditPublisherCooling {
  import opened Wrappers
  import opened Runs
  import opened Counting
  import opened AuditPublisher
  import opened AuditPublisherSafety
  import opened AuditPublisherBreaker
  import opened AuditPublisherRuns
  import opened AuditPublisherCases

  // ---------- a cooldown lies between two openings ----------

  /** A cooldown has zeroed the counter since the last opening, or there was none. */
  predicate CooledSince(log: seq<Event>) {
    log == [] ||
    var n := |log| - 1;
    match log[n]
    case Opening(_, _) => false
    case Reset(cooldown) => cooldown || CooledSince(log[..n])
    case Failure => CooledSince(log[..n])
  }

  lemma CooledOneMore(log: seq<Event>, e: Event)
    ensures CooledSince(log + [e]) ==
              match e
              case Opening(_, _) => false
              case Reset(cooldown) => cooldown || CooledSince(log)
              case Failure => CooledSince(log)
  {
    assert (log + [e])[..|log|] == log;
  }

  ghost predicate CooledLog(log: seq<Event>) {
    forall i | 0 <= i < |log| && log[i].Opening? :: CooledSince(log[..i])
  }

  lemma CooledLogGrows(log: seq<Event>, e: Event)
    requires CooledLog(log) && (e.Opening? ==> CooledSince(log))
    ensures CooledLog(log + [e])
  {
    forall i | 0 <= i < |log + [e]| && (log + [e])[i].Opening? ensures CooledSince((log + [e])[..i]) {
      assert (log + [e])[..i] == log[..i];
      assert log[..|log|] == log;
    }
  }

  ghost predicate CoolingFits(s: State) {
    CooledLog(s.breaker.log) && (Rearmed(s) ==> CooledSince(s.breaker.log))
  }

  lemma CoolingMoves(s: State, s': State)
    requires CoolingFits(s) && s'.breaker.log == s.breaker.log && (Rearmed(s') ==> Rearmed(s))
    ensures CoolingFits(s')
  {
    hide CooledLog, CooledSince, Rearmed;
  }

  lemma CoolingOpened(cfg: Config, s: State, w: nat, n: nat, at: nat)
    requires CoolingFits(s) && TokenFits(s) && w < |s.workers|
    ensures CoolingFits(Opened(cfg, s, w, n, at))
  {
    hide CooledLog, CooledSince, TokenFits;
    if n >= cfg.threshold && !s.breaker.open {
      NoneZeroed(s);
      CooledLogGrows(s.breaker.log, Opening(n, at));
    }
  }

  /** The add by itself. */
  lemma CoolingAdd(cfg: Config, s: State, w: nat, x: Worker)
    requires CoolingFits(s) && w < |s.workers|
    ensures CoolingFits(SetWorker(s, w, x).(breaker := CountFailure(s.breaker)))
  {
    hide CooledLog, CooledSince;
    CooledLogGrows(s.breaker.log, Failure);
    CooledOneMore(s.breaker.log, Failure);
  }

  lemma CoolingZero(cfg: Config, s: State, t: Step, atomic: bool)
    requires CoolingFits(s) && Next(cfg, s, t, atomic).Some? && (t.StoreZero? || t.ZeroFailures?)
    ensures CoolingFits(Next(cfg, s, t, atomic).value)
  {
    hide CooledLog, CooledSince;
    CooledLogGrows(s.breaker.log, Reset(t.ZeroFailures?));
    CooledOneMore(s.breaker.log, Reset(t.ZeroFailures?));
  }

  lemma TokenOfAdd(s: State, w: nat, x: Worker)
    requires TokenFits(s) && w < |s.workers| && !s.workers[w].Won? && !x.Won?
    ensures TokenFits(SetWorker(s, w, x).(breaker := CountFailure(s.breaker)))
  {
    hide Count;
    CountUpdate(s.workers, w, x, HasWon());
  }

  lemma CoolingBreaking(cfg: Config, s: State, t: Step, atomic: bool)
    requires CoolingFits(s) && TokenFits(s) && Next(cfg, s, t, atomic).Some? && IsBreaking(t)
    ensures CoolingFits(Next(cfg, s, t, atomic).value)
  {
    hide CoolingFits, TokenFits, Opened, CountFailure;
    match t
    case StoreZero(_) => CoolingZero(cfg, s, t, atomic);
    case AddFailure(w) =>
      var counted := Counted(s.breaker.failures + 1, |s.breaker.log| + 1);
      CoolingAdd(cfg, s, w, counted);
      TokenOfAdd(s, w, counted);
      if atomic {
        CoolingOpened(cfg, SetWorker(s, w, counted).(breaker := CountFailure(s.breaker)), w, counted.n, counted.at);
      }
    case TryOpen(w) => CoolingOpened(cfg, s, w, s.workers[w].n, s.workers[w].at);
    case Spawn(w) =>
      var s' := Next(cfg, s, t, atomic).value;
      assert forall c | 0 <= c < |s'.cooldowns| && s'.cooldowns[c].Zeroed? :: s.cooldowns[c].Zeroed?;
      CoolingMoves(s, s');
  }

  lemma CoolingCooling(cfg: Config, s: State, t: Step, atomic: bool)
    requires CoolingFits(s) && Next(cfg, s, t, atomic).Some? && IsCooling(t)
    ensures CoolingFits(Next(cfg, s, t, atomic).value)
  {
    if t.ZeroFailures? {
      CoolingZero(cfg, s, t, atomic);
    } else {
      hide CoolingFits;
      var s' := Next(cfg, s, t, atomic).value;
      assert forall c | 0 <= c < |s'.cooldowns| && s'.cooldowns[c].Zeroed? :: s.cooldowns[c].Zeroed?;
      CoolingMoves(s, s');
    }
  }

  lemma CoolingWorkers(cfg: Config, s: State, t: Step, atomic: bool)
    requires CoolingFits(s) && Next(cfg, s, t, atomic).Some? && (IsReceiving(t) || IsHandling(t))
    ensures CoolingFits(Next(cfg, s, t, atomic).value)
  {
    hide CoolingFits;
    CoolingMoves(s, Next(cfg, s, t, atomic).value);
  }

  lemma CoolingStep(cfg: Config, s: State, t: Step, atomic: bool)
    requires CoolingFits(s) && TokenFits(s) && Next(cfg, s, t, atomic).Some?
    ensures CoolingFits(Next(cfg, s, t, atomic).value)
  {
    if IsReceiving(t) || IsHandling(t) {
      hide *;
      CoolingWorkers(cfg, s, t, atomic);
    } else if IsBreaking(t) {
      hide *;
      CoolingBreaking(cfg, s, t, atomic);
    } else if IsCooling(t) {
      hide *;
      CoolingCooling(cfg, s, t, atomic);
    } else {
      hide CoolingFits, TokenFits;
      CoolingMoves(s, Next(cfg, s, t, atomic).value);
    }
  }

  lemma CoolingOfRun(cfg: Config, steps: seq<Step>, s: State, atomic: bool)
    requires Reaches(cfg, steps, s, atomic)
    ensures CoolingFits(s)
  {
    hide CoolingFits, TokenFits, Next, Run;
    TokenInitially();
    assert CoolingFits(INITIAL) by { CoolingInitially(); }
    forall m, t | TokenFits(m) && CoolingFits(m) && NextBy(cfg, atomic)(m, t).Some?
      ensures TokenFits(NextBy(cfg, atomic)(m, t).value) && CoolingFits(NextBy(cfg, atomic)(m, t).value)
    {
      TokenStep(cfg, m, t, atomic);
      CoolingStep(cfg, m, t, atomic);
    }
    InvariantHolds(NextBy(cfg, atomic), m => TokenFits(m) && CoolingFits(m), INITIAL, steps);
  }

  lemma CoolingInitially()
    ensures CoolingFits(INITIAL)
  {
  }

  lemma {:induction false} FindCooldown(log: seq<Event>, i: nat) returns (r: nat)
    requires i < |log| && log[i].Opening? && CooledSince(log)
    ensures i < r < |log| && log[r] == Reset(true)
  {
    r := |log| - 1;
    if log[r] != Reset(true) {
      r := FindCooldown(log[..r], i);
    }
  }

  /** Between any two openings a cooldown has zeroed the counter. */
  lemma CooldownBetweenOpenings(cfg: Config, steps: seq<Step>, s: State, atomic: bool, i: nat, j: nat) returns (r: nat)
    requires Reaches(cfg, steps, s, atomic) && i < j < |s.breaker.log|
    requires s.breaker.log[i].Opening? && s.breaker.log[j].Opening?
    ensures i < r < j && s.breaker.log[r] == Reset(true)
  {
    hide Reaches, CooledSince;
    CoolingOfRun(cfg, steps, s, atomic);
    r := FindCooldown(s.breaker.log[..j], i);
  }

  // ---------- how many failures lie between ----------

  /** The failures since the last reset are among those since any earlier one. */
  lemma {:induction false} SinceResetIsLess(log: seq<Event>, r: nat)
    requires r < |log| && log[r].Reset?
    ensures SinceReset(log) <= Count(log[r..], IsFailure())
  {
    var n := |log| - 1;
    if r < n {
      SinceResetIsLess(log[..n], r);
      assert log[..n][r..] == log[r..][..n - r];
      assert log[r..][n - r] == log[n];
    }
  }

  lemma CountWithin(log: seq<Event>, i: nat, r: nat, a: nat, j: nat, p: Event -> bool)
    requires i <= r <= a <= j <= |log|
    ensures Count(log[r..a], p) <= Count(log[i..j], p)
  {
    CountAppend(log[i..r], log[r..a], p);
    CountAppend(log[i..a], log[a..j], p);
    assert log[i..r] + log[r..a] == log[i..a] && log[i..a] + log[a..j] == log[i..j];
  }

  /** A reset before the second opener's own increment makes a full count lie between. */
  lemma FreshOpeningsLieApart(cfg: Config, steps: seq<Step>, s: State, i: nat, r: nat, j: nat)
    requires Reaches(cfg, steps, s, false) && i < r < j < |s.breaker.log|
    requires s.breaker.log[i].Opening? && s.breaker.log[r].Reset? && s.breaker.log[j].Opening?
    requires r < s.breaker.log[j].at
    ensures Count(s.breaker.log[i..j], IsFailure()) >= cfg.threshold
  {
    hide Reaches, Count, SinceReset;
    var log, at := s.breaker.log, s.breaker.log[j].at;
    OpeningsAreEarned(cfg, steps, s, false);
    SinceResetIsLess(log[..at], r);
    assert log[..at][r..] == log[r..at];
    CountWithin(log, i, r, at, j, IsFailure());
  }

  /** So two openings lie too close only when the second opener's own increment came before the
      cooldown between them, indeed before every reset between them. */
  lemma CloseOpeningsAreStale(cfg: Config, steps: seq<Step>, s: State, i: nat, j: nat) returns (r: nat)
    requires Reaches(cfg, steps, s, false) && i < j < |s.breaker.log|
    requires s.breaker.log[i].Opening? && s.breaker.log[j].Opening?
    requires Count(s.breaker.log[i..j], IsFailure()) < cfg.threshold
    ensures i < r < j && s.breaker.log[r] == Reset(true)
    ensures forall q | i < q < j && s.breaker.log[q].Reset? :: s.breaker.log[j].at <= q
  {
    hide Reaches, Count;
    r := CooldownBetweenOpenings(cfg, steps, s, false, i, j);
    forall q | i < q < j && s.breaker.log[q].Reset? ensures s.breaker.log[j].at <= q {
      if q < s.breaker.log[j].at {
        FreshOpeningsLieApart(cfg, steps, s, i, q, j);
      }
    }
  }

  // ---------- such an opener always has its chance ----------

  /** The log has got an opening since it was `log`. */
  ghost predicate OpenedSince(log: seq<Event>, log': seq<Event>) {
    log <= log' && exists i | |log| <= i < |log'| :: log'[i].Opening?
  }

  /** The breaker can be opened again without a further failure. */
  ghost predicate CanReopen(cfg: Config, s: State) {
    exists s' :: LeadsTo(cfg, s, s') && OpenedSince(s.breaker.log, s'.breaker.log)
  }

  lemma CountedReopens(cfg: Config, steps: seq<Step>, s: State, w: nat)
    requires Reaches(cfg, steps, s, false) && s.breaker.open && !s.ending.done && !s.ending.crashed && HasCounted(cfg, s, w)
    ensures CanReopen(cfg, s)
  {
    hide Reaches, LeadsTo;
    var m := OpenBreakerCanClose(cfg, steps, s);
    OneStep(cfg, s, m, TryOpen(w));
    var s' := Next(cfg, m, TryOpen(w), false).value;
    assert s'.breaker.log[|m.breaker.log|].Opening?;
  }

  /** Nobody has counted enough, and the breaker has not been opened since its log was `log`. */
  ghost predicate NoneCounted(cfg: Config, log: seq<Event>, s: State) {
    && (forall w | 0 <= w < |s.workers| && s.workers[w].Counted? :: s.workers[w].n < cfg.threshold)
    && log <= s.breaker.log && forall i | |log| <= i < |s.breaker.log| :: !s.breaker.log[i].Opening?
  }

  lemma NoneCountedStep(cfg: Config, log: seq<Event>, s: State, t: Step)
    requires NoneCounted(cfg, log, s) && NextNoFailure(cfg)(s, t).Some?
    ensures NoneCounted(cfg, log, NextNoFailure(cfg)(s, t).value)
  {
    if IsReceiving(t) {
    } else if IsHandling(t) {
    } else if IsBreaking(t) {
    }
  }

  lemma NoneCountedStays(cfg: Config, s: State, s': State)
    requires NoneCounted(cfg, s.breaker.log, s) && LeadsTo(cfg, s, s')
    ensures !OpenedSince(s.breaker.log, s'.breaker.log)
  {
    hide Next, Run;
    var log := s.breaker.log;
    var steps :| Run(NextNoFailure(cfg), s, steps) == Some(s');
    assert NoneCounted(cfg, log, s') by {
      hide NoneCounted;
      forall m, t | NoneCounted(cfg, log, m) && NextNoFailure(cfg)(m, t).Some?
        ensures NoneCounted(cfg, log, NextNoFailure(cfg)(m, t).value)
      {
        NoneCountedStep(cfg, log, m, t);
      }
      InvariantHolds(NextNoFailure(cfg), m => NoneCounted(cfg, log, m), s, steps);
    }
  }

  /** In every reachable state with an open breaker before Stop, the breaker can be opened again
      without a further failure exactly when some worker has already counted up to the threshold
      and has not yet tried. */
  lemma CanReopenIffCounted(cfg: Config, steps: seq<Step>, s: State)
    requires Reaches(cfg, steps, s, false) && s.breaker.open && !s.ending.done && !s.ending.crashed
    ensures CanReopen(cfg, s) <==> exists w | 0 <= w < |s.workers| :: HasCounted(cfg, s, w)
  {
    hide Reaches, LeadsTo, OpenedSince;
    if w: nat :| w < |s.workers| && HasCounted(cfg, s, w) {
      CountedReopens(cfg, steps, s, w);
    } else {
      assert forall w | 0 <= w < |s.workers| && s.workers[w].Counted? :: !HasCounted(cfg, s, w);
      forall s' | LeadsTo(cfg, s, s') ensures !OpenedSince(s.breaker.log, s'.breaker.log) {
        NoneCountedStays(cfg, s, s');
      }
    }
  }
}
