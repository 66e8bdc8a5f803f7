/** What every interleaving of the publisher's steps keeps. */
module AuditPublisherSafety {
  import opened Counting
  import opened AuditPublisher

  predicate IsSubmitting(t: Step) { t.SubmitLoad? || t.SubmitSend? }
  predicate IsReceiving(t: Step) { t.Receive? || t.Exit? }
  predicate IsHandling(t: Step) { t.AskReady? || t.Marshal? || t.Push? }
  predicate IsBreaking(t: Step) { t.StoreZero? || t.AddFailure? || t.TryOpen? || t.Spawn? }
  predicate IsCooling(t: Step) { t.Fire? || t.Leave? || t.ZeroFailures? || t.Close? }
  predicate IsWorkers(t: Step) { IsReceiving(t) || IsHandling(t) || IsBreaking(t) }

  /** `s'` has the workers of `s` with one changed, and their count accordingly. */
  ghost predicate OneWorker(s: State, s': State, w: nat, p: Worker -> bool) {
    && OnlyMoves(s, s', w)
    && Count(s'.workers, p) == Count(s.workers, p) - (if p(s.workers[w]) then 1 else 0) + (if p(s'.workers[w]) then 1 else 0)
  }

  /** A step of worker `w` changes no other worker. */
  predicate OnlyMoves(s: State, s': State, w: nat) {
    w < |s.workers| == |s'.workers| && s'.workers == s.workers[w := s'.workers[w]]
  }

  lemma ReceivingMoves(cfg: Config, s: State, t: Step, atomic: bool)
    requires Next(cfg, s, t, atomic).Some? && IsReceiving(t)
    ensures OnlyMoves(s, Next(cfg, s, t, atomic).value, t.w)
  {
    match t
    case Receive(w) =>
    case Exit(w) =>
  }

  lemma HandlingMoves(cfg: Config, s: State, t: Step, atomic: bool)
    requires Next(cfg, s, t, atomic).Some? && IsHandling(t)
    ensures OnlyMoves(s, Next(cfg, s, t, atomic).value, t.w)
  {
    match t
    case AskReady(w, _) =>
    case Marshal(w, _) =>
    case Push(w, _) =>
  }

  lemma BreakingMoves(cfg: Config, s: State, t: Step, atomic: bool)
    requires Next(cfg, s, t, atomic).Some? && IsBreaking(t)
    ensures OnlyMoves(s, Next(cfg, s, t, atomic).value, t.w)
  {
    match t
    case StoreZero(w) =>
    case AddFailure(w) =>
      var counted := Counted(s.breaker.failures + 1, |s.breaker.log| + 1);
      var s1 := SetWorker(s, w, counted).(breaker := CountFailure(s.breaker));
      if atomic {
        OpenedMoves(cfg, s1, w, counted.n, counted.at);
        assert s.workers[w := counted][w := Next(cfg, s, t, atomic).value.workers[w]]
            == s.workers[w := Next(cfg, s, t, atomic).value.workers[w]];
      }
    case TryOpen(w) => OpenedMoves(cfg, s, w, s.workers[w].n, s.workers[w].at);
    case Spawn(w) =>
  }

  lemma OpenedMoves(cfg: Config, s: State, w: nat, n: nat, at: nat)
    requires w < |s.workers|
    ensures OnlyMoves(s, Opened(cfg, s, w, n, at), w)
  {
  }

  lemma ReceivingWorker(cfg: Config, s: State, t: Step, atomic: bool, p: Worker -> bool)
    requires Next(cfg, s, t, atomic).Some? && IsReceiving(t)
    ensures OneWorker(s, Next(cfg, s, t, atomic).value, t.w, p)
  {
    hide Count, Next;
    ReceivingMoves(cfg, s, t, atomic);
    CountUpdate(s.workers, t.w, Next(cfg, s, t, atomic).value.workers[t.w], p);
  }

  lemma HandlingWorker(cfg: Config, s: State, t: Step, atomic: bool, p: Worker -> bool)
    requires Next(cfg, s, t, atomic).Some? && IsHandling(t)
    ensures OneWorker(s, Next(cfg, s, t, atomic).value, t.w, p)
  {
    hide Count, Next;
    HandlingMoves(cfg, s, t, atomic);
    CountUpdate(s.workers, t.w, Next(cfg, s, t, atomic).value.workers[t.w], p);
  }

  lemma BreakingWorker(cfg: Config, s: State, t: Step, atomic: bool, p: Worker -> bool)
    requires Next(cfg, s, t, atomic).Some? && IsBreaking(t)
    ensures OneWorker(s, Next(cfg, s, t, atomic).value, t.w, p)
  {
    hide Count, Next;
    BreakingMoves(cfg, s, t, atomic);
    CountUpdate(s.workers, t.w, Next(cfg, s, t, atomic).value.workers[t.w], p);
  }

  lemma StartStep(s: State, n: nat, p: Worker -> bool)
    requires !p(Waiting)
    ensures Count(s.workers + seq(n, _ => Waiting), p) == Count(s.workers, p)
  {
    CountAppend(s.workers, seq(n, _ => Waiting), p);
    CountNone(seq(n, _ => Waiting), p);
  }

  // ---------- conservation ----------

  /** A message is in the hands of a worker and not yet accounted for. */
  predicate InHand(x: Worker) { x.Got? || x.Marshalling? || x.Pushing? }

  function InFlight(s: State): nat { Count(s.workers, InHand) }

  ghost predicate Conserved(cfg: Config, s: State) {
    var n, ch := s.tally, s.channel;
    && n.submitted == |ch.passed| + n.droppedOpen + n.droppedFull + |ch.accepted|
    && |ch.accepted| == |ch.queue| + InFlight(s) + n.notReady + n.marshalFailed + n.pushFailed + n.pushed
    && |ch.queue| <= cfg.bufferSize
  }

  lemma ConservedReceiving(cfg: Config, s: State, t: Step, atomic: bool)
    requires Conserved(cfg, s) && Next(cfg, s, t, atomic).Some? && IsReceiving(t)
    ensures Conserved(cfg, Next(cfg, s, t, atomic).value)
  {
    hide Count;
    ReceivingWorker(cfg, s, t, atomic, InHand);
  }

  lemma ConservedHandling(cfg: Config, s: State, t: Step, atomic: bool)
    requires Conserved(cfg, s) && Next(cfg, s, t, atomic).Some? && IsHandling(t)
    ensures Conserved(cfg, Next(cfg, s, t, atomic).value)
  {
    hide Count;
    HandlingWorker(cfg, s, t, atomic, InHand);
  }

  lemma ConservedBreaking(cfg: Config, s: State, t: Step, atomic: bool)
    requires Conserved(cfg, s) && Next(cfg, s, t, atomic).Some? && IsBreaking(t)
    ensures Conserved(cfg, Next(cfg, s, t, atomic).value)
  {
    hide Count;
    BreakingWorker(cfg, s, t, atomic, InHand);
  }

  lemma OneMoreKey(m: map<nat, string>, k: nat, v: string)
    requires k !in m
    ensures |m[k := v]| == |m| + 1
  {
    assert m[k := v] - {k} == m;
    assert m[k := v].Keys == m.Keys + {k};
  }

  lemma OneKeyLess(m: map<nat, string>, k: nat)
    requires k in m
    ensures |m - {k}| == |m| - 1
  {
    assert m == (m - {k})[k := m[k]];
    OneMoreKey(m - {k}, k, m[k]);
  }

  lemma ConservedSubmitting(cfg: Config, s: State, t: Step, atomic: bool)
    requires Conserved(cfg, s) && Next(cfg, s, t, atomic).Some? && IsSubmitting(t)
    ensures Conserved(cfg, Next(cfg, s, t, atomic).value)
  {
    hide Count;
    if t.SubmitLoad? {
      OneMoreKey(s.channel.passed, t.call, t.payload);
    } else {
      OneKeyLess(s.channel.passed, t.call);
    }
  }

  lemma ConservedStep(cfg: Config, s: State, t: Step, atomic: bool)
    requires Conserved(cfg, s) && Next(cfg, s, t, atomic).Some?
    ensures Conserved(cfg, Next(cfg, s, t, atomic).value)
  {
    hide Count;
    if IsSubmitting(t) {
      ConservedSubmitting(cfg, s, t, atomic);
    } else if IsReceiving(t) {
      ConservedReceiving(cfg, s, t, atomic);
    } else if IsHandling(t) {
      ConservedHandling(cfg, s, t, atomic);
    } else if IsBreaking(t) {
      ConservedBreaking(cfg, s, t, atomic);
    } else if t.Start? {
      StartStep(s, cfg.workerCount, InHand);
    }
  }

  // ---------- the breaker's token ----------

  function HasWon(): Worker -> bool { (x: Worker) => x.Won? }

  /** A cooldown that has still to store 0. */
  function Pending(): Cooldown -> bool { (x: Cooldown) => x.Cooling? || x.Fired? || x.Zeroed? }

  function HasLeft(): Cooldown -> bool { (x: Cooldown) => x.Left? }

  /** An open breaker is owed to exactly one goroutine: the worker that has won it and not yet
      started the cooldown, the cooldown under way, or the one that Stop has sent home. */
  ghost predicate TokenFits(s: State) {
    && Count(s.workers, HasWon()) + Count(s.cooldowns, Pending()) + Count(s.cooldowns, HasLeft())
       == (if s.breaker.open then 1 else 0)
    && (!s.ending.done ==> Count(s.cooldowns, HasLeft()) == 0)
  }

  lemma TokenReceiving(cfg: Config, s: State, t: Step, atomic: bool)
    requires TokenFits(s) && Next(cfg, s, t, atomic).Some? && IsReceiving(t)
    ensures TokenFits(Next(cfg, s, t, atomic).value)
  {
    hide Count;
    ReceivingWorker(cfg, s, t, atomic, HasWon());
  }

  lemma TokenHandling(cfg: Config, s: State, t: Step, atomic: bool)
    requires TokenFits(s) && Next(cfg, s, t, atomic).Some? && IsHandling(t)
    ensures TokenFits(Next(cfg, s, t, atomic).value)
  {
    hide Count;
    HandlingWorker(cfg, s, t, atomic, HasWon());
  }

  lemma TokenBreaking(cfg: Config, s: State, t: Step, atomic: bool)
    requires TokenFits(s) && Next(cfg, s, t, atomic).Some? && IsBreaking(t) && !t.Spawn?
    ensures TokenFits(Next(cfg, s, t, atomic).value)
  {
    hide Count;
    BreakingWorker(cfg, s, t, atomic, HasWon());
  }

  lemma CountOne(p: Cooldown -> bool, c: Cooldown)
    ensures Count([c], p) == if p(c) then 1 else 0
  {
    assert [c][..0] == [];
  }

  lemma TokenSpawn(cfg: Config, s: State, t: Step, atomic: bool)
    requires TokenFits(s) && Next(cfg, s, t, atomic).Some? && t.Spawn?
    ensures TokenFits(Next(cfg, s, t, atomic).value)
  {
    hide Count;
    BreakingWorker(cfg, s, t, atomic, HasWon());
    CountAppend(s.cooldowns, [Cooling], Pending());
    CountAppend(s.cooldowns, [Cooling], HasLeft());
    CountOne(Pending(), Cooling);
    CountOne(HasLeft(), Cooling);
  }

  lemma TokenCooling(cfg: Config, s: State, t: Step, atomic: bool)
    requires TokenFits(s) && Next(cfg, s, t, atomic).Some? && IsCooling(t)
    ensures TokenFits(Next(cfg, s, t, atomic).value)
  {
    hide Count;
    var s' := Next(cfg, s, t, atomic).value;
    CountUpdate(s.cooldowns, t.c, s'.cooldowns[t.c], Pending());
    CountUpdate(s.cooldowns, t.c, s'.cooldowns[t.c], HasLeft());
  }

  lemma TokenStep(cfg: Config, s: State, t: Step, atomic: bool)
    requires TokenFits(s) && Next(cfg, s, t, atomic).Some?
    ensures TokenFits(Next(cfg, s, t, atomic).value)
  {
    hide Count;
    if t.Spawn? {
      TokenSpawn(cfg, s, t, atomic);
    } else if IsBreaking(t) {
      TokenBreaking(cfg, s, t, atomic);
    } else if IsReceiving(t) {
      TokenReceiving(cfg, s, t, atomic);
    } else if IsHandling(t) {
      TokenHandling(cfg, s, t, atomic);
    } else if IsCooling(t) {
      TokenCooling(cfg, s, t, atomic);
    } else if t.Start? {
      StartStep(s, cfg.workerCount, HasWon());
    }
  }

  // ---------- stopping ----------

  /** Workers leave only when nothing can come any more. */
  ghost predicate ExitsFit(s: State) {
    && (s.ending.shut ==> s.ending.done) && (s.ending.returned ==> s.ending.shut)
    && (forall i | 0 <= i < |s.workers| && s.workers[i].Exited? :: s.ending.shut && s.channel.queue == [])
  }

  lemma ExitsWorkers(cfg: Config, s: State, t: Step, atomic: bool)
    requires ExitsFit(s) && Next(cfg, s, t, atomic).Some? && (IsReceiving(t) || IsHandling(t))
    ensures ExitsFit(Next(cfg, s, t, atomic).value)
  {
  }

  lemma ExitsStep(cfg: Config, s: State, t: Step, atomic: bool)
    requires ExitsFit(s) && Next(cfg, s, t, atomic).Some?
    ensures ExitsFit(Next(cfg, s, t, atomic).value)
  {
    if IsReceiving(t) || IsHandling(t) {
      hide Next;
      ExitsWorkers(cfg, s, t, atomic);
    }
  }
}
