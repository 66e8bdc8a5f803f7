/** Which messages reach the client: each accepted one at most once, as it was submitted. */
module AuditPublisherOrder {
  import opened AuditPublisher
  import opened AuditPublisherSafety

  /** The queue is the part of the accepted messages that nobody has received. */
  ghost predicate QueueFits(ch: Channel) {
    && ch.taken + |ch.queue| == |ch.accepted|
    && forall i | 0 <= i < |ch.queue| :: ch.queue[i] == Message(ch.taken + i, ch.accepted[ch.taken + i])
  }

  /** A message is one that was accepted and has been received. */
  ghost predicate Genuine(ch: Channel, m: Message) {
    m.id < ch.taken <= |ch.accepted| && m.payload == ch.accepted[m.id]
  }

  ghost predicate HandedFit(ch: Channel) {
    && (forall i | 0 <= i < |ch.handed| :: Genuine(ch, ch.handed[i]))
    && (forall i, j | 0 <= i < j < |ch.handed| :: ch.handed[i].id != ch.handed[j].id)
  }

  /** What a worker holds is genuine and not yet handed on. */
  ghost predicate HoldingFits(ch: Channel, x: Worker) {
    InHand(x) ==> Genuine(ch, x.msg) && forall i | 0 <= i < |ch.handed| :: ch.handed[i].id != x.msg.id
  }

  ghost predicate HoldingsFit(s: State) {
    && (forall w | 0 <= w < |s.workers| :: HoldingFits(s.channel, s.workers[w]))
    && (forall v, w | 0 <= v < w < |s.workers| && InHand(s.workers[v]) && InHand(s.workers[w]) ::
          s.workers[v].msg.id != s.workers[w].msg.id)
  }

  ghost predicate MessagesFit(s: State) {
    QueueFits(s.channel) && HandedFit(s.channel) && HoldingsFit(s)
  }

  lemma MessagesSubmitting(cfg: Config, s: State, t: Step, atomic: bool)
    requires MessagesFit(s) && Next(cfg, s, t, atomic).Some? && IsSubmitting(t)
    ensures MessagesFit(Next(cfg, s, t, atomic).value)
  {
  }

  lemma MessagesReceiving(cfg: Config, s: State, t: Step, atomic: bool)
    requires MessagesFit(s) && Next(cfg, s, t, atomic).Some? && IsReceiving(t)
    ensures MessagesFit(Next(cfg, s, t, atomic).value)
  {
  }

  /** A worker that keeps its message or lets it go disturbs nobody. */
  lemma SameHoldings(s: State, s': State, w: nat, x: Worker)
    requires MessagesFit(s) && s'.channel == s.channel && w < |s.workers| && s'.workers == s.workers[w := x]
    requires InHand(x) ==> InHand(s.workers[w]) && x.msg == s.workers[w].msg
    ensures MessagesFit(s')
  {
    hide QueueFits, HandedFit, Genuine;
    assert HoldingFits(s.channel, s.workers[w]);
  }

  lemma MessagesHandling(cfg: Config, s: State, t: Step, atomic: bool)
    requires MessagesFit(s) && Next(cfg, s, t, atomic).Some? && IsHandling(t) && !t.Push?
    ensures MessagesFit(Next(cfg, s, t, atomic).value)
  {
    hide MessagesFit;
    var s' := Next(cfg, s, t, atomic).value;
    SameHoldings(s, s', t.w, s'.workers[t.w]);
  }

  lemma MessagesBreaking(cfg: Config, s: State, t: Step, atomic: bool)
    requires MessagesFit(s) && Next(cfg, s, t, atomic).Some? && IsBreaking(t)
    ensures MessagesFit(Next(cfg, s, t, atomic).value)
  {
    hide MessagesFit;
    var s' := Next(cfg, s, t, atomic).value;
    SameHoldings(s, s', t.w, s'.workers[t.w]);
  }

  /** A worker hands its message to the client. */
  lemma HandOver(s: State, s': State, w: nat, x: Worker)
    requires MessagesFit(s) && w < |s.workers| && InHand(s.workers[w]) && !InHand(x)
    requires s'.channel == s.channel.(handed := s.channel.handed + [s.workers[w].msg]) && s'.workers == s.workers[w := x]
    ensures MessagesFit(s')
  {
    var m := s.workers[w].msg;
    assert HoldingFits(s.channel, s.workers[w]);
    forall v | 0 <= v < |s'.workers| ensures HoldingFits(s'.channel, s'.workers[v]) {
      assert v != w ==> HoldingFits(s.channel, s.workers[v]);
      assert v != w && InHand(s.workers[v]) ==> s.workers[v].msg.id != m.id;
    }
  }

  lemma MessagesPush(cfg: Config, s: State, t: Step, atomic: bool)
    requires MessagesFit(s) && Next(cfg, s, t, atomic).Some? && t.Push?
    ensures MessagesFit(Next(cfg, s, t, atomic).value)
  {
    hide MessagesFit;
    var s' := Next(cfg, s, t, atomic).value;
    HandOver(s, s', t.w, s'.workers[t.w]);
  }

  lemma MessagesStart(s: State, n: nat)
    requires MessagesFit(s)
    ensures MessagesFit(s.(workers := s.workers + seq(n, _ => Waiting)))
  {
    hide QueueFits, HandedFit, Genuine;
  }

  lemma MessagesStep(cfg: Config, s: State, t: Step, atomic: bool)
    requires MessagesFit(s) && Next(cfg, s, t, atomic).Some?
    ensures MessagesFit(Next(cfg, s, t, atomic).value)
  {
    if IsSubmitting(t) {
      hide *;
      MessagesSubmitting(cfg, s, t, atomic);
    } else if IsReceiving(t) {
      hide *;
      MessagesReceiving(cfg, s, t, atomic);
    } else if t.Push? {
      hide *;
      MessagesPush(cfg, s, t, atomic);
    } else if IsHandling(t) {
      hide *;
      MessagesHandling(cfg, s, t, atomic);
    } else if IsBreaking(t) {
      hide *;
      MessagesBreaking(cfg, s, t, atomic);
    } else if t.Start? {
      MessagesStart(s, cfg.workerCount);
    }
  }

  // ---------- one worker ----------

  /** A lone worker hands on in the order of acceptance. */
  ghost predicate InOrder(s: State) {
    |s.workers| <= 1 ==>
      && (forall i, j | 0 <= i < j < |s.channel.handed| :: s.channel.handed[i].id < s.channel.handed[j].id)
      && (forall w, i | 0 <= w < |s.workers| && InHand(s.workers[w]) && 0 <= i < |s.channel.handed| ::
            s.channel.handed[i].id < s.workers[w].msg.id)
  }

  lemma OrderMoves(s: State, s': State)
    requires InOrder(s) && s'.channel.handed == s.channel.handed && |s.workers| <= |s'.workers|
    requires forall w | 0 <= w < |s'.workers| && InHand(s'.workers[w]) ::
               w < |s.workers| && InHand(s.workers[w]) && s'.workers[w].msg == s.workers[w].msg
    ensures InOrder(s')
  {
  }

  lemma OrderReceiving(cfg: Config, s: State, t: Step, atomic: bool)
    requires InOrder(s) && MessagesFit(s) && Next(cfg, s, t, atomic).Some? && IsReceiving(t)
    ensures InOrder(Next(cfg, s, t, atomic).value)
  {
    assert forall i | 0 <= i < |s.channel.handed| :: Genuine(s.channel, s.channel.handed[i]);
  }

  lemma OrderPush(cfg: Config, s: State, t: Step, atomic: bool)
    requires InOrder(s) && Next(cfg, s, t, atomic).Some? && t.Push?
    ensures InOrder(Next(cfg, s, t, atomic).value)
  {
  }

  lemma OrderHandling(cfg: Config, s: State, t: Step, atomic: bool)
    requires InOrder(s) && Next(cfg, s, t, atomic).Some? && (IsHandling(t) || IsBreaking(t)) && !t.Push?
    ensures InOrder(Next(cfg, s, t, atomic).value)
  {
    hide InOrder;
    OrderMoves(s, Next(cfg, s, t, atomic).value);
  }

  lemma OrderStep(cfg: Config, s: State, t: Step, atomic: bool)
    requires InOrder(s) && MessagesFit(s) && Next(cfg, s, t, atomic).Some?
    ensures InOrder(Next(cfg, s, t, atomic).value)
  {
    if t.Push? {
      hide *;
      OrderPush(cfg, s, t, atomic);
    } else if IsHandling(t) || IsBreaking(t) {
      hide *;
      OrderHandling(cfg, s, t, atomic);
    } else if IsReceiving(t) {
      hide *;
      OrderReceiving(cfg, s, t, atomic);
    } else {
      hide InOrder, MessagesFit;
      OrderMoves(s, Next(cfg, s, t, atomic).value);
    }
  }
}
