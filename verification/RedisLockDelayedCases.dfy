/** Exactly when a late command can take a lock of the handle API away, and what follows then. */
module RedisLockDelayedCases {
  import opened Wrappers
  import opened Runs
  import opened RedisLock
  import opened RedisLockSafety
  import opened RedisLockApi
  import opened RedisLockExact
  import opened RedisLockDelayed

  ghost predicate Reachable(s: Delayed) {
    exists s0, events :: Fresh(s0) && Run(AdvanceBy(Anyhow), s0, events) == Some(s)
  }

  lemma ReachableIsSane(s: Delayed)
    requires Reachable(s)
    ensures SaneInv(s)
  {
    hide Run;
    var s0, events :| Fresh(s0) && Run(AdvanceBy(Anyhow), s0, events) == Some(s);
    SaneOfRun(s0, events, s, Anyhow);
  }

  // ---------- when a lock can be taken away ----------

  /** The event is an action of caller `g`. */
  predicate IsOwn(e: Event, g: nat) {
    match e
    case Do(t) => Actor(t) == Some(g)
    case DelaySet(h) => h == g
    case DelayCleanUp(h) => h == g
    case DelayUnlock(h) => h == g
    case DelayUnlockFound(h) => h == g
    case _ => false
  }

  /** After an event that is not its own, the entry of `g` is gone before its time. */
  ghost predicate TakesAwayLate(s: Delayed, e: Event, g: nat)
    requires g in s.now.handles
  {
    && !IsOwn(e, g) && Advance(s, e).Some?
    && !Owns(Advance(s, e).value.now.redis, s.now.now, s.now.handles[g].key, s.now.handles[g].token)
  }

  /** In every run at all, an entry of the handle API can be taken away by an event that is not its
      caller's own exactly when a delete of that caller is on its way. */
  lemma TakenAwayIffPending(s: Delayed, g: nat)
    requires Reachable(s) && ByHandleCaller(s.now, g) && Owns(s.now.redis, s.now.now, s.now.handles[g].key, s.now.handles[g].token)
    ensures (exists e :: TakesAwayLate(s, e, g)) <==> OwnDelete(s.now.handles[g]) in s.pending
  {
    ReachableIsSane(s);
    hide Next, Reachable, TakesAwayLate;
    if OwnDelete(s.now.handles[g]) in s.pending {
      LandingTakesAway(s, g);
    }
    forall e | TakesAwayLate(s, e, g) ensures OwnDelete(s.now.handles[g]) in s.pending {
      OnlyLandingTakes(s, e, g);
    }
  }

  lemma LandingTakesAway(s: Delayed, g: nat)
    requires g in s.now.handles && OwnDelete(s.now.handles[g]) in s.pending
    ensures TakesAwayLate(s, Land(OwnDelete(s.now.handles[g])), g)
  {
  }

  lemma OnlyLandingTakes(s: Delayed, e: Event, g: nat)
    requires SaneInv(s) && ByHandleCaller(s.now, g) && TakesAwayLate(s, e, g)
    requires Owns(s.now.redis, s.now.now, s.now.handles[g].key, s.now.handles[g].token)
    ensures e == Land(OwnDelete(s.now.handles[g])) && OwnDelete(s.now.handles[g]) in s.pending
  {
    if e.Do? {
      StepsLeaveIt(s.now, e.t, g);
    }
  }

  /** What others do, and time, leave the entry alone. */
  lemma StepsLeaveIt(s: State, t: Step, g: nat)
    requires Sane(s) && ByHandleCaller(s, g) && Next(s, t).Some? && Actor(t) != Some(g)
    requires Owns(s.redis, s.now, s.handles[g].key, s.handles[g].token)
    ensures Owns(Next(s, t).value.redis, s.now, s.handles[g].key, s.handles[g].token)
  {
    OnlyItsTokenRemoves(s, t, s.handles[g].key);
    hide Next;
    assert TokensDiffer(s);
    if t.UnlockFound? { FoundStays(s, t); }
  }

  lemma FoundStays(s: State, t: Step)
    requires Sane(s) && Next(s, t).Some? && t.UnlockFound?
    ensures t.h in s.handles && s.handles[t.h].phase.Found? && s.handles[t.h].phase.handle in s.handles
    ensures s.handles[s.handles[t.h].phase.handle].api == ByKey
  {
    FoundByKey(s, t.h);
  }

  // ---------- and then two callers have it ----------

  /** `s` can go on to `s'`. */
  ghost predicate ComesTo(s: Delayed, s': Delayed) {
    exists events :: Run(AdvanceBy(Anyhow), s, events) == Some(s')
  }

  lemma Onward(s: Delayed, m: Delayed, e: Event) returns (m': Delayed)
    requires ComesTo(s, m) && Advance(m, e).Some?
    ensures ComesTo(s, m') && m' == Advance(m, e).value
  {
    hide Advance;
    var events :| Run(AdvanceBy(Anyhow), s, events) == Some(m);
    RunOneMore(AdvanceBy(Anyhow), s, events, e);
    m' := Advance(m, e).value;
  }

  lemma Stays(s: Delayed)
    ensures ComesTo(s, s)
  {
    assert Run(AdvanceBy(Anyhow), s, []) == Some(s);
  }

  /** A newcomer begins a try on the key of `g`. */
  lemma NewcomerBegins(s: Delayed, m: Delayed, g: nat) returns (m': Delayed, h: nat)
    requires ComesTo(s, m) && g in m.now.handles && m.now.handles[g].proc in m.now.clocks
    ensures ComesTo(s, m') && h != g && g in m'.now.handles && m'.now.handles[g] == m.now.handles[g]
    ensures m'.now.clocks == m.now.clocks && m'.now.redis == m.now.redis && m'.now.now == m.now.now
    ensures var x := m.now.handles[g];
            In(m'.now, h, Sent)
            && m'.now.handles[h] == Handle(ByHandle, x.proc, x.key, h, 100, m.now.clocks[x.proc], m.now.now, Sent)
  {
    hide ComesTo;
    var x := m.now.handles[g];
    h := FreshNumber(m.now);
    m' := Onward(s, m, Do(Begin(h, ByHandle, x.proc, x.key, 100, h)));
    m' := Onward(s, m', Do(StartTry(h)));
  }

  /** And gets it, if it is free. */
  lemma Newcomer(s: Delayed, m: Delayed, g: nat) returns (m': Delayed, h: nat)
    requires ComesTo(s, m) && g in m.now.handles && m.now.handles[g].proc in m.now.clocks
    requires !Live(m.now.redis, m.now.now, m.now.handles[g].key)
    ensures ComesTo(s, m') && h != g && Counts(m'.now, h) && m'.now.clocks == m.now.clocks
    ensures g in m'.now.handles && m'.now.handles[g] == m.now.handles[g] && m'.now.handles[h].key == m.now.handles[g].key
  {
    hide ComesTo;
    m', h := NewcomerBegins(s, m, g);
    m' := Onward(s, m', Do(SetNX(h, true)));
    m' := Onward(s, m', Do(Conclude(h)));
  }

  /** From every state of every run in which a delete of a caller that counts on its lock is on its
      way, events lead to two holders, unless its entry has already given way to another's. */
  lemma PendingLeadsToTwoHolders(s: Delayed, g: nat)
    requires Reachable(s) && ByHandleCaller(s.now, g) && OwnDelete(s.now.handles[g]) in s.pending
    requires Holding(s.now.handles[g].phase) && BeforeDeadline(s.now, s.now.handles[g])
    ensures var y := s.now.handles[g];
            || (Live(s.now.redis, s.now.now, y.key) && s.now.redis[y.key].token != y.token)
            || exists s' :: ComesTo(s, s') && Doubled(s'.now, g)
  {
    ReachableIsSane(s);
    var y := s.now.handles[g];
    if !Live(s.now.redis, s.now.now, y.key) || s.now.redis[y.key].token == y.token {
      var s', h := AfterLanding(s, s, g);
      assert Doubled(s'.now, g);
    }
  }

  /** The delete lands, and a newcomer gets the key. */
  lemma AfterLanding(s: Delayed, m: Delayed, g: nat) returns (s': Delayed, h: nat)
    requires (s == m || ComesTo(s, m)) && Sane(m.now) && g in m.now.handles && OwnDelete(m.now.handles[g]) in m.pending
    requires Live(m.now.redis, m.now.now, m.now.handles[g].key) ==> m.now.redis[m.now.handles[g].key].token == m.now.handles[g].token
    ensures ComesTo(s, s') && h != g && Counts(s'.now, h) && s'.now.clocks == m.now.clocks
    ensures g in s'.now.handles && s'.now.handles[g] == m.now.handles[g] && s'.now.handles[h].key == m.now.handles[g].key
  {
    assert ComesTo(s, m) by { Stays(s); }
    hide ComesTo;
    var l := Onward(s, m, Land(OwnDelete(m.now.handles[g])));
    s', h := Newcomer(s, l, g);
  }

  // ---------- and that can be reached ----------

  /** From every state in which a try has failed and the key is free: if the clean-up is delayed and
      the caller tries again, it can get the lock with its own delete on its way, and then events
      lead to two holders. */
  lemma UnsureRetryLeadsToTwoHolders(s: Delayed, g: nat) returns (s': Delayed, h: nat)
    requires Sane(s.now) && ByHandleCaller(s.now, g) && In(s.now, g, Cleanup)
    requires !Live(s.now.redis, s.now.now, s.now.handles[g].key)
    ensures ComesTo(s, s') && h != g && Counts(s'.now, g) && Counts(s'.now, h)
    ensures s'.now.handles[g].key == s'.now.handles[h].key == s.now.handles[g].key
  {
    hide ComesTo;
    Stays(s);
    var x := s.now.handles[g];
    var m := Onward(s, s, DelayCleanUp(g));
    SaneBecome(s.now, g, Idle);
    m := RetrySucceeds(s, m, g);
    s', h := AfterLanding(s, m, g);
  }

  lemma RetrySucceeds(s: Delayed, m: Delayed, g: nat) returns (m': Delayed)
    requires ComesTo(s, m) && Sane(m.now) && ByHandleCaller(m.now, g) && In(m.now, g, Idle)
    requires !Live(m.now.redis, m.now.now, m.now.handles[g].key)
    ensures ComesTo(s, m') && Sane(m'.now) && Counts(m'.now, g) && m'.pending == m.pending
    ensures OwnDelete(m'.now.handles[g]) == OwnDelete(m.now.handles[g])
    ensures Live(m'.now.redis, m'.now.now, m'.now.handles[g].key) && m'.now.redis[m'.now.handles[g].key].token == m'.now.handles[g].token
  {
    hide ComesTo, Sane;
    assert m.now.handles[g].proc in m.now.clocks && m.now.handles[g].ttl > 0 by { SaneFacts(m.now, g); }
    SaneStep(m.now, StartTry(g));
    var a := Onward(s, m, Do(StartTry(g)));
    SaneStep(a.now, SetNX(g, true));
    var b := Onward(s, a, Do(SetNX(g, true)));
    SaneStep(b.now, Conclude(g));
    m' := Onward(s, b, Do(Conclude(g)));
  }

  lemma SaneFacts(s: State, g: nat)
    requires Sane(s) && g in s.handles
    ensures s.handles[g].proc in s.clocks && s.handles[g].ttl > 0
  {
  }

  /** At time 0, with one caller. */
  function One(phase: Phase, past: Past): Delayed {
    Delayed(State(map[], 0, map[0 := 0], map[1 := Handle(ByHandle, 0, "k", 1, 100, 0, 0, phase)], map[]),
            multiset{}, multiset{}, past)
  }

  const NOBODY := Delayed(State(map[], 0, map[0 := 0], map[], map[]), multiset{}, multiset{}, Past({}, {}))

  lemma Then(s: Delayed, e: Event, s': Delayed)
    requires ComesTo(NOBODY, s) && Advance(s, e).Some?
    requires var m := Advance(s, e).value;
             && m.now.redis == s'.now.redis && m.now.now == s'.now.now && m.now.clocks == s'.now.clocks
             && m.now.handles == s'.now.handles && m.now.maps == s'.now.maps
             && m.pending == s'.pending && m.sets == s'.sets && m.past.tried == s'.past.tried && m.past.unsure == s'.past.unsure
    ensures ComesTo(NOBODY, s')
  {
    hide Advance;
    var m := Onward(NOBODY, s, e);
  }

  /** A first try whose SET NX was lost. */
  lemma BegunTry()
    ensures ComesTo(NOBODY, One(Sent, Past({1}, {})))
  {
    hide ComesTo;
    Stays(NOBODY);
    Then(NOBODY, Do(Begin(1, ByHandle, 0, "k", 100, 1)), One(Idle, Past({}, {})));
    Then(One(Idle, Past({}, {})), Do(StartTry(1)), One(Sent, Past({1}, {})));
  }

  lemma FailedTry()
    ensures ComesTo(NOBODY, One(Cleanup, Past({1}, {})))
  {
    hide ComesTo;
    BegunTry();
    Then(One(Sent, Past({1}, {})), Do(LoseSet(1)), One(Answered(false), Past({1}, {})));
    Then(One(Answered(false), Past({1}, {})), Do(Conclude(1)), One(Cleanup, Past({1}, {})));
  }

  lemma ComesFurther(a: Delayed, b: Delayed, c: Delayed)
    requires ComesTo(a, b) && ComesTo(b, c)
    ensures ComesTo(a, c)
  {
    var events :| Run(AdvanceBy(Anyhow), b, events) == Some(c);
    ComesByAll(a, b, events, c);
  }

  lemma {:induction false} ComesByAll(a: Delayed, b: Delayed, events: seq<Event>, c: Delayed)
    requires ComesTo(a, b) && Run(AdvanceBy(Anyhow), b, events) == Some(c)
    ensures ComesTo(a, c)
  {
    hide Advance, ComesTo;
    if events != [] {
      var n := |events| - 1;
      var m := Run(AdvanceBy(Anyhow), b, events[..n]).value;
      ComesByAll(a, b, events[..n], m);
      var m' := Onward(a, m, events[n]);
    }
  }

  /** So a run without any policy reaches two holders before their deadlines: the second try gets
      the lock, the clean-up of the first takes it away, and another caller gets it. */
  lemma DelayedCleanUpBreaksExclusion() returns (s: Delayed, g: nat, h: nat)
    ensures Reachable(s) && g != h && Counts(s.now, g) && Counts(s.now, h) && s.now.handles[g].key == s.now.handles[h].key
  {
    var m := One(Cleanup, Past({1}, {}));
    assert Sane(m.now);
    hide ComesTo, Sane;
    FailedTry();
    g := 1;
    s, h := UnsureRetryLeadsToTwoHolders(m, 1);
    ComesFurther(NOBODY, m, s);
    assert Reachable(s) by { FromNobody(s); }
  }

  lemma FromNobody(s: Delayed)
    requires ComesTo(NOBODY, s)
    ensures Reachable(s)
  {
    assert Fresh(NOBODY);
  }
}
