/**
 Exactly when the users of the key API get what they count on: when a timely lookup finds the
 caller's own handle, and when another caller can take a lock away.
 */
module RedisLockExact {
  import opened Wrappers
  import opened Runs
  import opened RedisLock
  import opened RedisLockSafety
  import opened RedisLockApi

  function SlotOf(x: Handle): Slot { Slot(x.proc, x.key) }

  // ---------- what a timely lookup finds ----------

  /** In every run with timely releases a lookup finds the caller's own handle, or nothing,
      exactly when the map has no handle for the key or one whose lock has not expired. */
  lemma FindsOwnIff(s0: State, steps: seq<Step>, s: State, h: nat)
    requires IsInitial(s0) && Run(NextUnder(TimelyRelease), s0, steps) == Some(s)
    requires NextUnder(TimelyRelease)(s, GetMutex(h)).Some?
    ensures var slot := SlotOf(s.handles[h]);
            && (slot in s.maps ==> s.maps[slot] in s.handles)
            && (Next(s, GetMutex(h)).value.handles[h].phase in {Found(h), Released} <==>
                  slot !in s.maps || Unexpired(s, s.handles[s.maps[slot]]))
  {
    InvOfRun(s0, steps, TimelyRelease);
    assert HandleInv(s, h, TimelyRelease);
  }

  /** The one way in which a foreign handle gets there while a lock is in force: its caller puts
      it into the map after its own lock has expired, and then the holder's timely lookup finds
      that handle. */
  lemma ForeignStoreIsLate(s0: State, steps: seq<Step>, s: State, f: nat, h: nat)
    requires IsInitial(s0) && Run(NextUnder(TimelyRelease), s0, steps) == Some(s)
    requires h in s.handles && s.handles[h].phase in {Stored, Written} && Unexpired(s, s.handles[h])
    requires f != h && Next(s, StoreMutex(f)).Some? && SlotOf(s.handles[f]) == SlotOf(s.handles[h])
    ensures !Unexpired(s, s.handles[f])
    ensures var s' := Next(s, StoreMutex(f)).value;
            NextUnder(TimelyRelease)(s', GetMutex(h)).Some? && In(Next(s', GetMutex(h)).value, h, Found(f))
  {
    hide Run;
    InvOfRun(s0, steps, TimelyRelease);
    assert HandleInv(s, f, TimelyRelease) && HandleInv(s, h, TimelyRelease);
  }

  // ---------- when another caller can take a lock away ----------

  /** The step is some caller's other than `g`, and after it the entry of `g` is gone. */
  ghost predicate TakesAway(s: State, t: Step, g: nat)
    requires g in s.handles
  {
    && Actor(t).Some? && Actor(t) != Some(g) && Next(s, t).Some?
    && var x := s.handles[g];
    !Owns(Next(s, t).value.redis, s.now, x.key, x.token)
  }

  /** In every run at all, a caller whose entry is in Redis can have it taken away by a step of
      another caller exactly when another ReleaseLock has found its handle. */
  lemma TakenAwayIffFound(s0: State, steps: seq<Step>, s: State, g: nat)
    requires IsInitial(s0) && Run(NextUnder(Free), s0, steps) == Some(s)
    requires g in s.handles && Owns(s.redis, s.now, s.handles[g].key, s.handles[g].token)
    ensures (exists t :: TakesAway(s, t, g)) <==> exists x :: x != g && In(s, x, Found(g))
  {
    hide Run, Next;
    InvOfRun(s0, steps, Free);
    if x :| x != g && In(s, x, Found(g)) {
      UnlockTakesAway(s, x, g);
    }
    forall t | TakesAway(s, t, g) ensures exists x :: x != g && In(s, x, Found(g)) {
      TakerHasFound(s, t, g);
    }
  }

  lemma UnlockTakesAway(s: State, x: nat, g: nat)
    requires g in s.handles && x != g && In(s, x, Found(g))
    ensures TakesAway(s, UnlockFound(x, true, true), g)
  {
  }

  lemma TakerHasFound(s: State, t: Step, g: nat)
    requires Inv(s, Free) && g in s.handles && Owns(s.redis, s.now, s.handles[g].key, s.handles[g].token) && TakesAway(s, t, g)
    ensures t.UnlockFound? && t.h != g && In(s, t.h, Found(g))
  {
    OnlyItsTokenRemoves(s, t, s.handles[g].key);
    hide Next;
    assert TokensDiffer(s);
  }

  // ---------- and then two callers have it ----------

  lemma Bound(xs: set<nat>) returns (n: nat)
    ensures forall x | x in xs :: x < n
  {
    if xs == {} {
      n := 0;
    } else {
      var x :| x in xs;
      var m := Bound(xs - {x});
      n := if m > x then m else x + 1;
      assert xs == (xs - {x}) + {x};
    }
  }

  /** A number that no handle and no token has. */
  lemma FreshNumber(s: State) returns (n: nat)
    ensures n !in s.handles && FreshToken(s, n)
  {
    var tokens := set h | h in s.handles :: s.handles[h].token;
    var entries := set k | k in s.redis :: s.redis[k].token;
    n := Bound(s.handles.Keys + tokens + entries);
    assert n !in s.handles.Keys + tokens + entries;
    assert forall h | h in s.handles :: s.handles[h].token in tokens;
    assert forall k | k in s.redis :: s.redis[k].token in entries;
  }

  /** `s` can go on to `s'`. */
  ghost predicate GoesOnTo(s: State, s': State) {
    exists steps :: Run(NextUnder(Free), s, steps) == Some(s')
  }

  lemma Onwards(s: State, m: State, t: Step) returns (m': State)
    requires GoesOnTo(s, m) && Next(m, t).Some?
    ensures GoesOnTo(s, m') && m' == Next(m, t).value
  {
    hide Next;
    var steps :| Run(NextUnder(Free), s, steps) == Some(m);
    assert Obeys(m, t, Free);
    RunOneMore(NextUnder(Free), s, steps, t);
    m' := Next(m, t).value;
  }

  /** A newcomer takes a free key, in no time. */
  lemma Newcomer(s: State, m: State, g: nat) returns (m': State, h: nat)
    requires GoesOnTo(s, m) && g in m.handles && m.handles[g].proc in m.clocks && !Live(m.redis, m.now, m.handles[g].key)
    ensures GoesOnTo(s, m') && h != g && g in m'.handles && m'.handles[g] == m.handles[g] && m'.clocks == m.clocks
    ensures In(m', h, Held) && m'.handles[h].key == m.handles[g].key && BeforeDeadline(m', m'.handles[h])
  {
    hide GoesOnTo;
    var x := m.handles[g];
    h := FreshNumber(m);
    m' := Onwards(s, m, Begin(h, ByHandle, x.proc, x.key, 100, h));
    m' := Onwards(s, m', StartTry(h));
    m' := Onwards(s, m', SetNX(h, true));
    m' := Onwards(s, m', Conclude(h));
  }

  /** Two callers count on the lock of one key, one of them `g`. */
  ghost predicate Doubled(s: State, g: nat) {
    exists h :: h != g && h in s.handles && In(s, h, Held) && BeforeDeadline(s, s.handles[h])
                && g in s.handles && Holding(s.handles[g].phase) && BeforeDeadline(s, s.handles[g])
                && s.handles[h].key == s.handles[g].key
  }

  /** From every state of every run in which another ReleaseLock has found the handle of a
      caller that is before its deadline, steps lead to two holders, unless its entry in Redis has
      already given way to another's. */
  lemma FoundLeadsToTwoHolders(s0: State, steps: seq<Step>, s: State, x: nat, g: nat)
    requires IsInitial(s0) && Run(NextUnder(Free), s0, steps) == Some(s)
    requires x != g && In(s, x, Found(g))
    requires g in s.handles && Holding(s.handles[g].phase) && BeforeDeadline(s, s.handles[g])
    ensures var y := s.handles[g];
            || (Live(s.redis, s.now, y.key) && s.redis[y.key].token != y.token)
            || exists s' :: GoesOnTo(s, s') && Doubled(s', g)
  {
    hide Run, Next;
    InvOfRun(s0, steps, Free);
    var y := s.handles[g];
    assert HandleInv(s, g, Free);
    if !Live(s.redis, s.now, y.key) || s.redis[y.key].token == y.token {
      assert GoesOnTo(s, s) by { Stays(s); }
      AfterUnlock(s, x, g);
      var m := Onwards(s, s, UnlockFound(x, true, true));
      var s', h := Newcomer(s, m, g);
      assert Doubled(s', g);
    }
  }

  lemma Stays(s: State)
    ensures GoesOnTo(s, s)
  {
    assert Run(NextUnder(Free), s, []) == Some(s);
  }

  lemma AfterUnlock(s: State, x: nat, g: nat)
    requires x != g && In(s, x, Found(g)) && g in s.handles
    requires Live(s.redis, s.now, s.handles[g].key) ==> s.redis[s.handles[g].key].token == s.handles[g].token
    ensures Next(s, UnlockFound(x, true, true)).Some?
    ensures var m := Next(s, UnlockFound(x, true, true)).value;
            && g in m.handles && m.handles[g] == s.handles[g] && m.clocks == s.clocks && m.now == s.now
            && !Live(m.redis, m.now, s.handles[g].key)
  {
  }
}
