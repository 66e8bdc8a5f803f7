/** What every run of the lock system keeps, and mutual exclusion from it. */
module RedisLockSafety {
  import opened Wrappers
  import opened Runs
  import opened RedisLock

  /** The handle's lock is, or may still be, in force. */
  predicate Holding(phase: Phase) {
    phase in {Answered(true), Held, Stored, Writing, Written} || phase.Found?
  }

  /** The handle has been put into its process's map and not been given back. */
  predicate InUse(phase: Phase) {
    phase in {Stored, Writing, Written} || phase.Found?
  }

  /** A lock of the key API is only as safe as its callers are timely. */
  predicate Protected(x: Handle, d: Discipline) { x.api == ByHandle || !d.Free? }

  /** No more time has passed for the server than the drift factor allows. */
  predicate Timed(s: State, x: Handle) {
    x.setAt <= s.now && 99 * (s.now - x.setAt) <= 100 * (Clock(s, x) - x.start)
  }

  /** The handle's key is in Redis, with its own token, until its time is up. */
  predicate Covered(r: Redis, now: int, x: Handle) {
    now < x.setAt + x.ttl ==> x.key in r && r[x.key] == Entry(x.token, x.setAt + x.ttl)
  }

  /** The phases that an API can be in. */
  predicate PhaseFits(x: Handle) {
    && (InUse(x.phase) || x.phase.Removing? ==> x.api == ByKey)
    && (x.phase.Releasing? ==> x.api == ByHandle)
  }

  /** The caller's try is over, for good. */
  predicate Settled(phase: Phase) {
    !phase.Idle? && !phase.Sent? && !phase.Answered? && !phase.Cleanup?
  }

  /** The lock of this handle is over, and the handle will not get another. */
  predicate Spent(s: State, f: nat)
    requires f in s.handles
  {
    Settled(s.handles[f].phase) && !Unexpired(s, s.handles[f])
  }

  /** What ReleaseLock found: always a handle of the key API for the same key; the caller's own
      or a spent one if releases are timely. */
  predicate FoundFits(s: State, h: nat, d: Discipline)
    requires h in s.handles
  {
    s.handles[h].phase.Found? ==>
      var f := s.handles[h].phase.handle;
      && f in s.handles && s.handles[f].api == ByKey && s.handles[f].key == s.handles[h].key
      && (d.TimelyRelease? ==> f == h || Spent(s, f))
      && (d.TimelyThroughout? ==> f == h)
  }

  /** While a lock is in force the map of its process has its handle, or nothing, or if stores
      may be late a spent handle. */
  predicate MapFits(s: State, h: nat, d: Discipline)
    requires h in s.handles
  {
    var slot := Slot(s.handles[h].proc, s.handles[h].key);
    !d.Free? && InUse(s.handles[h].phase) && Unexpired(s, s.handles[h]) && slot in s.maps ==>
      s.maps[slot] == h || (d.TimelyRelease? && s.maps[slot] in s.handles && Spent(s, s.maps[slot]))
  }

  /** Nothing in Redis carries the handle's token for longer than its last SET NX asked for. */
  ghost predicate EntriesFit(r: Redis, x: Handle) {
    forall k | k in r && r[k].token == x.token :: r[k].expires <= x.setAt + x.ttl
  }

  ghost predicate HandleInv(s: State, h: nat, d: Discipline)
    requires h in s.handles
  {
    var x := s.handles[h];
    && x.proc in s.clocks && x.ttl > 0 && x.setAt <= s.now && PhaseFits(x)
    && EntriesFit(s.redis, x)
    && (x.phase.Sent? ==> x.start <= Clock(s, x))
    && (Holding(x.phase) && Protected(x, d) ==> Timed(s, x) && Covered(s.redis, s.now, x))
    && FoundFits(s, h, d)
    && MapFits(s, h, d)
  }

  ghost predicate TokensDiffer(s: State) {
    forall g, h | g in s.handles && h in s.handles && g != h :: s.handles[g].token != s.handles[h].token
  }

  /** The maps hold handles of the key API under their own keys. */
  ghost predicate MapsHold(s: State) {
    forall slot | slot in s.maps ::
      s.maps[slot] in s.handles && s.handles[s.maps[slot]].api == ByKey && s.handles[s.maps[slot]].key == slot.key
  }

  ghost predicate Inv(s: State, d: Discipline) {
    && TokensDiffer(s)
    && MapsHold(s)
    && forall h | h in s.handles :: HandleInv(s, h, d)
  }

  // ---------- what the commands do to the keys of others ----------

  lemma SetKeeps(r: Redis, now: int, key: string, token: nat, ttl: nat, x: Handle)
    requires Covered(r, now, x)
    ensures Covered(SetIfFree(r, now, key, token, ttl), now, x)
  {
  }

  /** `s'` differs from `s` in handle `h`, and in Redis and the maps only so that no other
      handle is the worse for it. */
  ghost predicate OnlyTouches(s: State, s': State, h: nat, d: Discipline) {
    && h in s.handles && h in s'.handles && s'.handles == s.handles[h := s'.handles[h]]
    && s'.now == s.now && s'.clocks == s.clocks
    && s'.handles[h].token == s.handles[h].token && s'.handles[h].api == s.handles[h].api && s'.handles[h].key == s.handles[h].key
    && (forall g | g in s.handles && g != h && Protected(s.handles[g], d) && Covered(s.redis, s.now, s.handles[g]) ::
          Covered(s'.redis, s.now, s.handles[g]))
    && (forall g | g in s.handles && g != h && MapFits(s, g, d) :: MapFits(s', g, d))
    && (Settled(s.handles[h].phase) ==> Settled(s'.handles[h].phase) && s'.handles[h].setAt == s.handles[h].setAt)
    && s'.handles[h].ttl == s.handles[h].ttl
    && (forall g | g in s.handles && g != h && EntriesFit(s.redis, s.handles[g]) :: EntriesFit(s'.redis, s.handles[g]))
    && MapsHold(s')
  }

  lemma OthersKeep(s: State, s': State, h: nat, d: Discipline)
    requires Inv(s, d) && OnlyTouches(s, s', h, d) && HandleInv(s', h, d)
    ensures Inv(s', d)
  {
    forall g | g in s'.handles
      ensures HandleInv(s', g, d)
    {
      if g != h {
        assert HandleInv(s, g, d);
        assert s'.handles[g] == s.handles[g];
      }
    }
  }

  // ---------- one lemma per kind of step ----------

  /** A step that is allowed here. */
  predicate Can(s: State, t: Step, d: Discipline) {
    Next(s, t).Some? && Obeys(s, t, d)
  }

  /** A step in which a caller only moves on. */
  lemma MovingOnKeeps(s: State, h: nat, x: Handle, d: Discipline)
    requires Inv(s, d) && h in s.handles && x == s.handles[h].(phase := x.phase, start := x.start)
    requires Settled(s.handles[h].phase) ==> Settled(x.phase)
    requires HandleInv(s.(handles := s.handles[h := x]), h, d)
    ensures Inv(s.(handles := s.handles[h := x]), d)
  {
    OthersKeep(s, s.(handles := s.handles[h := x]), h, d);
  }

  lemma TryStepKeeps(s: State, t: Step, d: Discipline)
    requires Inv(s, d) && Can(s, t, d) && (t.StartTry? || t.LoseSet? || t.GiveUp?)
    ensures Inv(Next(s, t).value, d)
  {
    assert HandleInv(s, t.h, d);
    MovingOnKeeps(s, t.h, Next(s, t).value.handles[t.h], d);
  }

  lemma ConcludeKeeps(s: State, h: nat, d: Discipline)
    requires Inv(s, d) && Can(s, Conclude(h), d)
    ensures Inv(Next(s, Conclude(h)).value, d)
  {
    assert HandleInv(s, h, d);
    MovingOnKeeps(s, h, Next(s, Conclude(h)).value.handles[h], d);
  }

  /** A holder that only moves on. */
  lemma HolderMoves(s: State, h: nat, phase: Phase, d: Discipline)
    requires h in s.handles && HandleInv(s, h, d) && (Holding(phase) ==> Holding(s.handles[h].phase))
    requires PhaseFits(s.handles[h].(phase := phase)) && !phase.Sent? && !phase.Found?
    requires InUse(phase) ==> InUse(s.handles[h].phase)
    ensures HandleInv(Become(s, h, phase), h, d)
  {
    hide EntriesFit;
    SameEntries(s.redis, s.handles[h], phase);
  }

  lemma HolderStepKeeps(s: State, t: Step, d: Discipline)
    requires Inv(s, d) && Can(s, t, d) && (t.StartRelease? || t.BeginWrite? || t.EndWrite?)
    ensures Inv(Next(s, t).value, d)
  {
    assert HandleInv(s, t.h, d);
    var phase := Next(s, t).value.handles[t.h].phase;
    assert PhaseFits(s.handles[t.h].(phase := phase));
    hide Inv, HandleInv, Obeys;
    HolderMoves(s, t.h, phase, d);
    MovingOnKeeps(s, t.h, s.handles[t.h].(phase := phase), d);
  }

  lemma GetMutexHandle(s: State, h: nat, phase: Phase, d: Discipline)
    requires Inv(s, d) && MayRelease(s, h) && Obeys(s, GetMutex(h), d)
    requires var slot := Slot(s.handles[h].proc, s.handles[h].key);
             phase == if slot in s.maps then Found(s.maps[slot]) else Released
    ensures HandleInv(Become(s, h, phase), h, d)
  {
    assert HandleInv(s, h, d);
  }

  lemma GetMutexKeeps(s: State, h: nat, d: Discipline)
    requires Inv(s, d) && Can(s, GetMutex(h), d)
    ensures Inv(Next(s, GetMutex(h)).value, d)
  {
    hide Inv, HandleInv, Obeys;
    var phase := Next(s, GetMutex(h)).value.handles[h].phase;
    GetMutexHandle(s, h, phase, d);
    MovingOnKeeps(s, h, s.handles[h].(phase := phase), d);
  }

  /** The state after a SET NX. */
  function SetDone(s: State, h: nat, replied: bool): State
    requires In(s, h, Sent)
  {
    var x := s.handles[h];
    s.(redis := SetIfFree(s.redis, s.now, x.key, x.token, x.ttl),
       handles := s.handles[h := x.(setAt := s.now, phase := Answered(!Live(s.redis, s.now, x.key) && replied))])
  }

  lemma SetNXHandle(s: State, h: nat, replied: bool, d: Discipline)
    requires In(s, h, Sent) && HandleInv(s, h, d)
    ensures HandleInv(SetDone(s, h, replied), h, d)
  {
    assert EntriesFit(s.redis, s.handles[h]);
  }

  lemma SetNXEntries(s: State, h: nat, replied: bool, g: nat)
    requires In(s, h, Sent) && g in s.handles && s.handles[g].token != s.handles[h].token && EntriesFit(s.redis, s.handles[g])
    ensures EntriesFit(SetDone(s, h, replied).redis, s.handles[g])
  {
  }

  lemma SetNXMap(s: State, h: nat, replied: bool, g: nat, d: Discipline)
    requires In(s, h, Sent) && g in s.handles && g != h && MapFits(s, g, d)
    ensures MapFits(SetDone(s, h, replied), g, d)
  {
    hide SetIfFree;
  }

  lemma SetNXMapsHold(s: State, h: nat, replied: bool)
    requires In(s, h, Sent) && MapsHold(s)
    ensures MapsHold(SetDone(s, h, replied))
  {
    hide SetIfFree, Live;
  }

  lemma SetNXTouches(s: State, h: nat, replied: bool, d: Discipline)
    requires In(s, h, Sent) && TokensDiffer(s) && MapsHold(s)
    ensures OnlyTouches(s, SetDone(s, h, replied), h, d)
  {
    hide MapFits, EntriesFit, MapsHold, Covered, SetIfFree, Live;
    var x, s' := s.handles[h], SetDone(s, h, replied);
    SetNXMapsHold(s, h, replied);
    forall g | g in s.handles && g != h
      ensures Covered(s.redis, s.now, s.handles[g]) ==> Covered(s'.redis, s.now, s.handles[g])
      ensures MapFits(s, g, d) ==> MapFits(s', g, d)
      ensures EntriesFit(s.redis, s.handles[g]) ==> EntriesFit(s'.redis, s.handles[g])
    {
      if Covered(s.redis, s.now, s.handles[g]) { SetKeeps(s.redis, s.now, x.key, x.token, x.ttl, s.handles[g]); }
      if MapFits(s, g, d) { SetNXMap(s, h, replied, g, d); }
      if EntriesFit(s.redis, s.handles[g]) { SetNXEntries(s, h, replied, g); }
    }
  }

  lemma SetNXKeeps(s: State, h: nat, replied: bool, d: Discipline)
    requires Inv(s, d) && Can(s, SetNX(h, replied), d)
    ensures Inv(Next(s, SetNX(h, replied)).value, d)
  {
    hide HandleInv, TokensDiffer, MapsHold, OnlyTouches, SetIfFree, Live;
    assert Next(s, SetNX(h, replied)).value == SetDone(s, h, replied);
    SetNXHandle(s, h, replied, d);
    SetNXTouches(s, h, replied, d);
    OthersKeep(s, SetDone(s, h, replied), h, d);
  }

  /** A compare-and-delete harms no lock that is not its own and still in force. */
  lemma DeletingKeeps(s: State, key: string, token: nat, d: Discipline)
    requires Inv(s, d)
    requires forall g | g in s.handles && s.handles[g].token == token && Protected(s.handles[g], d) ::
               !Holding(s.handles[g].phase) || !Unexpired(s, s.handles[g])
    ensures Inv(s.(redis := DeleteIfOwner(s.redis, s.now, key, token)), d)
  {
    var s' := s.(redis := DeleteIfOwner(s.redis, s.now, key, token));
    forall g | g in s'.handles
      ensures HandleInv(s', g, d)
    {
      assert HandleInv(s, g, d);
    }
  }

  lemma OwnDeleteKeeps(s: State, t: Step, d: Discipline)
    requires Inv(s, d) && Can(s, t, d) && (t.CleanUp? || t.Unlock?)
    ensures Inv(Next(s, t).value, d)
  {
    var x := s.handles[t.h];
    assert HandleInv(s, t.h, d);
    if t.CleanUp? {
      MovingOnKeeps(s, t.h, x.(phase := Idle), d);
      if t.executed { DeletingKeeps(Become(s, t.h, Idle), x.key, x.token, d); }
    } else {
      DeletingKeeps(s, x.key, x.token, d);
    }
  }

  /** The state after a handle has been put into the map. */
  function Entered(s: State, h: nat): State
    requires In(s, h, Held)
  {
    Become(s, h, Stored).(maps := s.maps[Slot(s.handles[h].proc, s.handles[h].key) := h])
  }

  /** While a lock is in force nobody but its holder has a lock in force to put into the map. */
  lemma EnteredMap(s: State, h: nat, g: nat, d: Discipline)
    requires In(s, h, Held) && s.handles[h].api == ByKey && Obeys(s, StoreMutex(h), d)
    requires TokensDiffer(s) && HandleInv(s, h, d) && g in s.handles && g != h && HandleInv(s, g, d)
    ensures MapFits(Entered(s, h), g, d)
  {
    hide EntriesFit, FoundFits;
  }

  lemma EnteredTouches(s: State, h: nat, d: Discipline)
    requires Inv(s, d) && In(s, h, Held) && s.handles[h].api == ByKey && Obeys(s, StoreMutex(h), d)
    ensures OnlyTouches(s, Entered(s, h), h, d)
  {
    hide HandleInv, EntriesFit, MapFits, Covered;
    forall g | g in s.handles && g != h ensures MapFits(Entered(s, h), g, d) {
      EnteredMap(s, h, g, d);
    }
  }

  lemma EnteredHandle(s: State, h: nat, d: Discipline)
    requires In(s, h, Held) && s.handles[h].api == ByKey && HandleInv(s, h, d)
    ensures HandleInv(Entered(s, h), h, d)
  {
    hide EntriesFit;
    SameEntries(s.redis, s.handles[h], Stored);
  }

  lemma StoreMutexKeeps(s: State, h: nat, d: Discipline)
    requires Inv(s, d) && Can(s, StoreMutex(h), d)
    ensures Inv(Next(s, StoreMutex(h)).value, d)
  {
    hide HandleInv, TokensDiffer, MapsHold, OnlyTouches, Obeys;
    assert Next(s, StoreMutex(h)).value == Entered(s, h);
    EnteredHandle(s, h, d);
    EnteredTouches(s, h, d);
    OthersKeep(s, Entered(s, h), h, d);
  }

  lemma UnlockFoundKeeps(s: State, h: nat, executed: bool, replied: bool, d: Discipline)
    requires Inv(s, d) && Can(s, UnlockFound(h, executed, replied), d)
    ensures Inv(Next(s, UnlockFound(h, executed, replied)).value, d)
  {
    var f, phase := s.handles[h].phase.handle, Next(s, UnlockFound(h, executed, replied)).value.handles[h].phase;
    var x := s.handles[f];
    assert HandleInv(s, h, d);
    MovingOnKeeps(s, h, s.handles[h].(phase := phase), d);
    if executed { DeletingKeeps(Become(s, h, phase), x.key, x.token, d); }
  }

  /** The state after a handle has been taken from the map. */
  function Removed(s: State, h: nat): State
    requires In(s, h, Removing)
  {
    Become(s, h, Released).(maps := s.maps - {Slot(s.handles[h].proc, s.handles[h].key)})
  }

  lemma RemovedTouches(s: State, h: nat, d: Discipline)
    requires In(s, h, Removing) && MapsHold(s)
    ensures OnlyTouches(s, Removed(s, h), h, d)
  {
    hide EntriesFit, Covered;
  }

  lemma RemovedHandle(s: State, h: nat, d: Discipline)
    requires In(s, h, Removing) && HandleInv(s, h, d)
    ensures HandleInv(Removed(s, h), h, d)
  {
    hide EntriesFit, Covered;
    assert EntriesFit(Removed(s, h).redis, Removed(s, h).handles[h]) by { SameEntries(s.redis, s.handles[h], Released); }
  }

  lemma SameEntries(r: Redis, x: Handle, phase: Phase)
    requires EntriesFit(r, x)
    ensures EntriesFit(r, x.(phase := phase))
  {
  }

  lemma RemoveMutexKeeps(s: State, h: nat, d: Discipline)
    requires Inv(s, d) && Can(s, RemoveMutex(h), d)
    ensures Inv(Next(s, RemoveMutex(h)).value, d)
  {
    hide HandleInv, TokensDiffer, MapsHold, OnlyTouches;
    assert Next(s, RemoveMutex(h)).value == Removed(s, h);
    RemovedHandle(s, h, d);
    RemovedTouches(s, h, d);
    OthersKeep(s, Removed(s, h), h, d);
  }

  lemma BeginKeeps(s: State, t: Step, d: Discipline)
    requires Inv(s, d) && Can(s, t, d) && t.Begin?
    ensures Inv(Next(s, t).value, d)
  {
    var s' := Next(s, t).value;
    forall g | g in s'.handles
      ensures HandleInv(s', g, d)
    {
      if g != t.h { assert HandleInv(s, g, d); }
    }
  }

  lemma ExpireKeeps(s: State, key: string, d: Discipline)
    requires Inv(s, d) && Can(s, Expire(key), d)
    ensures Inv(Next(s, Expire(key)).value, d)
  {
    var s' := Next(s, Expire(key)).value;
    forall g | g in s'.handles
      ensures HandleInv(s', g, d)
    {
      assert HandleInv(s, g, d);
    }
  }

  lemma TickKeeps(s: State, server: nat, clients: map<nat, nat>, d: Discipline)
    requires Inv(s, d) && Can(s, Tick(server, clients), d)
    ensures Inv(Next(s, Tick(server, clients)).value, d)
  {
    var s' := Next(s, Tick(server, clients)).value;
    forall g | g in s'.handles
      ensures HandleInv(s', g, d)
    {
      assert HandleInv(s, g, d);
      var x := s.handles[g];
      assert x.proc in clients && Clock(s', x) == Clock(s, x) + clients[x.proc];
    }
  }

  lemma StepKeeps(s: State, t: Step, d: Discipline)
    requires Inv(s, d) && Can(s, t, d)
    ensures Inv(Next(s, t).value, d)
  {
    hide Inv, Next, Obeys;
    match t
    case Begin(_, _, _, _, _, _) => BeginKeeps(s, t, d);
    case SetNX(h, replied) => SetNXKeeps(s, h, replied, d);
    case CleanUp(_, _) => OwnDeleteKeeps(s, t, d);
    case Unlock(_) => OwnDeleteKeeps(s, t, d);
    case StoreMutex(h) => StoreMutexKeeps(s, h, d);
    case GetMutex(h) => GetMutexKeeps(s, h, d);
    case UnlockFound(h, executed, replied) => UnlockFoundKeeps(s, h, executed, replied, d);
    case RemoveMutex(h) => RemoveMutexKeeps(s, h, d);
    case Expire(key) => ExpireKeeps(s, key, d);
    case Tick(server, clients) => TickKeeps(s, server, clients, d);
    case Conclude(h) => ConcludeKeeps(s, h, d);
    case StartRelease(_) => HolderStepKeeps(s, t, d);
    case BeginWrite(_) => HolderStepKeeps(s, t, d);
    case EndWrite(_) => HolderStepKeeps(s, t, d);
    case _ => TryStepKeeps(s, t, d);
  }

  lemma InvOfRun(s0: State, steps: seq<Step>, d: Discipline)
    requires IsInitial(s0)
    ensures Run(NextUnder(d), s0, steps).Some? ==> Inv(Run(NextUnder(d), s0, steps).value, d)
  {
    forall s, t | Inv(s, d) && NextUnder(d)(s, t).Some?
      ensures Inv(NextUnder(d)(s, t).value, d)
    {
      StepKeeps(s, t, d);
    }
    InvariantHolds(NextUnder(d), s => Inv(s, d), s0, steps);
  }

  // ---------- mutual exclusion ----------

  /** The drift that is taken off makes up for the fastest server clock, to the nanosecond. */
  lemma DriftCoversTheRate(ttl: nat, server: int, client: int)
    requires 99 * server <= 100 * client && client < ttl - Drift(ttl)
    ensures server < ttl
  {
    var q, r := ttl / 100, ttl % 100;
    assert ttl == 100 * q + r;
  }

  /** Nor is it more than that: a caller is before its deadline exactly when no server clock that keeps to
      the rate can have counted its lock to the end. */
  lemma DeadlineIsExact(s: State, x: Handle)
    requires x.ttl > 0 && Clock(s, x) >= x.start
    ensures BeforeDeadline(s, x) <==> forall server: nat | 99 * server <= 100 * (Clock(s, x) - x.start) :: server < x.ttl
  {
    var client := Clock(s, x) - x.start;
    if BeforeDeadline(s, x) {
      forall server: nat | 99 * server <= 100 * client ensures server < x.ttl { DriftCoversTheRate(x.ttl, server, client); }
    } else {
      var q, r := x.ttl / 100, x.ttl % 100;
      assert x.ttl == 100 * q + r;
      assert 99 * x.ttl <= 100 * client;
    }
  }

  lemma HolderIsInRedis(s: State, h: nat, d: Discipline)
    requires Inv(s, d) && h in s.handles && Protected(s.handles[h], d)
    requires Holding(s.handles[h].phase) && (BeforeDeadline(s, s.handles[h]) || Unexpired(s, s.handles[h]))
    ensures Owns(s.redis, s.now, s.handles[h].key, s.handles[h].token)
  {
    assert HandleInv(s, h, d);
    var x := s.handles[h];
    if BeforeDeadline(s, x) {
      DriftCoversTheRate(x.ttl, s.now - x.setAt, Clock(s, x) - x.start);
    }
  }

  lemma OneHolder(s: State, g: nat, h: nat, d: Discipline)
    requires Inv(s, d) && g in s.handles && h in s.handles && s.handles[g].key == s.handles[h].key
    requires Protected(s.handles[g], d) && Holding(s.handles[g].phase) && BeforeDeadline(s, s.handles[g])
    requires Protected(s.handles[h], d) && Holding(s.handles[h].phase) && BeforeDeadline(s, s.handles[h])
    ensures g == h
  {
    HolderIsInRedis(s, g, d);
    HolderIsInRedis(s, h, d);
  }

  /** In every run, whatever the users of the key API do on the same keys, no two handles that
      AcquireLockWithRetry returned for one key are both before their deadlines. */
  lemma MutualExclusion(s0: State, steps: seq<Step>, s: State, g: nat, h: nat)
    requires IsInitial(s0) && Run(NextUnder(Free), s0, steps) == Some(s)
    requires g in s.handles && s.handles[g].api == ByHandle && s.handles[g].phase.Held? && BeforeDeadline(s, s.handles[g])
    requires h in s.handles && s.handles[h].api == ByHandle && s.handles[h].phase.Held? && BeforeDeadline(s, s.handles[h])
    requires s.handles[g].key == s.handles[h].key
    ensures g == h
  {
    InvOfRun(s0, steps, Free);
    OneHolder(s, g, h, Free);
  }

  /** In every run with timely releases the same holds for all holders, of either API, up to the
      moment at which their ReleaseLock unlocks. */
  lemma MutualExclusionForAll(s0: State, steps: seq<Step>, s: State, g: nat, h: nat, d: Discipline)
    requires !d.Free? && IsInitial(s0) && Run(NextUnder(d), s0, steps) == Some(s)
    requires g in s.handles && Holding(s.handles[g].phase) && BeforeDeadline(s, s.handles[g])
    requires h in s.handles && Holding(s.handles[h].phase) && BeforeDeadline(s, s.handles[h])
    requires s.handles[g].key == s.handles[h].key
    ensures g == h
  {
    InvOfRun(s0, steps, d);
    OneHolder(s, g, h, d);
  }

  // ---------- what is removed ----------

  /** The key and token of the compare-and-delete that a step sends, if it sends one. */
  function Deletes(s: State, t: Step): Option<(string, nat)>
    requires Next(s, t).Some?
  {
    if t.CleanUp? || t.Unlock? then Some((s.handles[t.h].key, s.handles[t.h].token))
    else if t.UnlockFound? then
      var f := s.handles[s.handles[t.h].phase.handle];
      Some((f.key, f.token))
    else None
  }

  /** No step, whatever the state, takes away or rewrites a key that is still in force, except
      a compare-and-delete that carries the token it was set with. */
  lemma OnlyItsTokenRemoves(s: State, t: Step, key: string)
    requires Next(s, t).Some? && Live(s.redis, s.now, key)
    ensures var s' := Next(s, t).value;
            (key in s'.redis && s'.redis[key] == s.redis[key]) || Deletes(s, t) == Some((key, s.redis[key].token))
  {
  }

  /** A timely ReleaseLock finds its caller's own handle, or nothing, or, when a slow caller
      has put a spent handle into the map, that one; if no caller is slow, never the last. */
  lemma ReleaseLockFinds(s0: State, steps: seq<Step>, s: State, h: nat, d: Discipline)
    requires !d.Free? && IsInitial(s0) && Run(NextUnder(d), s0, steps) == Some(s)
    requires NextUnder(d)(s, GetMutex(h)).Some?
    ensures var phase := Next(s, GetMutex(h)).value.handles[h].phase;
            && (phase in {Found(h), Released} || (phase.Found? && phase.handle in s.handles && Spent(s, phase.handle)))
            && (d.TimelyThroughout? ==> phase in {Found(h), Released})
  {
    InvOfRun(s0, steps, d);
    assert HandleInv(s, h, d);
  }

  /** So with timely releases no step removes a key in force but a compare-and-delete by the
      very caller that set it. */
  lemma RemovalIsOwn(s0: State, steps: seq<Step>, s: State, t: Step, key: string, d: Discipline)
    requires !d.Free? && IsInitial(s0) && Run(NextUnder(d), s0, steps) == Some(s)
    requires NextUnder(d)(s, t).Some? && Live(s.redis, s.now, key)
    ensures var s' := Next(s, t).value;
            || (key in s'.redis && s'.redis[key] == s.redis[key])
            || ((t.CleanUp? || t.Unlock? || t.UnlockFound?) && s.handles[t.h].key == key && s.handles[t.h].token == s.redis[key].token)
  {
    InvOfRun(s0, steps, d);
    OnlyItsTokenRemoves(s, t, key);
    if t.UnlockFound? { assert HandleInv(s, t.h, d); }
  }

  // ---------- writes ----------

  /** From then on its deadline stands still while its clock goes on. */
  ghost predicate LaterOf(s: State, s': State, h: nat) {
    && h in s.handles && h in s'.handles
    && Settled(s'.handles[h].phase) && Deadline(s'.handles[h]) == Deadline(s.handles[h])
    && Clock(s', s'.handles[h]) >= Clock(s, s.handles[h])
  }

  lemma StepIsLater(s: State, t: Step, h: nat)
    requires h in s.handles && Settled(s.handles[h].phase) && Next(s, t).Some?
    ensures LaterOf(s, Next(s, t).value, h)
  {
    StepLeavesDeadline(s, t, h);
    if t.Tick? {
      TickIsLater(s, t.server, t.clients, h);
    } else {
      hide Next, Settled;
      assert Next(s, t).value.clocks == s.clocks by { OnlyTicksMoveClocks(s, t); }
    }
  }

  lemma StepLeavesDeadline(s: State, t: Step, h: nat)
    requires h in s.handles && Settled(s.handles[h].phase) && Next(s, t).Some?
    ensures h in Next(s, t).value.handles
    ensures var x, y := s.handles[h], Next(s, t).value.handles[h];
            Settled(y.phase) && y.proc == x.proc && y.start == x.start && y.ttl == x.ttl
  {
    hide Live, Owns, SetIfFree, DeleteIfOwner;
  }

  lemma OnlyTicksMoveClocks(s: State, t: Step)
    requires Next(s, t).Some? && !t.Tick?
    ensures Next(s, t).value.clocks == s.clocks
  {
    hide Live, Owns, SetIfFree, DeleteIfOwner;
  }

  lemma TickIsLater(s: State, server: nat, clients: map<nat, nat>, h: nat)
    requires h in s.handles && Next(s, Tick(server, clients)).Some?
    ensures Clock(Next(s, Tick(server, clients)).value, s.handles[h]) >= Clock(s, s.handles[h])
    ensures Next(s, Tick(server, clients)).value.handles == s.handles
  {
  }

  lemma {:induction false} RunIsLater(s0: State, steps: seq<Step>, k: nat, n: nat, h: nat, d: Discipline)
    requires k <= n <= |steps| && Run(NextUnder(d), s0, steps[..n]).Some? && Run(NextUnder(d), s0, steps[..k]).Some?
    requires var m := Run(NextUnder(d), s0, steps[..k]).value; h in m.handles && Settled(m.handles[h].phase)
    ensures LaterOf(Run(NextUnder(d), s0, steps[..k]).value, Run(NextUnder(d), s0, steps[..n]).value, h)
  {
    if k < n {
      assert steps[..n][..n - 1] == steps[..n - 1];
      RunIsLater(s0, steps, k, n - 1, h, d);
      StepIsLater(Run(NextUnder(d), s0, steps[..n - 1]).value, steps[n - 1], h);
    }
  }

  /** The state of a run after its first `n` steps. */
  ghost function After(s0: State, steps: seq<Step>, n: nat, d: Discipline): State
    requires n <= |steps| && Run(NextUnder(d), s0, steps).Some?
  {
    RunPrefix(NextUnder(d), s0, steps, n);
    Run(NextUnder(d), s0, steps[..n]).value
  }

  /** Two writes of StoreRedisWithLock to one id that both end before their deadlines are never
      under way at the same time: if at moment k two callers are writing, and each is still
      before its deadline at a moment at which its write ends, they are the same caller. */
  lemma WritesDoNotOverlap(s0: State, steps: seq<Step>, k: nat, i: nat, j: nat, g: nat, h: nat, d: Discipline)
    requires !d.Free? && IsInitial(s0) && Run(NextUnder(d), s0, steps).Some? && k <= i <= |steps| && k <= j <= |steps|
    requires var m := After(s0, steps, k, d);
             In(m, g, Writing) && In(m, h, Writing) && m.handles[g].key == m.handles[h].key
    requires var m := After(s0, steps, i, d); g in m.handles && BeforeDeadline(m, m.handles[g])
    requires var m := After(s0, steps, j, d); h in m.handles && BeforeDeadline(m, m.handles[h])
    ensures g == h
  {
    hide Next, Run;
    var m := After(s0, steps, k, d);
    RunPrefix(NextUnder(d), s0, steps, k);
    RunPrefix(NextUnder(d), s0, steps, i);
    RunPrefix(NextUnder(d), s0, steps, j);
    RunIsLater(s0, steps, k, i, g, d);
    RunIsLater(s0, steps, k, j, h, d);
    MutualExclusionForAll(s0, steps[..k], m, g, h, d);
  }
}
