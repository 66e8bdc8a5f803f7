/**
 The lock with commands that reach Redis only after the call that sent them has gone on, for which
 one token in all tries of a LockContext is dangerous.
 */
module RedisLockDelayed {
  import opened Wrappers
  import opened Runs
  import opened RedisLock
  import opened RedisLockSafety

  /** A compare-and-delete on its way. */
  datatype Delete = Delete(key: string, token: nat)

  /** A SET NX on its way. */
  datatype Set = Set(key: string, token: nat, ttl: nat)

  /** The callers that have begun a try, and those that have gone on without the answer to a
      clean-up. */
  datatype Past = Past(tried: set<nat>, unsure: set<nat>)

  datatype Delayed = Delayed(now: State, pending: multiset<Delete>, sets: multiset<Set>, past: Past)

  datatype Event =
    | Do(t: Step)
    | DelaySet(h: nat)           // LockContext takes its try for failed
    | DelayCleanUp(h: nat)       // LockContext goes on to its next try
    | DelayUnlock(h: nat)        // ReleaseLockWithRetry goes on
    | DelayUnlockFound(h: nat)   // ReleaseLock returns an error
    | Land(d: Delete)
    | LandSet(x: Set)

  function OwnDelete(x: Handle): Delete { Delete(x.key, x.token) }

  function Advance(s: Delayed, e: Event): Option<Delayed> {
    match e
    case Do(t) =>
      (match Next(s.now, t)
       case None => None
       case Some(m) => Some(s.(now := m, past := if t.StartTry? then s.past.(tried := s.past.tried + {t.h}) else s.past)))
    case DelaySet(h) =>
      if In(s.now, h, Sent) then
        var x := s.now.handles[h];
        Some(s.(now := Become(s.now, h, Answered(false)), sets := s.sets + multiset{Set(x.key, x.token, x.ttl)}))
      else None
    case DelayCleanUp(h) =>
      if In(s.now, h, Cleanup) then
        Some(s.(now := Become(s.now, h, Idle), pending := s.pending + multiset{OwnDelete(s.now.handles[h])},
                past := s.past.(unsure := s.past.unsure + {h})))
      else None
    case DelayUnlock(h) =>
      if In(s.now, h, Releasing) then Some(s.(pending := s.pending + multiset{OwnDelete(s.now.handles[h])})) else None
    case DelayUnlockFound(h) =>
      if h in s.now.handles && s.now.handles[h].phase.Found? && s.now.handles[h].phase.handle in s.now.handles then
        var x := s.now.handles[s.now.handles[h].phase.handle];
        Some(s.(now := Become(s.now, h, Released), pending := s.pending + multiset{OwnDelete(x)}))
      else None
    case Land(d) =>
      if d in s.pending then
        Some(s.(now := s.now.(redis := DeleteIfOwner(s.now.redis, s.now.now, d.key, d.token)), pending := s.pending - multiset{d}))
      else None
    case LandSet(x) =>
      if x in s.sets then
        Some(s.(now := s.now.(redis := SetIfFree(s.now.redis, s.now.now, x.key, x.token, x.ttl)), sets := s.sets - multiset{x}))
      else None
  }

  /** What the callers of the handle API, or the network for them, keep to. */
  datatype Policy = Anyhow | Ordered | Careful | OneTry

  predicate ByHandleCaller(s: State, h: nat) { h in s.handles && s.handles[h].api == ByHandle }

  /** Ordered: no SET NX takes effect while a compare-and-delete of the same token is on its way.
      Careful: no caller begins a try after it has gone on without the answer to a clean-up.
      OneTry: no caller begins a second try. */
  predicate Allows(s: Delayed, e: Event, p: Policy) {
    match p
    case Anyhow => true
    case Ordered => e.Do? && e.t.SetNX? && ByHandleCaller(s.now, e.t.h) ==> OwnDelete(s.now.handles[e.t.h]) !in s.pending
    case Careful => e.Do? && e.t.StartTry? && ByHandleCaller(s.now, e.t.h) ==> e.t.h !in s.past.unsure
    case OneTry => e.Do? && e.t.StartTry? && ByHandleCaller(s.now, e.t.h) ==> e.t.h !in s.past.tried
  }

  function AdvanceBy(p: Policy): (Delayed, Event) -> Option<Delayed> {
    (s, e) => if Allows(s, e, p) then Advance(s, e) else None
  }

  predicate Fresh(s: Delayed) {
    IsInitial(s.now) && s.pending == multiset{} && s.sets == multiset{} && s.past == Past({}, {})
  }

  // ---------- what every event keeps ----------

  /** What ReleaseLock has found is a handle of the key API. */
  predicate FoundIsByKey(s: State, x: Handle) {
    x.phase.Found? ==> x.phase.handle in s.handles && s.handles[x.phase.handle].api == ByKey
  }

  ghost predicate Sane(s: State) {
    && TokensDiffer(s) && MapsHold(s)
    && forall h | h in s.handles :: s.handles[h].proc in s.clocks && s.handles[h].ttl > 0 && FoundIsByKey(s, s.handles[h])
  }

  /** A delete on its way carries the key and the token of a caller. */
  ghost predicate Known(s: State, d: Delete) {
    exists g :: g in s.handles && OwnDelete(s.handles[g]) == d
  }

  ghost predicate SaneInv(s: Delayed) {
    Sane(s.now) && forall d | d in s.pending :: Known(s.now, d)
  }

  /** No handle loses its name, and none but a new one gets one. */
  ghost predicate SameNames(s: State, m: State) {
    forall g | g in s.handles ::
      && g in m.handles && m.handles[g].key == s.handles[g].key && m.handles[g].token == s.handles[g].token
      && m.handles[g].api == s.handles[g].api && m.handles[g].proc == s.handles[g].proc
  }

  lemma StepNames(s: State, t: Step)
    requires Next(s, t).Some?
    ensures SameNames(s, Next(s, t).value)
  {
    hide Live, Owns, SetIfFree, DeleteIfOwner, BeforeDeadline, FreshToken, RatesFit;
  }

  lemma SaneTokens(s: State, t: Step)
    requires Next(s, t).Some? && TokensDiffer(s)
    ensures TokensDiffer(Next(s, t).value)
  {
    hide Live, Owns, SetIfFree, DeleteIfOwner, BeforeDeadline, RatesFit;
    if !t.Begin? {
      OldHandles(s, t);
      StepNames(s, t);
      hide Next;
    }
  }

  lemma OldHandles(s: State, t: Step)
    requires Next(s, t).Some? && !t.Begin?
    ensures Next(s, t).value.handles.Keys == s.handles.Keys
  {
    hide Live, Owns, SetIfFree, DeleteIfOwner, BeforeDeadline, FreshToken, RatesFit;
  }

  lemma SaneMaps(s: State, t: Step)
    requires Next(s, t).Some? && MapsHold(s)
    ensures MapsHold(Next(s, t).value)
  {
    hide Live, Owns, SetIfFree, DeleteIfOwner, BeforeDeadline, RatesFit;
    if !t.StoreMutex? && !t.RemoveMutex? {
      StepNames(s, t);
      assert Next(s, t).value.maps == s.maps;
      hide Next;
    }
  }

  lemma SaneHandle(s: State, t: Step, h: nat)
    requires Next(s, t).Some? && MapsHold(s) && h in Next(s, t).value.handles
    requires h in s.handles ==> s.handles[h].proc in s.clocks && s.handles[h].ttl > 0 && FoundIsByKey(s, s.handles[h])
    ensures Next(s, t).value.handles[h].proc in Next(s, t).value.clocks && Next(s, t).value.handles[h].ttl > 0
    ensures FoundIsByKey(Next(s, t).value, Next(s, t).value.handles[h])
  {
    hide Live, Owns, SetIfFree, DeleteIfOwner, BeforeDeadline;
    StepNames(s, t);
  }

  lemma SaneStep(s: State, t: Step)
    requires Sane(s) && Next(s, t).Some?
    ensures Sane(Next(s, t).value)
  {
    hide Next, FoundIsByKey, TokensDiffer, MapsHold;
    SaneTokens(s, t);
    SaneMaps(s, t);
    forall h | h in Next(s, t).value.handles
      ensures Next(s, t).value.handles[h].proc in Next(s, t).value.clocks && Next(s, t).value.handles[h].ttl > 0
      ensures FoundIsByKey(Next(s, t).value, Next(s, t).value.handles[h])
    {
      SaneHandle(s, t, h);
    }
  }

  lemma SaneBecome(s: State, h: nat, phase: Phase)
    requires Sane(s) && h in s.handles && !phase.Found?
    ensures Sane(Become(s, h, phase)) && SameNames(s, Become(s, h, phase))
  {
    forall g | g in s.handles ensures FoundIsByKey(Become(s, h, phase), Become(s, h, phase).handles[g]) {
      assert FoundIsByKey(s, s.handles[g]);
    }
  }

  lemma KnownStays(s: State, m: State, d: Delete)
    requires Known(s, d) && SameNames(s, m)
    ensures Known(m, d)
  {
    var g :| g in s.handles && OwnDelete(s.handles[g]) == d;
    assert g in m.handles && OwnDelete(m.handles[g]) == d;
  }

  /** Names go on, and what is added to the deletes is some caller's own. */
  lemma KnownGoOn(s: Delayed, m: Delayed, h: nat)
    requires SaneInv(s) && SameNames(s.now, m.now) && h in s.now.handles
    requires m.pending <= s.pending + multiset{OwnDelete(s.now.handles[h])}
    ensures forall d | d in m.pending :: Known(m.now, d)
  {
    hide SameNames, Sane;
    forall d | d in m.pending ensures Known(m.now, d) {
      if d == OwnDelete(s.now.handles[h]) { assert Known(s.now, d); } else { assert d in s.pending; }
      KnownStays(s.now, m.now, d);
    }
  }

  lemma SaneAdvance(s: Delayed, e: Event)
    requires SaneInv(s) && Advance(s, e).Some?
    ensures SaneInv(Advance(s, e).value) && SameNames(s.now, Advance(s, e).value.now)
  {
    hide Next, Become, Sane, Known, SameNames;
    var m := Advance(s, e).value;
    match e
    case Do(t) =>
      SaneStep(s.now, t);
      StepNames(s.now, t);
      forall d | d in m.pending ensures Known(m.now, d) { KnownStays(s.now, m.now, d); }
    case DelaySet(h) =>
      SaneBecome(s.now, h, Answered(false));
      forall d | d in m.pending ensures Known(m.now, d) { KnownStays(s.now, m.now, d); }
    case DelayCleanUp(h) =>
      SaneBecome(s.now, h, Idle);
      KnownGoOn(s, m, h);
    case DelayUnlock(h) =>
      SameState(s.now);
      KnownGoOn(s, m, h);
    case DelayUnlockFound(h) =>
      SaneBecome(s.now, h, Released);
      KnownGoOn(s, m, s.now.handles[h].phase.handle);
    case Land(d) =>
      SaneRedis(s.now, m.now.redis);
      forall e | e in m.pending ensures Known(m.now, e) { KnownStays(s.now, m.now, e); }
    case LandSet(x) =>
      SaneRedis(s.now, m.now.redis);
      forall d | d in m.pending ensures Known(m.now, d) { KnownStays(s.now, m.now, d); }
  }

  lemma SameState(s: State)
    ensures SameNames(s, s)
  {
  }

  lemma SaneRedis(s: State, redis: Redis)
    requires Sane(s)
    ensures Sane(s.(redis := redis)) && SameNames(s, s.(redis := redis))
  {
  }

  lemma SaneOfRun(s0: Delayed, events: seq<Event>, s: Delayed, p: Policy)
    requires Fresh(s0) && Run(AdvanceBy(p), s0, events) == Some(s)
    ensures SaneInv(s)
  {
    hide Run, Advance, Allows;
    assert SaneInv(s0);
    hide SaneInv;
    forall m, e | SaneInv(m) && AdvanceBy(p)(m, e).Some? ensures SaneInv(AdvanceBy(p)(m, e).value) {
      SaneAdvance(m, e);
    }
    InvariantHolds(AdvanceBy(p), m => SaneInv(m), s0, events);
  }

  // ---------- exclusion ----------

  /** A lock of the handle API is in Redis as long as its caller may count on it. */
  predicate HolderFits(s: State, x: Handle) {
    x.api == ByHandle ==>
      && (x.phase.Sent? ==> x.start <= Clock(s, x))
      && (Holding(x.phase) ==> Timed(s, x) && Covered(s.redis, s.now, x))
  }

  ghost predicate HoldersFit(s: State) {
    forall g | g in s.handles :: HolderFits(s, s.handles[g])
  }

  lemma HolderOwnStep(s: State, t: Step, g: nat)
    requires Next(s, t).Some? && g in Next(s, t).value.handles && !t.Expire? && !t.Tick? && t.h == g
    requires g in s.handles ==> HolderFits(s, s.handles[g])
    ensures HolderFits(Next(s, t).value, Next(s, t).value.handles[g])
  {
  }

  lemma OtherStaysTheSame(s: State, t: Step, g: nat)
    requires Next(s, t).Some? && g in s.handles && !t.Expire? && !t.Tick? && t.h != g
    ensures var m := Next(s, t).value; g in m.handles && m.handles[g] == s.handles[g] && m.now == s.now && m.clocks == s.clocks
  {
    hide Live, Owns, SetIfFree, DeleteIfOwner, BeforeDeadline, FreshToken, RatesFit;
  }

  /** Another's command leaves the holder's entry where it is. */
  lemma OthersCommand(s: State, t: Step, g: nat)
    requires Sane(s) && Next(s, t).Some? && g in s.handles && !t.Expire? && !t.Tick? && t.h != g
    requires s.handles[g].api == ByHandle && Covered(s.redis, s.now, s.handles[g])
    ensures Covered(Next(s, t).value.redis, s.now, s.handles[g])
  {
    var x := s.handles[g];
    if t.SetNX? {
      SetKeeps(s.redis, s.now, s.handles[t.h].key, s.handles[t.h].token, s.handles[t.h].ttl, x);
    } else if t.CleanUp? || t.Unlock? {
      OthersDelete(s, t.h, g);
    } else if t.UnlockFound? {
      FoundByKey(s, t.h);
      OthersDelete(s, s.handles[t.h].phase.handle, g);
    } else {
      RedisStays(s, t);
    }
  }

  lemma OthersDelete(s: State, f: nat, g: nat)
    requires Sane(s) && f in s.handles && g in s.handles && f != g && Covered(s.redis, s.now, s.handles[g])
    ensures Covered(DeleteIfOwner(s.redis, s.now, s.handles[f].key, s.handles[f].token), s.now, s.handles[g])
  {
    assert TokensDiffer(s);
  }

  lemma RedisStays(s: State, t: Step)
    requires Next(s, t).Some? && !t.SetNX? && !t.CleanUp? && !t.Unlock? && !t.UnlockFound? && !t.Expire?
    ensures Next(s, t).value.redis == s.redis
  {
    hide Live, Owns, SetIfFree, DeleteIfOwner, BeforeDeadline, FreshToken, RatesFit;
  }

  /** Another's step leaves the holder as it is and its entry where it is. */
  lemma HolderOtherStep(s: State, t: Step, g: nat)
    requires Sane(s) && Next(s, t).Some? && g in s.handles && !t.Expire? && !t.Tick? && t.h != g && HolderFits(s, s.handles[g])
    ensures HolderFits(Next(s, t).value, s.handles[g]) && g in Next(s, t).value.handles && Next(s, t).value.handles[g] == s.handles[g]
  {
    hide Next, Sane, Covered, Holding;
    OtherStaysTheSame(s, t, g);
    if s.handles[g].api == ByHandle && Holding(s.handles[g].phase) { OthersCommand(s, t, g); }
  }

  lemma HolderTime(s: State, t: Step, g: nat)
    requires Sane(s) && Next(s, t).Some? && g in s.handles && (t.Expire? || t.Tick?) && HolderFits(s, s.handles[g])
    ensures HolderFits(Next(s, t).value, s.handles[g]) && Next(s, t).value.handles == s.handles
  {
    var x, m := s.handles[g], Next(s, t).value;
    if t.Tick? { assert Clock(m, x) == Clock(s, x) + t.clients[x.proc]; }
  }

  lemma HoldersStep(s: State, t: Step)
    requires Sane(s) && HoldersFit(s) && Next(s, t).Some?
    ensures HoldersFit(Next(s, t).value)
  {
    hide Next, HolderFits, Sane;
    var m := Next(s, t).value;
    forall g | g in m.handles ensures HolderFits(m, m.handles[g]) {
      if t.Expire? || t.Tick? {
        assert m.handles == s.handles by { OldHandles(s, t); HandlesInTime(s, t); }
        HolderTime(s, t, g);
      } else if t.h == g {
        HolderOwnStep(s, t, g);
      } else {
        NewIsOwn(s, t, g);
        HolderOtherStep(s, t, g);
      }
    }
  }

  lemma HandlesInTime(s: State, t: Step)
    requires Next(s, t).Some? && (t.Expire? || t.Tick?)
    ensures Next(s, t).value.handles == s.handles
  {
  }

  lemma NewIsOwn(s: State, t: Step, g: nat)
    requires Next(s, t).Some? && !t.Expire? && !t.Tick? && t.h != g && g in Next(s, t).value.handles
    ensures g in s.handles
  {
    hide Live, Owns, SetIfFree, DeleteIfOwner, BeforeDeadline, FreshToken, RatesFit;
  }

  /** No delete on its way is that of a lock which AcquireLockWithRetry may have got. */
  ghost predicate NoneEndangered(s: Delayed) {
    forall g | ByHandleCaller(s.now, g) && OwnDelete(s.now.handles[g]) in s.pending :: !Holding(s.now.handles[g].phase)
  }

  ghost predicate OrderedInv(s: Delayed) {
    SaneInv(s) && HoldersFit(s.now) && NoneEndangered(s)
  }

  /** Only a SET NX gives a caller of the handle API a lock. */
  lemma OnlySetNXGives(s: State, t: Step, g: nat)
    requires Next(s, t).Some? && ByHandleCaller(Next(s, t).value, g) && Holding(Next(s, t).value.handles[g].phase)
    ensures ByHandleCaller(s, g) && OwnDelete(s.handles[g]) == OwnDelete(Next(s, t).value.handles[g])
    ensures Holding(s.handles[g].phase) || (t.SetNX? && t.h == g)
  {
    hide Live, Owns, SetIfFree, DeleteIfOwner, BeforeDeadline, FreshToken, RatesFit;
  }

  lemma OrderedDo(s: Delayed, t: Step)
    requires OrderedInv(s) && Allows(s, Do(t), Ordered) && Next(s.now, t).Some?
    ensures HoldersFit(Next(s.now, t).value) && NoneEndangered(s.(now := Next(s.now, t).value))
  {
    hide Next, Sane, HoldersFit, Holding;
    HoldersStep(s.now, t);
    var m := Next(s.now, t).value;
    forall g | ByHandleCaller(m, g) && OwnDelete(m.handles[g]) in s.pending ensures !Holding(m.handles[g].phase) {
      if Holding(m.handles[g].phase) { OnlySetNXGives(s.now, t, g); }
    }
  }

  /** A caller goes on without a lock. */
  lemma OrderedBecome(s: Delayed, h: nat, phase: Phase)
    requires OrderedInv(s) && h in s.now.handles && !Holding(phase) && !phase.Sent?
    ensures HoldersFit(Become(s.now, h, phase)) && NoneEndangered(s.(now := Become(s.now, h, phase)))
  {
    hide Holding, Sane;
    forall g | g in s.now.handles ensures HolderFits(Become(s.now, h, phase), Become(s.now, h, phase).handles[g]) {
      assert HolderFits(s.now, s.now.handles[g]);
    }
  }

  lemma OneOwner(s: State, f: nat, g: nat)
    requires Sane(s) && f in s.handles && g in s.handles && OwnDelete(s.handles[f]) == OwnDelete(s.handles[g])
    ensures f == g
  {
    assert TokensDiffer(s);
  }

  /** One more delete on its way, of a caller that has no lock of the handle API. */
  lemma OrderedSends(s: Delayed, h: nat)
    requires Sane(s.now) && NoneEndangered(s) && h in s.now.handles
    requires ByHandleCaller(s.now, h) ==> !Holding(s.now.handles[h].phase)
    ensures NoneEndangered(s.(pending := s.pending + multiset{OwnDelete(s.now.handles[h])}))
  {
    hide Sane, Holding;
    forall g | ByHandleCaller(s.now, g) && OwnDelete(s.now.handles[g]) == OwnDelete(s.now.handles[h]) ensures g == h {
      OneOwner(s.now, g, h);
    }
  }

  lemma OrderedDelays(s: Delayed, e: Event)
    requires OrderedInv(s) && Advance(s, e).Some? && (e.DelaySet? || e.DelayCleanUp? || e.DelayUnlock? || e.DelayUnlockFound?)
    ensures HoldersFit(Advance(s, e).value.now) && NoneEndangered(Advance(s, e).value)
  {
    hide HoldersFit, Sane, NoneEndangered;
    match e
    case DelaySet(h) =>
      OrderedBecome(s, h, Answered(false));
      SameDanger(s.(now := Become(s.now, h, Answered(false))), Advance(s, e).value);
    case DelayCleanUp(h) =>
      OrderedBecome(s, h, Idle);
      SaneBecome(s.now, h, Idle);
      var m := s.(now := Become(s.now, h, Idle));
      OrderedSends(m, h);
      SameDanger(m.(pending := s.pending + multiset{OwnDelete(s.now.handles[h])}), Advance(s, e).value);
    case DelayUnlock(h) =>
      OrderedSends(s, h);
    case DelayUnlockFound(h) =>
      var f := s.now.handles[h].phase.handle;
      FoundByKey(s.now, h);
      OrderedBecome(s, h, Released);
      SaneBecome(s.now, h, Released);
      var m := s.(now := Become(s.now, h, Released));
      OrderedSends(m, f);
      SameDanger(m.(pending := s.pending + multiset{OwnDelete(s.now.handles[f])}), Advance(s, e).value);
  }

  lemma FoundByKey(s: State, h: nat)
    requires Sane(s) && h in s.handles && s.handles[h].phase.Found?
    ensures s.handles[h].phase.handle in s.handles && s.handles[s.handles[h].phase.handle].api == ByKey
  {
    assert FoundIsByKey(s, s.handles[h]);
  }

  lemma SameDanger(s: Delayed, m: Delayed)
    requires NoneEndangered(s) && m.now == s.now && m.pending == s.pending
    ensures NoneEndangered(m)
  {
  }

  lemma OrderedLands(s: Delayed, d: Delete)
    requires OrderedInv(s) && d in s.pending
    ensures HoldersFit(s.now.(redis := DeleteIfOwner(s.now.redis, s.now.now, d.key, d.token)))
  {
    hide Sane;
    var m := s.now.(redis := DeleteIfOwner(s.now.redis, s.now.now, d.key, d.token));
    forall g | g in m.handles ensures HolderFits(m, m.handles[g]) {
      assert HolderFits(s.now, s.now.handles[g]);
      assert ByHandleCaller(s.now, g) && Holding(s.now.handles[g].phase) ==> OwnDelete(s.now.handles[g]) != d;
    }
  }

  lemma OrderedLandsSet(s: State, x: Set)
    requires HoldersFit(s)
    ensures HoldersFit(s.(redis := SetIfFree(s.redis, s.now, x.key, x.token, x.ttl)))
  {
    var m := s.(redis := SetIfFree(s.redis, s.now, x.key, x.token, x.ttl));
    forall g | g in m.handles ensures HolderFits(m, m.handles[g]) {
      assert HolderFits(s, s.handles[g]);
    }
  }

  lemma AdvanceKeeps(s: Delayed, e: Event)
    requires OrderedInv(s) && AdvanceBy(Ordered)(s, e).Some?
    ensures OrderedInv(AdvanceBy(Ordered)(s, e).value)
  {
    hide SaneInv, Next, Become, HoldersFit, Allows;
    SaneAdvance(s, e);
    match e
    case Do(t) =>
      hide NoneEndangered;
      OrderedDo(s, t);
      SameDanger(s.(now := Next(s.now, t).value), Advance(s, e).value);
    case Land(d) => OrderedLands(s, d);
    case LandSet(x) => OrderedLandsSet(s.now, x);
    case _ =>
      hide NoneEndangered;
      OrderedDelays(s, e);
  }

  lemma OrderedOfRun(s0: Delayed, events: seq<Event>, s: Delayed)
    requires Fresh(s0) && Run(AdvanceBy(Ordered), s0, events) == Some(s)
    ensures OrderedInv(s)
  {
    hide Run, Advance, Allows;
    assert OrderedInv(s0);
    hide OrderedInv;
    forall m, e | OrderedInv(m) && AdvanceBy(Ordered)(m, e).Some? ensures OrderedInv(AdvanceBy(Ordered)(m, e).value) {
      AdvanceKeeps(m, e);
    }
    InvariantHolds(AdvanceBy(Ordered), m => OrderedInv(m), s0, events);
  }

  /** A handle that AcquireLockWithRetry has returned, before its deadline. */
  predicate Counts(s: State, g: nat) {
    ByHandleCaller(s, g) && s.handles[g].phase.Held? && BeforeDeadline(s, s.handles[g])
  }

  lemma CounterOwns(s: State, g: nat)
    requires HoldersFit(s) && Counts(s, g)
    ensures Owns(s.redis, s.now, s.handles[g].key, s.handles[g].token)
  {
    var x := s.handles[g];
    assert HolderFits(s, x);
    DriftCoversTheRate(x.ttl, s.now - x.setAt, Clock(s, x) - x.start);
  }

  /** Mutual exclusion of the handle API with late commands, when no SET NX takes effect while a
      compare-and-delete of the same token is on its way. */
  lemma DelayedMutualExclusion(s0: Delayed, events: seq<Event>, s: Delayed, g: nat, h: nat)
    requires Fresh(s0) && Run(AdvanceBy(Ordered), s0, events) == Some(s)
    requires Counts(s.now, g) && Counts(s.now, h) && s.now.handles[g].key == s.now.handles[h].key
    ensures g == h
  {
    hide Run, Advance, HoldersFit;
    OrderedOfRun(s0, events, s);
    CounterOwns(s.now, g);
    CounterOwns(s.now, h);
    OneOwner(s.now, g, h);
  }

  // ---------- what a caller can do for it ----------

  /** A caller of the handle API whose delete is on its way has gone on unsure and is not trying,
      or is giving its lock back. */
  ghost predicate Slow(s: Delayed, g: nat) {
    ByHandleCaller(s.now, g) && OwnDelete(s.now.handles[g]) in s.pending ==>
      (s.now.handles[g].phase in {Idle, Failed} && g in s.past.unsure) || s.now.handles[g].phase.Releasing?
  }

  ghost predicate CarefulInv(s: Delayed) {
    SaneInv(s) && forall g :: Slow(s, g)
  }

  /** From such a place a caller of the handle API only gives up, or begins a try. */
  lemma SlowGoesOn(s: State, t: Step, g: nat)
    requires Next(s, t).Some? && ByHandleCaller(s, g) && s.handles[g].phase in {Idle, Failed, Releasing}
    ensures ByHandleCaller(Next(s, t).value, g) && OwnDelete(Next(s, t).value.handles[g]) == OwnDelete(s.handles[g])
    ensures var phase := Next(s, t).value.handles[g].phase;
            || (s.handles[g].phase.Releasing? && phase.Releasing?)
            || (!s.handles[g].phase.Releasing? && phase in {Idle, Failed})
            || (s.handles[g].phase.Idle? && t == StartTry(g))
  {
    hide Live, Owns, SetIfFree, DeleteIfOwner, BeforeDeadline, FreshToken, RatesFit;
  }

  /** A new caller's token is none that is on its way. */
  lemma NewIsNotKnown(s: Delayed, t: Step, g: nat)
    requires SaneInv(s) && Next(s.now, t).Some? && g in Next(s.now, t).value.handles && g !in s.now.handles
    ensures OwnDelete(Next(s.now, t).value.handles[g]) !in s.pending
  {
    if !t.Begin? { OldHandles(s.now, t); }
    assert t.Begin? && t.h == g;
    assert forall d | d in s.pending :: Known(s.now, d);
  }

  lemma CarefulDo(s: Delayed, t: Step, g: nat)
    requires CarefulInv(s) && Allows(s, Do(t), Careful) && Advance(s, Do(t)).Some?
    ensures Slow(Advance(s, Do(t)).value, g)
  {
    hide Next, Sane;
    var m := Advance(s, Do(t)).value;
    if g in m.now.handles {
      if g !in s.now.handles {
        NewIsNotKnown(s, t, g);
      } else {
        StepNames(s.now, t);
        assert Slow(s, g);
        if ByHandleCaller(s.now, g) && OwnDelete(s.now.handles[g]) in s.pending {
          SlowGoesOn(s.now, t, g);
        }
      }
    }
  }

  /** One more delete on its way, of a caller that is `Slow` with it. */
  lemma SlowSends(s: Delayed, h: nat, g: nat)
    requires Sane(s.now) && Slow(s, g) && h in s.now.handles
    requires ByHandleCaller(s.now, h) ==>
               (s.now.handles[h].phase in {Idle, Failed} && h in s.past.unsure) || s.now.handles[h].phase.Releasing?
    ensures Slow(s.(pending := s.pending + multiset{OwnDelete(s.now.handles[h])}), g)
  {
    hide Sane;
    if ByHandleCaller(s.now, g) && OwnDelete(s.now.handles[g]) == OwnDelete(s.now.handles[h]) { OneOwner(s.now, g, h); }
  }

  /** A caller that goes on, and perhaps is unsure. */
  lemma SlowBecomes(s: Delayed, h: nat, phase: Phase, unsure: set<nat>, g: nat)
    requires h in s.now.handles && Slow(s, g) && s.past.unsure <= unsure
    requires s.now.handles[h].phase !in {Idle, Failed, Releasing}
    ensures Slow(s.(now := Become(s.now, h, phase), past := s.past.(unsure := unsure)), g)
  {
  }

  lemma SameSlow(s: Delayed, m: Delayed, g: nat)
    requires Slow(s, g) && m.now.handles == s.now.handles && m.pending <= s.pending && m.past == s.past
    ensures Slow(m, g)
  {
  }

  lemma CarefulCleanUp(s: Delayed, h: nat, g: nat)
    requires CarefulInv(s) && Advance(s, DelayCleanUp(h)).Some?
    ensures Slow(Advance(s, DelayCleanUp(h)).value, g)
  {
    hide Sane, Slow;
    assert Slow(s, g);
    var m := Advance(s, DelayCleanUp(h)).value;
    SlowBecomes(s, h, Idle, s.past.unsure + {h}, g);
    SaneBecome(s.now, h, Idle);
    assert Slow(s.(now := m.now, past := m.past), g);
    SlowSends(s.(now := m.now, past := m.past), h, g);
    SameSlow(s.(now := m.now, past := m.past, pending := s.pending + multiset{OwnDelete(m.now.handles[h])}), m, g);
  }

  lemma CarefulUnlockFound(s: Delayed, h: nat, g: nat)
    requires CarefulInv(s) && Advance(s, DelayUnlockFound(h)).Some?
    ensures Slow(Advance(s, DelayUnlockFound(h)).value, g)
  {
    hide Sane, Slow;
    assert Slow(s, g);
    var m, f := Advance(s, DelayUnlockFound(h)).value, s.now.handles[h].phase.handle;
    FoundByKey(s.now, h);
    SlowBecomes(s, h, Released, s.past.unsure, g);
    SaneBecome(s.now, h, Released);
    SlowSends(s.(now := m.now), f, g);
    SameSlow(s.(now := m.now, pending := s.pending + multiset{OwnDelete(m.now.handles[f])}), m, g);
  }

  lemma CarefulOther(s: Delayed, e: Event, g: nat)
    requires CarefulInv(s) && !e.Do? && Advance(s, e).Some?
    ensures Slow(Advance(s, e).value, g)
  {
    hide Sane, Slow;
    assert Slow(s, g);
    match e
    case DelaySet(h) =>
      SlowBecomes(s, h, Answered(false), s.past.unsure, g);
      SameSlow(s.(now := Become(s.now, h, Answered(false))), Advance(s, e).value, g);
    case DelayCleanUp(h) => CarefulCleanUp(s, h, g);
    case DelayUnlock(h) => SlowSends(s, h, g);
    case DelayUnlockFound(h) => CarefulUnlockFound(s, h, g);
    case Land(_) => SameSlow(s, Advance(s, e).value, g);
    case LandSet(_) => SameSlow(s, Advance(s, e).value, g);
  }

  lemma CarefulAdvance(s: Delayed, e: Event)
    requires CarefulInv(s) && AdvanceBy(Careful)(s, e).Some?
    ensures CarefulInv(AdvanceBy(Careful)(s, e).value) && Allows(s, e, Ordered)
  {
    assert Allows(s, e, Ordered) by {
      if e.Do? && e.t.SetNX? { assert Slow(s, e.t.h); }
    }
    hide Advance, Slow, SaneInv, Allows;
    SaneAdvance(s, e);
    forall g ensures Slow(Advance(s, e).value, g) {
      if e.Do? { CarefulDo(s, e.t, g); } else { CarefulOther(s, e, g); }
    }
  }

  lemma CarefulInitially(s: Delayed)
    requires Fresh(s)
    ensures CarefulInv(s)
  {
  }

  /** Runs in which the callers of the handle API are careful are among those in which their
      commands take effect in order. */
  lemma {:induction false} CarefulIsOrdered(s0: Delayed, events: seq<Event>, s: Delayed)
    requires Fresh(s0) && Run(AdvanceBy(Careful), s0, events) == Some(s)
    ensures Run(AdvanceBy(Ordered), s0, events) == Some(s) && CarefulInv(s)
  {
    hide Fresh, Advance, Allows, CarefulInv;
    if events == [] {
      CarefulInitially(s0);
    } else {
      var n := |events| - 1;
      var m := Run(AdvanceBy(Careful), s0, events[..n]).value;
      CarefulIsOrdered(s0, events[..n], m);
      CarefulAdvance(m, events[n]);
    }
  }

  /** A caller that stops trying once a clean-up has gone unanswered keeps exclusion, whatever the
      network delays.  (For a caller a clean-up is unanswered whenever the answer has not come;
      the model needs it only of those that are still to take effect.) */
  lemma CarefulMutualExclusion(s0: Delayed, events: seq<Event>, s: Delayed, g: nat, h: nat)
    requires Fresh(s0) && Run(AdvanceBy(Careful), s0, events) == Some(s)
    requires Counts(s.now, g) && Counts(s.now, h) && s.now.handles[g].key == s.now.handles[h].key
    ensures g == h
  {
    hide *;
    CarefulIsOrdered(s0, events, s);
    DelayedMutualExclusion(s0, events, s, g, h);
  }

  /** Whoever has gone on unsure, or is within a try, has begun one. */
  ghost predicate TriedFits(s: Delayed) {
    && s.past.unsure <= s.past.tried
    && forall g | g in s.now.handles && (s.now.handles[g].phase in {Sent, Cleanup} || s.now.handles[g].phase.Answered?) :: g in s.past.tried
  }

  lemma TriedStep(s: State, t: Step, g: nat)
    requires Next(s, t).Some? && g in Next(s, t).value.handles
    ensures var phase := Next(s, t).value.handles[g].phase;
            phase in {Sent, Cleanup} || phase.Answered? ==>
              || t == StartTry(g)
              || (g in s.handles && (s.handles[g].phase in {Sent, Cleanup} || s.handles[g].phase.Answered?))
  {
    hide Live, Owns, SetIfFree, DeleteIfOwner, BeforeDeadline, FreshToken, RatesFit;
  }

  lemma TriedAdvance(s: Delayed, e: Event)
    requires TriedFits(s) && AdvanceBy(OneTry)(s, e).Some?
    ensures TriedFits(AdvanceBy(OneTry)(s, e).value) && Allows(s, e, Careful)
  {
    hide Next;
    if e.Do? {
      forall g | g in Next(s.now, e.t).value.handles { TriedStep(s.now, e.t, g); }
    }
  }

  lemma {:induction false} OneTryIsCareful(s0: Delayed, events: seq<Event>, s: Delayed)
    requires Fresh(s0) && Run(AdvanceBy(OneTry), s0, events) == Some(s)
    ensures Run(AdvanceBy(Careful), s0, events) == Some(s) && TriedFits(s)
  {
    hide Advance, Allows;
    if events != [] {
      var n := |events| - 1;
      var m := Run(AdvanceBy(OneTry), s0, events[..n]).value;
      OneTryIsCareful(s0, events[..n], m);
      hide TriedFits;
      TriedAdvance(m, events[n]);
    }
  }

  /** In particular AcquireLockWithRetry with a single try does. */
  lemma OneTryMutualExclusion(s0: Delayed, events: seq<Event>, s: Delayed, g: nat, h: nat)
    requires Fresh(s0) && Run(AdvanceBy(OneTry), s0, events) == Some(s)
    requires Counts(s.now, g) && Counts(s.now, h) && s.now.handles[g].key == s.now.handles[h].key
    ensures g == h
  {
    hide *;
    OneTryIsCareful(s0, events, s);
    CarefulMutualExclusion(s0, events, s, g, h);
  }
}
