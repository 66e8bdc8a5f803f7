/**
 The distributed lock (redis.go, mutex.go): any number of processes take and give back locks on
 one Redis, through handles (AcquireLockWithRetry, ReleaseLockWithRetry) or through keys
 (AcquireLock, ReleaseLock, StoreRedisWithLock), the latter finding the handle again in a map of
 their process.  Every action on Redis, on such a map or on a clock is a step, and the steps of
 different callers interleave freely.
 */
module RedisLock {
  import opened Wrappers

  datatype Entry = Entry(token: nat, expires: int)

  type Redis = map<string, Entry>

  datatype Api = ByHandle | ByKey

  /** Where the caller that owns a handle is. */
  datatype Phase =
    | Idle                    // LockContext, before a try
    | Sent                    // a try has begun, its SET NX is on the way
    | Answered(ok: bool)      // the reply has been read
    | Cleanup                 // the try failed, its key is to be removed
    | Failed                  // the caller has been told that it has no lock
    | Held                    // LockContext has returned without an error
    | Stored                  // StoreMutex is done
    | Writing                 // StoreRedisWithLock is storing its data
    | Written
    | Found(handle: nat)      // ReleaseLock has read the map
    | Removing                // ReleaseLock has unlocked, RemoveMutex is to come
    | Releasing               // ReleaseLockWithRetry is at work
    | Released

  /** `start` is the caller's clock at the start of the try, `setAt` the server's clock when
      the try's SET NX took effect. */
  datatype Handle = Handle(api: Api, proc: nat, key: string, token: nat, ttl: nat, start: int, setAt: int, phase: Phase)

  datatype Slot = Slot(proc: nat, key: string)

  /** `now` is the server's clock; every process has a clock of its own and a map of handles. */
  datatype State = State(redis: Redis, now: int, clocks: map<nat, int>, handles: map<nat, Handle>, maps: map<Slot, nat>)

  datatype Step =
    | Begin(h: nat, api: Api, proc: nat, key: string, ttl: nat, token: nat)
    | StartTry(h: nat)
    | SetNX(h: nat, replied: bool)
    | LoseSet(h: nat)
    | Conclude(h: nat)
    | CleanUp(h: nat, executed: bool)
    | GiveUp(h: nat)
    | StartRelease(h: nat)
    | Unlock(h: nat)
    | StoreMutex(h: nat)
    | BeginWrite(h: nat)
    | EndWrite(h: nat)
    | GetMutex(h: nat)
    | UnlockFound(h: nat, executed: bool, replied: bool)
    | RemoveMutex(h: nat)
    | Expire(key: string)
    | Tick(server: nat, clients: map<nat, nat>)

  // ---------- the two commands ----------

  predicate Live(r: Redis, now: int, key: string) {
    key in r && now < r[key].expires
  }

  function SetIfFree(r: Redis, now: int, key: string, token: nat, ttl: nat): Redis {
    if Live(r, now, key) then r else r[key := Entry(token, now + ttl)]
  }

  predicate Owns(r: Redis, now: int, key: string, token: nat) {
    Live(r, now, key) && r[key].token == token
  }

  function DeleteIfOwner(r: Redis, now: int, key: string, token: nat): Redis {
    if Owns(r, now, key, token) then r - {key} else r
  }

  // ---------- clocks ----------

  /** WithDriftFactor(0.01), truncated to a whole nanosecond. */
  function Drift(ttl: nat): nat { ttl / 100 }

  function Deadline(x: Handle): int { x.start + x.ttl - Drift(x.ttl) }

  function Clock(s: State, x: Handle): int {
    if x.proc in s.clocks then s.clocks[x.proc] else 0
  }

  predicate BeforeDeadline(s: State, x: Handle) { Clock(s, x) < Deadline(x) }

  /** The server has not yet counted the lock's time to its end. */
  predicate Unexpired(s: State, x: Handle) { s.now < x.setAt + x.ttl }

  /** The server's clock gains at most one part in a hundred on any client's. */
  predicate RatesFit(s: State, server: nat, clients: map<nat, nat>) {
    clients.Keys == s.clocks.Keys && forall p | p in clients :: 99 * server <= 100 * clients[p]
  }

  // ---------- the steps ----------

  function Become(s: State, h: nat, phase: Phase): State
    requires h in s.handles
  {
    s.(handles := s.handles[h := s.handles[h].(phase := phase)])
  }

  predicate In(s: State, h: nat, phase: Phase) {
    h in s.handles && s.handles[h].phase == phase
  }

  predicate FreshToken(s: State, token: nat) {
    && (forall g | g in s.handles :: s.handles[g].token != token)
    && (forall k | k in s.redis :: s.redis[k].token != token)
  }

  /** A caller of the key API may call ReleaseLock whether or not it was given the lock. */
  predicate MayRelease(s: State, h: nat) {
    && h in s.handles && s.handles[h].api == ByKey
    && s.handles[h].phase in {Failed, Stored, Written, Released}
  }

  function Next(s: State, t: Step): Option<State> {
    match t
    case Begin(h, api, p, key, ttl, token) =>
      if h !in s.handles && p in s.clocks && ttl > 0 && FreshToken(s, token) then
        Some(s.(handles := s.handles[h := Handle(api, p, key, token, ttl, s.clocks[p], s.now, Idle)]))
      else None
    case StartTry(h) =>
      if In(s, h, Idle) then
        var x := s.handles[h];
        Some(s.(handles := s.handles[h := x.(start := Clock(s, x), phase := Sent)]))
      else None
    case SetNX(h, replied) =>
      if In(s, h, Sent) then
        var x := s.handles[h];
        var free := !Live(s.redis, s.now, x.key);
        Some(s.(redis := SetIfFree(s.redis, s.now, x.key, x.token, x.ttl),
                handles := s.handles[h := x.(setAt := s.now, phase := Answered(free && replied))]))
      else None
    case LoseSet(h) =>
      if In(s, h, Sent) then Some(Become(s, h, Answered(false))) else None
    case Conclude(h) =>
      if h in s.handles && s.handles[h].phase.Answered? then
        var x := s.handles[h];
        Some(Become(s, h, if x.phase.ok && BeforeDeadline(s, x) then Held else Cleanup))
      else None
    case CleanUp(h, executed) =>
      if In(s, h, Cleanup) then
        var x := s.handles[h];
        var r := if executed then DeleteIfOwner(s.redis, s.now, x.key, x.token) else s.redis;
        Some(Become(s, h, Idle).(redis := r))
      else None
    case GiveUp(h) =>
      if In(s, h, Idle) then Some(Become(s, h, Failed)) else None
    case StartRelease(h) =>
      if In(s, h, Held) && s.handles[h].api == ByHandle then Some(Become(s, h, Releasing)) else None
    case Unlock(h) =>
      if In(s, h, Releasing) then
        Some(s.(redis := DeleteIfOwner(s.redis, s.now, s.handles[h].key, s.handles[h].token)))
      else None
    case StoreMutex(h) =>
      if In(s, h, Held) && s.handles[h].api == ByKey then
        Some(Become(s, h, Stored).(maps := s.maps[Slot(s.handles[h].proc, s.handles[h].key) := h]))
      else None
    case BeginWrite(h) =>
      if In(s, h, Stored) then Some(Become(s, h, Writing)) else None
    case EndWrite(h) =>
      if In(s, h, Writing) then Some(Become(s, h, Written)) else None
    case GetMutex(h) =>
      if MayRelease(s, h) then
        var slot := Slot(s.handles[h].proc, s.handles[h].key);
        Some(Become(s, h, if slot in s.maps then Found(s.maps[slot]) else Released))
      else None
    case UnlockFound(h, executed, replied) =>
      if h in s.handles && s.handles[h].phase.Found? && s.handles[h].phase.handle in s.handles then
        var x := s.handles[s.handles[h].phase.handle];
        var ok := executed && replied && Owns(s.redis, s.now, x.key, x.token);
        var r := if executed then DeleteIfOwner(s.redis, s.now, x.key, x.token) else s.redis;
        Some(Become(s, h, if ok then Removing else Released).(redis := r))
      else None
    case RemoveMutex(h) =>
      if In(s, h, Removing) then
        Some(Become(s, h, Released).(maps := s.maps - {Slot(s.handles[h].proc, s.handles[h].key)}))
      else None
    case Expire(key) =>
      if key in s.redis && !Live(s.redis, s.now, key) then Some(s.(redis := s.redis - {key})) else None
    case Tick(server, clients) =>
      if RatesFit(s, server, clients) then
        Some(s.(now := s.now + server, clocks := map p | p in s.clocks :: s.clocks[p] + clients[p]))
      else None
  }

  /** No keys, no handles; any clocks. */
  predicate IsInitial(s: State) {
    s.redis == map[] && s.handles == map[] && s.maps == map[]
  }

  /** What the key API leaves to its callers: that ReleaseLock looks its handle up while the
      caller's own lock has not expired, and that AcquireLock puts the handle into the map while
      the lock it has just got has not. */
  datatype Discipline = Free | TimelyRelease | TimelyThroughout

  predicate Obeys(s: State, t: Step, d: Discipline) {
    match t
    case GetMutex(h) => d.Free? || (h in s.handles && s.handles[h].phase in {Stored, Written} && Unexpired(s, s.handles[h]))
    case StoreMutex(h) => !d.TimelyThroughout? || (h in s.handles && Unexpired(s, s.handles[h]))
    case _ => true
  }

  function NextUnder(d: Discipline): (State, Step) -> Option<State> {
    (s, t) => if Obeys(s, t, d) then Next(s, t) else None
  }
}
