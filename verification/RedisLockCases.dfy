/** Runs that show what the users of the key API must not do, and what they cannot rely on. */
module RedisLockCases {
  import opened Wrappers
  import opened Runs
  import opened RedisLock

  /** A state that some run under `d` reaches. */
  ghost predicate Reached(s: State, d: Discipline) {
    exists s0, steps :: IsInitial(s0) && Run(NextUnder(d), s0, steps) == Some(s)
  }

  lemma Go(s: State, t: Step, d: Discipline)
    requires Reached(s, d) && Obeys(s, t, d) && Next(s, t).Some?
    ensures Reached(Next(s, t).value, d)
  {
    var s0, steps :| IsInitial(s0) && Run(NextUnder(d), s0, steps) == Some(s);
    RunOneMore(NextUnder(d), s0, steps, t);
  }

  /** Caller `h` of process 0 at a phase of its work on the key "k", which it asked for 100 ns
      at time `at`. */
  function Caller(h: nat, at: int, phase: Phase): Handle {
    Handle(ByKey, 0, "k", h, 100, at, at, phase)
  }

  function World(redis: Redis, now: int, handles: map<nat, Handle>, maps: map<Slot, nat>): State {
    State(redis, now, map[0 := now], handles, maps)
  }

  const SLOT := Slot(0, "k")

  /** `s` with caller `h` elsewhere. */
  function With(s: State, h: nat, at: int, phase: Phase): State {
    s.(handles := s.handles[h := Caller(h, at, phase)])
  }

  lemma TakeBegins(s: State, h: nat, d: Discipline)
    requires Reached(s, d) && h !in s.handles && s.clocks == map[0 := s.now] && FreshToken(s, h)
    ensures Reached(With(s, h, s.now, Sent), d)
  {
    Go(s, Begin(h, ByKey, 0, "k", 100, h), d);
    var s1 := With(s, h, s.now, Idle);
    Go(s1, StartTry(h), d);
    assert Next(s1, StartTry(h)).value == With(s, h, s.now, Sent);
  }

  lemma TakeSets(s: State, h: nat, d: Discipline)
    requires Reached(With(s, h, s.now, Sent), d) && s.clocks == map[0 := s.now] && !Live(s.redis, s.now, "k")
    ensures Reached(With(s, h, s.now, Answered(true)).(redis := s.redis["k" := Entry(h, s.now + 100)]), d)
  {
    hide Reached;
    var s2 := With(s, h, s.now, Sent);
    Go(s2, SetNX(h, true), d);
    var s3 := With(s, h, s.now, Answered(true)).(redis := s.redis["k" := Entry(h, s.now + 100)]);
    assert s2.handles[h := Caller(h, s.now, Answered(true))] == s3.handles;
    assert Next(s2, SetNX(h, true)).value == s3;
  }

  lemma TakeEnds(s: State, h: nat, d: Discipline)
    requires Reached(With(s, h, s.now, Sent), d) && s.clocks == map[0 := s.now] && !Live(s.redis, s.now, "k")
    ensures Reached(With(s, h, s.now, Held).(redis := s.redis["k" := Entry(h, s.now + 100)]), d)
  {
    TakeSets(s, h, d);
    hide Reached, Live;
    var s3 := With(s, h, s.now, Answered(true)).(redis := s.redis["k" := Entry(h, s.now + 100)]);
    Go(s3, Conclude(h), d);
    assert s3.handles[h := Caller(h, s.now, Held)] == With(s, h, s.now, Held).handles;
    assert Next(s3, Conclude(h)).value == With(s, h, s.now, Held).(redis := s3.redis);
  }

  /** LockContext without a hitch, in no time. */
  lemma Take(s: State, h: nat, d: Discipline)
    requires Reached(s, d) && h !in s.handles && s.clocks == map[0 := s.now] && FreshToken(s, h) && !Live(s.redis, s.now, "k")
    ensures Reached(With(s, h, s.now, Held).(redis := s.redis["k" := Entry(h, s.now + 100)]), d)
  {
    TakeBegins(s, h, d);
    TakeEnds(s, h, d);
  }

  lemma Store(s: State, h: nat, at: int, d: Discipline)
    requires Reached(s, d) && h in s.handles && s.handles[h] == Caller(h, at, Held)
    requires d.TimelyThroughout? ==> s.now < at + 100
    ensures Reached(With(s, h, at, Stored).(maps := s.maps[SLOT := h]), d)
  {
    Go(s, StoreMutex(h), d);
  }

  lemma Find(s: State, h: nat, at: int, d: Discipline)
    requires Reached(s, d) && h in s.handles && s.handles[h] == Caller(h, at, Stored) && SLOT in s.maps
    requires !d.Free? ==> s.now < at + 100
    ensures Reached(With(s, h, at, Found(s.maps[SLOT])), d)
  {
    Go(s, GetMutex(h), d);
  }

  lemma Unlocked(s: State, h: nat, at: int, f: nat, d: Discipline)
    requires Reached(s, d) && h in s.handles && s.handles[h] == Caller(h, at, Found(f))
    requires f in s.handles && s.handles[f].key == "k" && s.handles[f].token == f && Owns(s.redis, s.now, "k", f)
    ensures Reached(With(s, h, at, Removing).(redis := s.redis - {"k"}), d)
  {
    Go(s, UnlockFound(h, true, true), d);
  }

  lemma Wait(s: State, d: Discipline)
    requires Reached(s, d) && s.clocks == map[0 := s.now]
    ensures Reached(s.(now := s.now + 100, clocks := map[0 := s.now + 100]), d)
  {
    Go(s, Tick(100, map[0 := 100]), d);
    assert Next(s, Tick(100, map[0 := 100])).value.clocks == map[0 := s.now + 100];
  }

  const EMPTY := World(map[], 0, map[], map[])

  lemma Start(d: Discipline)
    ensures Reached(EMPTY, d)
  {
    assert IsInitial(EMPTY) && Run(NextUnder(d), EMPTY, []) == Some(EMPTY);
  }

  /** Two callers count on the lock of one key. */
  ghost predicate BothHold(s: State, g: nat, h: nat) {
    && g in s.handles && s.handles[g].phase in {Held, Stored} && BeforeDeadline(s, s.handles[g])
    && h in s.handles && s.handles[h].phase in {Held, Stored} && BeforeDeadline(s, s.handles[h])
    && g != h && s.handles[g].key == s.handles[h].key
  }

  /** A ReleaseLock that is called too late finds the handle of the caller that has the lock
      now, and unlocks it: a third caller gets the lock while the second still counts on it. */
  lemma LateReleaseBreaksExclusion() returns (s: State)
    ensures Reached(s, Free) && BothHold(s, 2, 3)
  {
    hide Next, Reached, Obeys;
    var d := Free;
    Start(d);
    Take(EMPTY, 1, d);
    var s1 := With(EMPTY, 1, 0, Held).(redis := map["k" := Entry(1, 100)]);
    Store(s1, 1, 0, d);
    var s2 := With(s1, 1, 0, Stored).(maps := map[SLOT := 1]);
    Wait(s2, d);
    var s3 := s2.(now := 100, clocks := map[0 := 100]);
    Take(s3, 2, d);
    var s4 := With(s3, 2, 100, Held).(redis := s3.redis["k" := Entry(2, 200)]);
    Store(s4, 2, 100, d);
    var s5 := With(s4, 2, 100, Stored).(maps := s4.maps[SLOT := 2]);
    Find(s5, 1, 0, d);
    var s6 := With(s5, 1, 0, Found(2));
    Unlocked(s6, 1, 0, 2, d);
    var s7 := With(s6, 1, 0, Removing).(redis := s6.redis - {"k"});
    Take(s7, 3, d);
    s := With(s7, 3, 100, Held).(redis := s7.redis["k" := Entry(3, 200)]);
  }

  /** A caller that is slow to put its handle into the map can put it over that of the caller
      that has the lock now; the timely ReleaseLock of the latter then does not find its own. */
  lemma SlowStoreHidesAHandle() returns (s: State)
    ensures Reached(s, TimelyRelease) && In(s, 2, Found(1)) && Unexpired(s, s.handles[2])
  {
    hide Next, Reached, Obeys;
    var d := TimelyRelease;
    Start(d);
    Take(EMPTY, 1, d);
    var s1 := With(EMPTY, 1, 0, Held).(redis := map["k" := Entry(1, 100)]);
    Wait(s1, d);
    var s2 := s1.(now := 100, clocks := map[0 := 100]);
    Take(s2, 2, d);
    var s3 := With(s2, 2, 100, Held).(redis := s2.redis["k" := Entry(2, 200)]);
    Store(s3, 2, 100, d);
    var s4 := With(s3, 2, 100, Stored).(maps := s3.maps[SLOT := 2]);
    Store(s4, 1, 0, d);
    var s5 := With(s4, 1, 0, Stored).(maps := s4.maps[SLOT := 1]);
    Find(s5, 2, 100, d);
    s := With(s5, 2, 100, Found(1));
  }

  /** Even with all callers timely ReleaseLock may find nothing, and leave the lock to expire:
      the previous holder takes the entry of the map away in a separate step after it unlocked. */
  lemma NothingToFind() returns (s: State)
    ensures Reached(s, TimelyThroughout) && In(s, 2, Stored) && Unexpired(s, s.handles[2])
    ensures Next(s, GetMutex(2)).Some? && In(Next(s, GetMutex(2)).value, 2, Released)
    ensures Owns(s.redis, s.now, "k", 2)
  {
    var d := TimelyThroughout;
    s := JustOvertaken();
    Go(s, RemoveMutex(1), d);
    s := With(s, 1, 0, Released).(maps := s.maps - {SLOT});
  }

  lemma JustOvertaken() returns (s: State)
    ensures Reached(s, TimelyThroughout) && s.now == 0 && SLOT in s.maps && s.handles.Keys == {1, 2}
    ensures s.handles[1] == Caller(1, 0, Removing) && s.handles[2] == Caller(2, 0, Stored)
    ensures s.redis == map["k" := Entry(2, 100)]
  {
    hide Next, Reached, Obeys;
    var d := TimelyThroughout;
    Start(d);
    Take(EMPTY, 1, d);
    var s1 := With(EMPTY, 1, 0, Held).(redis := map["k" := Entry(1, 100)]);
    Store(s1, 1, 0, d);
    var s2 := With(s1, 1, 0, Stored).(maps := map[SLOT := 1]);
    Find(s2, 1, 0, d);
    var s3 := With(s2, 1, 0, Found(1));
    Unlocked(s3, 1, 0, 1, d);
    var s4 := With(s3, 1, 0, Removing).(redis := s3.redis - {"k"});
    Take(s4, 2, d);
    var s5 := With(s4, 2, 0, Held).(redis := s4.redis["k" := Entry(2, 100)]);
    Store(s5, 2, 0, d);
    s := With(s5, 2, 0, Stored).(maps := s5.maps[SLOT := 2]);
  }
}
