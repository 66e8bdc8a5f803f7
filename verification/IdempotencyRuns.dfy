/** Runs of requests through the middleware: who is let through, and who is told to wait. */
module IdempotencyRuns {
  import opened Wrappers
  import opened Runs
  import opened StoreTtl
  import opened Idempotency

  /** A request that has been answered: when, how, with what lifetime and about which body. */
  datatype Done = Done(request: Request, at: int, response: Response, ttl: int, payload: Payload, minified: Option<string>)

  datatype State = State(redis: Redis, now: int, log: seq<Done>)

  datatype Event = Pass(d: nat) | Arrive(request: Request, fortune: Fortune)

  /** A codec, and the limit of MaxTTL. */
  datatype Config = Config(codec: Codec, max: int)

  function Answered(cfg: Config, s: State, r: Request, f: Fortune): Done {
    var response := Handle(cfg.codec, cfg.max, s.redis, s.now, r, f).1;
    match Check(cfg.codec, r, f.bodyReads)
    case Rejected(_) => Done(r, s.now, response, 0, Null, None)
    case Passed(p, m, n) => Done(r, s.now, response, StoredTtl(n, cfg.max), p, m)
  }

  function Next(cfg: Config, s: State, e: Event): State {
    match e
    case Pass(d) => s.(now := s.now + d)
    case Arrive(r, f) =>
      s.(redis := Handle(cfg.codec, cfg.max, s.redis, s.now, r, f).0, log := s.log + [Answered(cfg, s, r, f)])
  }

  function NextFor(cfg: Config): (State, Event) -> Option<State> {
    (s, e) => Some(Next(cfg, s, e))
  }

  const INITIAL := State(map[], 0, [])

  ghost predicate Reaches(cfg: Config, events: seq<Event>, s: State) {
    Run(NextFor(cfg), INITIAL, events) == Some(s)
  }

  /** The lifetime of what was stored for a request has passed. */
  predicate Elapsed(d: Done, now: int) { d.ttl > 0 && d.at + d.ttl <= now }

  // ---------- at most once ----------

  /** What was stored for a forwarded request is there until it elapses. */
  ghost predicate KeptUntilElapsed(s: State, d: Done) {
    && d.at <= s.now
    && (d.response.Forwarded? ==>
          || Elapsed(d, s.now)
          || (d.request.key in s.redis && s.redis[d.request.key].expires == Expiry(d.at, d.ttl)))
  }

  ghost predicate Fits(s: State) {
    && (forall k | k in s.redis :: s.redis[k].data != "")
    && (forall i | 0 <= i < |s.log| :: KeptUntilElapsed(s, s.log[i]))
    && (forall i, j | 0 <= i < j < |s.log| && s.log[i].response.Forwarded? && s.log[j].response.Forwarded?
                      && s.log[i].request.key == s.log[j].request.key ::
          Elapsed(s.log[i], s.log[j].at))
  }

  /** An entry is replaced only when it is no longer alive, and then by one of this lifetime. */
  lemma HandleWrites(cfg: Config, s: State, r: Request, f: Fortune)
    requires WritesSomething(cfg.codec) && forall k | k in s.redis :: s.redis[k].data != ""
    ensures var (redis, response) := Handle(cfg.codec, cfg.max, s.redis, s.now, r, f);
            && (forall k | k != r.key && k in s.redis :: k in redis && redis[k] == s.redis[k])
            && (forall k | k in redis :: redis[k].data != "")
            && (redis != s.redis || response.Forwarded? ==>
                  !Live(s.redis, r.key, s.now) && r.key in redis
                  && redis[r.key].expires == Expiry(s.now, Answered(cfg, s, r, f).ttl))
  {
  }

  lemma KeptByArrival(cfg: Config, s: State, r: Request, f: Fortune, d: Done)
    requires WritesSomething(cfg.codec) && (forall k | k in s.redis :: s.redis[k].data != "") && KeptUntilElapsed(s, d)
    ensures KeptUntilElapsed(Next(cfg, s, Arrive(r, f)), d)
    ensures !Live(s.redis, r.key, s.now) && d.response.Forwarded? && d.request.key == r.key ==> Elapsed(d, s.now)
  {
    hide Handle, Answered, WritesSomething;
    HandleWrites(cfg, s, r, f);
  }

  lemma FitsArrive(cfg: Config, s: State, r: Request, f: Fortune)
    requires WritesSomething(cfg.codec) && Fits(s)
    ensures Fits(Next(cfg, s, Arrive(r, f)))
  {
    hide Handle, Elapsed, Live, WritesSomething;
    var s', d := Next(cfg, s, Arrive(r, f)), Answered(cfg, s, r, f);
    HandleWrites(cfg, s, r, f);
    AnswerIs(cfg, s, r, f);
    forall i | 0 <= i < |s.log|
      ensures KeptUntilElapsed(s', s.log[i])
      ensures s.log[i].response.Forwarded? && d.response.Forwarded? && s.log[i].request.key == d.request.key ==>
                Elapsed(s.log[i], d.at)
    {
      KeptByArrival(cfg, s, r, f, s.log[i]);
    }
    assert KeptUntilElapsed(s', d);
  }

  lemma AnswerIs(cfg: Config, s: State, r: Request, f: Fortune)
    ensures var d := Answered(cfg, s, r, f);
            d.request == r && d.at == s.now && d.response == Handle(cfg.codec, cfg.max, s.redis, s.now, r, f).1
  {
  }

  lemma FitsPass(cfg: Config, s: State, d: nat)
    requires Fits(s)
    ensures Fits(Next(cfg, s, Pass(d)))
  {
    var s' := Next(cfg, s, Pass(d));
    forall i | 0 <= i < |s.log| ensures KeptUntilElapsed(s', s.log[i]) {
      assert KeptUntilElapsed(s, s.log[i]);
    }
  }

  lemma FitsOfRun(cfg: Config, events: seq<Event>, s: State)
    requires WritesSomething(cfg.codec) && Reaches(cfg, events, s)
    ensures Fits(s)
  {
    hide Next, Run, Fits, WritesSomething;
    assert Fits(INITIAL) by { FitsInitially(); }
    forall m, e | Fits(m) && NextFor(cfg)(m, e).Some? ensures Fits(NextFor(cfg)(m, e).value) {
      if e.Pass? { FitsPass(cfg, m, e.d); } else { FitsArrive(cfg, m, e.request, e.fortune); }
    }
    InvariantHolds(NextFor(cfg), m => Fits(m), INITIAL, events);
  }

  lemma FitsInitially()
    ensures Fits(INITIAL)
  {
  }

  /** Whatever fails: after a request has been let through, no other with its key is, until the
      lifetime stored for it has passed. */
  lemma ForwardedAtMostOnce(cfg: Config, events: seq<Event>, s: State, i: nat, j: nat)
    requires WritesSomething(cfg.codec) && Reaches(cfg, events, s) && i < j < |s.log|
    requires s.log[i].request.key == s.log[j].request.key
    requires s.log[i].response.Forwarded? && s.log[j].response.Forwarded?
    ensures s.log[i].ttl > 0 && s.log[j].at >= s.log[i].at + s.log[i].ttl
  {
    hide Reaches, WritesSomething, KeptUntilElapsed;
    FitsOfRun(cfg, events, s);
    assert Elapsed(s.log[i], s.log[j].at);
  }

  // ---------- lifetimes ----------

  ghost predicate LifetimeFits(cfg: Config, d: Done) {
    d.response.Forwarded? ==>
      && SessionSeconds(d.request.session).Some?
      && d.ttl == StoredTtl(SessionSeconds(d.request.session).value, cfg.max)
  }

  lemma {:induction false} LifetimesOfRun(cfg: Config, events: seq<Event>, s: State)
    requires Reaches(cfg, events, s)
    ensures forall i | 0 <= i < |s.log| :: LifetimeFits(cfg, s.log[i])
  {
    hide Handle, StoredTtl, SessionSeconds, LifetimeFits;
    if events != [] {
      var e, m := events[|events| - 1], Run(NextFor(cfg), INITIAL, events[..|events| - 1]).value;
      LifetimesOfRun(cfg, events[..|events| - 1], m);
      if e.Arrive? { LifetimeOfAnswer(cfg, m, e.request, e.fortune); }
    }
  }

  lemma LifetimeOfAnswer(cfg: Config, s: State, r: Request, f: Fortune)
    ensures LifetimeFits(cfg, Answered(cfg, s, r, f))
  {
    hide StoredTtl, SessionSeconds;
  }

  /** The lifetime of a request that was let through is the session it asked for or the limit,
      and at least four seconds, for sessions whose nanoseconds fit into 64 bits. */
  lemma LifetimeIsAsAsked(cfg: Config, events: seq<Event>, s: State, i: nat)
    requires Reaches(cfg, events, s) && i < |s.log| && s.log[i].response.Forwarded? && MINUTE <= cfg.max < TWO_TO_THE_63
    ensures SessionSeconds(s.log[i].request.session).Some?
    ensures var n := SessionSeconds(s.log[i].request.session).value;
            n <= MAX_SECONDS ==> s.log[i].ttl == Min(n * SECOND, cfg.max) >= 4 * SECOND
  {
    hide Reaches, StoredTtl, SessionSeconds;
    LifetimesOfRun(cfg, events, s);
    assert LifetimeFits(cfg, s.log[i]);
    SessionIsLongEnough(s.log[i].request.session);
    var n := SessionSeconds(s.log[i].request.session).value;
    if n <= MAX_SECONDS { StoredTtlIsEnough(n, cfg.max); }
  }

  // ---------- who is told to wait ----------

  /** No write of a key is done without being confirmed. */
  predicate Confirmed(key: string, e: Event) {
    e.Arrive? && e.request.key == key ==> !e.fortune.write.ReplyLost?
  }

  function NextConfirmed(cfg: Config, key: string): (State, Event) -> Option<State> {
    (s, e) => if Confirmed(key, e) then Some(Next(cfg, s, e)) else None
  }

  /** What is stored under a key was stored for a request that was let through. */
  ghost predicate StoredFor(cfg: Config, s: State, k: string, i: nat) {
    && i < |s.log| && k in s.redis
    && s.log[i].response.Forwarded? && s.log[i].request.key == k
    && s.redis[k] == Entry(Stored(cfg.codec, s.log[i].request, s.log[i].payload), Expiry(s.log[i].at, s.log[i].ttl))
  }

  /** A forwarded request passed the check of its body, if it had one. */
  ghost predicate BodyFits(cfg: Config, d: Done) {
    d.response.Forwarded? && d.request.body.Some? ==> d.minified.Some? && cfg.codec.hash(d.minified.value) == d.request.key
  }

  ghost predicate Origins(cfg: Config, s: State, key: string) {
    && (forall k | k in s.redis :: s.redis[k].data != "")
    && (key in s.redis ==> exists i: nat :: StoredFor(cfg, s, key, i))
    && (forall i | 0 <= i < |s.log| :: BodyFits(cfg, s.log[i]))
  }

  lemma ConfirmedHandle(cfg: Config, s: State, r: Request, f: Fortune)
    requires WritesSomething(cfg.codec) && forall k | k in s.redis :: s.redis[k].data != ""
    ensures var (redis, response) := Handle(cfg.codec, cfg.max, s.redis, s.now, r, f);
            var d := Answered(cfg, s, r, f);
            && BodyFits(cfg, d)
            && (response.Forwarded? ==>
                  && redis == s.redis[r.key := Entry(Stored(cfg.codec, r, d.payload), Expiry(s.now, d.ttl))]
                  && Stored(cfg.codec, r, d.payload) != "")
            && (!response.Forwarded? && !f.write.ReplyLost? ==> redis == s.redis)
  {
  }

  lemma OriginStays(cfg: Config, s: State, s': State, k: string, i: nat)
    requires StoredFor(cfg, s, k, i) && s.log <= s'.log && k in s'.redis && s'.redis[k] == s.redis[k]
    ensures StoredFor(cfg, s', k, i)
  {
  }

  lemma OriginsArrive(cfg: Config, s: State, key: string, r: Request, f: Fortune)
    requires WritesSomething(cfg.codec) && Origins(cfg, s, key) && Confirmed(key, Arrive(r, f))
    ensures Origins(cfg, Next(cfg, s, Arrive(r, f)), key)
  {
    hide Handle, Stored, BodyFits, WritesSomething, Expiry, Live;
    var s', d := Next(cfg, s, Arrive(r, f)), Answered(cfg, s, r, f);
    ConfirmedHandle(cfg, s, r, f);
    HandleWrites(cfg, s, r, f);
    AnswerIs(cfg, s, r, f);
    if key in s'.redis {
      if d.response.Forwarded? && key == r.key {
        assert StoredFor(cfg, s', key, |s.log|);
      } else {
        SameEntry(cfg, s, key, r, f);
        var i: nat :| StoredFor(cfg, s, key, i);
        OriginStays(cfg, s, s', key, i);
      }
    }
  }

  /** A request that is not let through under a key leaves its entry. */
  lemma SameEntry(cfg: Config, s: State, key: string, r: Request, f: Fortune)
    requires Confirmed(key, Arrive(r, f))
    requires key != r.key || !Handle(cfg.codec, cfg.max, s.redis, s.now, r, f).1.Forwarded?
    ensures var redis := Handle(cfg.codec, cfg.max, s.redis, s.now, r, f).0;
            (key in redis <==> key in s.redis) && (key in redis ==> redis[key] == s.redis[key])
  {
  }

  lemma OriginsPass(cfg: Config, s: State, key: string, d: nat)
    requires Origins(cfg, s, key)
    ensures Origins(cfg, Next(cfg, s, Pass(d)), key)
  {
    hide BodyFits, Stored, Expiry;
    if key in s.redis {
      var i: nat :| StoredFor(cfg, s, key, i);
      OriginStays(cfg, s, Next(cfg, s, Pass(d)), key, i);
    }
  }

  lemma OriginsOfRun(cfg: Config, events: seq<Event>, s: State, key: string)
    requires WritesSomething(cfg.codec) && Run(NextConfirmed(cfg, key), INITIAL, events) == Some(s)
    ensures Origins(cfg, s, key)
  {
    hide Next, Run, Origins, WritesSomething, Confirmed;
    assert Origins(cfg, INITIAL, key) by { OriginsInitially(cfg, key); }
    forall m, e | Origins(cfg, m, key) && NextConfirmed(cfg, key)(m, e).Some?
      ensures Origins(cfg, NextConfirmed(cfg, key)(m, e).value, key)
    {
      if e.Pass? { OriginsPass(cfg, m, key, e.d); } else { OriginsArrive(cfg, m, key, e.request, e.fortune); }
    }
    InvariantHolds(NextConfirmed(cfg, key), m => Origins(cfg, m, key), INITIAL, events);
  }

  lemma OriginsInitially(cfg: Config, key: string)
    ensures Origins(cfg, INITIAL, key)
  {
  }

  /** Different texts have different hashes. */
  ghost predicate CollisionFree(c: Codec) {
    forall a, b | c.hash(a) == c.hash(b) :: a == b
  }

  /** What a 202 means, for a request that arrives with its hash as its key. */
  lemma AcceptedMeansFound(cfg: Config, s: State, r: Request, f: Fortune)
    requires Handle(cfg.codec, cfg.max, s.redis, s.now, r, f).1.Accepted? && r.body.Some?
    ensures Live(s.redis, r.key, s.now)
    ensures Some(Handle(cfg.codec, cfg.max, s.redis, s.now, r, f).1.payload) == cfg.codec.decode(s.redis[r.key].data)
    ensures var m := Answered(cfg, s, r, f).minified; m.Some? && cfg.codec.hash(m.value) == r.key
  {
  }

  /** What is stored under a key was written for request `i`, which was let through, or was told of
      a failure although its write was done, and then only after all lifetimes before it. */
  ghost predicate WrittenFor(cfg: Config, s: State, k: string, i: nat) {
    && i < |s.log| && k in s.redis
    && var d := s.log[i];
    && d.request.key == k && d.at <= s.now
    && s.redis[k] == Entry(Stored(cfg.codec, d.request, d.payload), Expiry(d.at, d.ttl))
    && (d.request.body.Some? ==> d.minified.Some? && cfg.codec.hash(d.minified.value) == k)
    && (d.response.Forwarded? || (d.response.ServerError? && AllElapsed(s.log, k, d.at)))
  }

  /** The lifetimes of all that were let through with a key have passed. */
  ghost predicate AllElapsed(log: seq<Done>, k: string, now: int) {
    forall j | 0 <= j < |log| && log[j].response.Forwarded? && log[j].request.key == k :: Elapsed(log[j], now)
  }

  ghost predicate HasWriter(cfg: Config, s: State, k: string) {
    k in s.redis ==> exists i: nat :: WrittenFor(cfg, s, k, i)
  }

  /** What a write leaves, whether or not it is confirmed. */
  lemma HandleWritesFor(cfg: Config, s: State, r: Request, f: Fortune)
    requires WritesSomething(cfg.codec) && forall k | k in s.redis :: s.redis[k].data != ""
    ensures var (redis, response) := Handle(cfg.codec, cfg.max, s.redis, s.now, r, f);
            var d := Answered(cfg, s, r, f);
            redis != s.redis || response.Forwarded? ==>
              && !Live(s.redis, r.key, s.now) && (response.Forwarded? || response.ServerError?)
              && redis == s.redis[r.key := Entry(Stored(cfg.codec, r, d.payload), Expiry(s.now, d.ttl))]
              && (r.body.Some? ==> d.minified.Some? && cfg.codec.hash(d.minified.value) == r.key)
  {
  }

  lemma NotLiveMeansElapsed(s: State, k: string)
    requires Fits(s) && !Live(s.redis, k, s.now)
    ensures AllElapsed(s.log, k, s.now)
  {
    forall j | 0 <= j < |s.log| && s.log[j].response.Forwarded? && s.log[j].request.key == k ensures Elapsed(s.log[j], s.now) {
      KeptMeansLive(s, s.log[j]);
    }
  }

  /** An entry that stays goes on to be that of its request, as long as nobody else is let through. */
  lemma WrittenStays(cfg: Config, s: State, m: State, k: string, i: nat)
    requires WrittenFor(cfg, s, k, i) && s.log <= m.log && s.now <= m.now && k in m.redis && m.redis[k] == s.redis[k]
    requires forall j | |s.log| <= j < |m.log| && m.log[j].request.key == k :: !m.log[j].response.Forwarded?
    ensures WrittenFor(cfg, m, k, i)
  {
    hide Stored, Expiry, Elapsed;
  }

  lemma WrittenArrive(cfg: Config, s: State, k: string, r: Request, f: Fortune)
    requires WritesSomething(cfg.codec) && Fits(s) && HasWriter(cfg, s, k)
    ensures HasWriter(cfg, Next(cfg, s, Arrive(r, f)), k)
  {
    hide Handle, Answered, WritesSomething, KeptUntilElapsed, Stored, Expiry, Live, Elapsed, WrittenFor;
    var m, d := Next(cfg, s, Arrive(r, f)), Answered(cfg, s, r, f);
    HandleWritesFor(cfg, s, r, f);
    AnswerIs(cfg, s, r, f);
    if k in m.redis {
      if k == r.key && (m.redis != s.redis || d.response.Forwarded?) {
        NotLiveMeansElapsed(s, k);
        NewlyWritten(cfg, s, m, r, d);
      } else {
        var i: nat :| WrittenFor(cfg, s, k, i);
        WrittenStays(cfg, s, m, k, i);
      }
    }
  }

  lemma NewlyWritten(cfg: Config, s: State, m: State, r: Request, d: Done)
    requires m.log == s.log + [d] && m.now == s.now && d.request == r && d.at == s.now
    requires d.response.Forwarded? || d.response.ServerError?
    requires m.redis == s.redis[r.key := Entry(Stored(cfg.codec, r, d.payload), Expiry(s.now, d.ttl))]
    requires r.body.Some? ==> d.minified.Some? && cfg.codec.hash(d.minified.value) == r.key
    requires AllElapsed(s.log, r.key, s.now)
    ensures WrittenFor(cfg, m, r.key, |s.log|)
  {
    hide Stored, Expiry, Elapsed;
  }

  lemma WrittenPass(cfg: Config, s: State, k: string, d: nat)
    requires HasWriter(cfg, s, k)
    ensures HasWriter(cfg, Next(cfg, s, Pass(d)), k)
  {
    hide WrittenFor;
    if k in s.redis {
      var i: nat :| WrittenFor(cfg, s, k, i);
      WrittenStays(cfg, s, Next(cfg, s, Pass(d)), k, i);
    }
  }

  lemma WrittenOfRun(cfg: Config, events: seq<Event>, s: State, k: string)
    requires WritesSomething(cfg.codec) && Reaches(cfg, events, s)
    ensures HasWriter(cfg, s, k)
  {
    hide Next, Run, Fits, HasWriter, WritesSomething;
    FitsInitially();
    assert HasWriter(cfg, INITIAL, k) by { NothingWritten(cfg, k); }
    forall m, e | Fits(m) && HasWriter(cfg, m, k) && NextFor(cfg)(m, e).Some?
      ensures Fits(NextFor(cfg)(m, e).value) && HasWriter(cfg, NextFor(cfg)(m, e).value, k)
    {
      if e.Pass? {
        FitsPass(cfg, m, e.d);
        WrittenPass(cfg, m, k, e.d);
      } else {
        FitsArrive(cfg, m, e.request, e.fortune);
        WrittenArrive(cfg, m, k, e.request, e.fortune);
      }
    }
    InvariantHolds(NextFor(cfg), m => Fits(m) && HasWriter(cfg, m, k), INITIAL, events);
  }

  lemma NothingWritten(cfg: Config, k: string)
    ensures HasWriter(cfg, INITIAL, k)
  {
  }

  /** Some request with the key has been let through and its lifetime has not passed. */
  predicate InProcess(s: State, k: string) {
    exists j | 0 <= j < |s.log| :: s.log[j].response.Forwarded? && s.log[j].request.key == k && !Elapsed(s.log[j], s.now)
  }

  /** A live entry was written for a request that was let through exactly when one is in process. */
  lemma WrittenWhileLive(cfg: Config, s: State, k: string, i: nat)
    requires WrittenFor(cfg, s, k, i) && Live(s.redis, k, s.now)
    ensures i < |s.log| && !Elapsed(s.log[i], s.now)
    ensures s.log[i].response.Forwarded? <==> InProcess(s, k)
  {
    if !s.log[i].response.Forwarded? {
      forall j | 0 <= j < |s.log| && s.log[j].response.Forwarded? && s.log[j].request.key == k ensures Elapsed(s.log[j], s.now) {
        assert Elapsed(s.log[j], s.log[i].at);
      }
    }
  }

  /** In every run, whatever fails, a request is answered 202 because of an earlier one with the same
      body whose lifetime has not passed, and is told what was stored for that one.  That one was let
      through, or was told of a failure although its write was done; and it was let through exactly
      when some request with this key is in process at all. */
  lemma AcceptedHasAnOrigin(cfg: Config, events: seq<Event>, s: State, r: Request, f: Fortune) returns (i: nat)
    requires WritesSomething(cfg.codec) && CollisionFree(cfg.codec) && Reaches(cfg, events, s)
    requires r.body.Some? && forall i | 0 <= i < |s.log| && s.log[i].request.key == r.key :: s.log[i].request.body.Some?
    requires Handle(cfg.codec, cfg.max, s.redis, s.now, r, f).1.Accepted?
    ensures i < |s.log| && s.log[i].request.key == r.key && s.log[i].minified == Answered(cfg, s, r, f).minified
    ensures !Elapsed(s.log[i], s.now)
    ensures s.log[i].response.Forwarded? || s.log[i].response.ServerError?
    ensures s.log[i].response.Forwarded? <==> InProcess(s, r.key)
    ensures Some(Handle(cfg.codec, cfg.max, s.redis, s.now, r, f).1.payload)
            == cfg.codec.decode(Stored(cfg.codec, s.log[i].request, s.log[i].payload))
  {
    hide Reaches, WritesSomething;
    WrittenOfRun(cfg, events, s, r.key);
    hide Handle, Answered, Stored, Expiry, AllElapsed;
    AcceptedMeansFound(cfg, s, r, f);
    i :| WrittenFor(cfg, s, r.key, i);
    WrittenWhileLive(cfg, s, r.key, i);
  }

  /** A 202 is sent only when a request with the same body was let through and its lifetime has
      not passed; and it carries what was stored then. */
  lemma AcceptedAsADuplicate(cfg: Config, events: seq<Event>, s: State, r: Request, f: Fortune) returns (i: nat)
    requires WritesSomething(cfg.codec) && CollisionFree(cfg.codec)
    requires Run(NextConfirmed(cfg, r.key), INITIAL, events) == Some(s)
    requires r.body.Some? && forall i | 0 <= i < |s.log| && s.log[i].request.key == r.key :: s.log[i].request.body.Some?
    requires Handle(cfg.codec, cfg.max, s.redis, s.now, r, f).1.Accepted?
    ensures i < |s.log| && s.log[i].response.Forwarded? && s.log[i].request.key == r.key
    ensures s.log[i].minified == Answered(cfg, s, r, f).minified
    ensures !Elapsed(s.log[i], s.now)
    ensures Some(Handle(cfg.codec, cfg.max, s.redis, s.now, r, f).1.payload)
            == cfg.codec.decode(Stored(cfg.codec, s.log[i].request, s.log[i].payload))
  {
    hide Handle, Answered, Run, WritesSomething, Stored;
    ConfirmedIsARun(cfg, events, s, r.key);
    OriginsOfRun(cfg, events, s, r.key);
    AcceptedMeansFound(cfg, s, r, f);
    var j: nat :| StoredFor(cfg, s, r.key, j);
    LiveMeansNotElapsed(cfg, s, r.key, j);
    i := AcceptedHasAnOrigin(cfg, events, s, r, f);
  }

  /** And the other way round: a request that passes its checks and can reach Redis is let
      through exactly when the lifetimes of all before it with its key have passed. */
  lemma ForwardedExactlyWhenFree(cfg: Config, events: seq<Event>, s: State, r: Request, f: Fortune)
    requires WritesSomething(cfg.codec) && Run(NextConfirmed(cfg, r.key), INITIAL, events) == Some(s)
    requires Check(cfg.codec, r, f.bodyReads).Passed? && f.redisReads && f.write.Written?
    ensures Handle(cfg.codec, cfg.max, s.redis, s.now, r, f).1.Forwarded? <==>
              forall i | 0 <= i < |s.log| && s.log[i].response.Forwarded? && s.log[i].request.key == r.key ::
                Elapsed(s.log[i], s.now)
  {
    hide Run, Check, WritesSomething, KeptUntilElapsed, StoredFor, BodyFits, Stored;
    ConfirmedIsARun(cfg, events, s, r.key);
    FitsOfRun(cfg, events, s);
    OriginsOfRun(cfg, events, s, r.key);
    if Live(s.redis, r.key, s.now) {
      var i: nat :| StoredFor(cfg, s, r.key, i);
      LiveMeansNotElapsed(cfg, s, r.key, i);
    } else {
      forall i | 0 <= i < |s.log| && s.log[i].response.Forwarded? && s.log[i].request.key == r.key
        ensures Elapsed(s.log[i], s.now)
      {
        KeptMeansLive(s, s.log[i]);
      }
    }
  }

  lemma LiveMeansNotElapsed(cfg: Config, s: State, k: string, i: nat)
    requires StoredFor(cfg, s, k, i) && Live(s.redis, k, s.now)
    ensures i < |s.log| && s.log[i].response.Forwarded? && s.log[i].request.key == k && !Elapsed(s.log[i], s.now)
  {
  }

  lemma KeptMeansLive(s: State, d: Done)
    requires KeptUntilElapsed(s, d) && d.response.Forwarded? && !Live(s.redis, d.request.key, s.now)
    ensures Elapsed(d, s.now)
  {
  }

  lemma {:induction false} ConfirmedIsARun(cfg: Config, events: seq<Event>, s: State, key: string)
    requires Run(NextConfirmed(cfg, key), INITIAL, events) == Some(s)
    ensures Reaches(cfg, events, s)
  {
    hide Next;
    if events != [] {
      var n := |events| - 1;
      ConfirmedIsARun(cfg, events[..n], Run(NextConfirmed(cfg, key), INITIAL, events[..n]).value, key);
    }
  }

  // ---------- what these results need ----------

  /** From any state at all in which the key is free: if the write of a request is done while its
      reply is lost, it is not let through, and yet whatever arrives under its key within the
      lifetime and passes its checks is told that it is in process. */
  lemma LostReplySilencesTheKey(cfg: Config, s: State, r: Request, d: nat, q: Request)
    requires WritesSomething(cfg.codec) && !Live(s.redis, r.key, s.now) && Check(cfg.codec, r, true).Passed?
    requires var c := Check(cfg.codec, r, true);
             && cfg.codec.decode(Stored(cfg.codec, r, c.payload)).Some?
             && (StoredTtl(c.seconds, cfg.max) > 0 ==> d < StoredTtl(c.seconds, cfg.max))
    requires q.key == r.key && Check(cfg.codec, q, true).Passed?
    ensures var m := Next(cfg, Next(cfg, s, Arrive(r, Fortune(true, true, ReplyLost))), Pass(d));
            && m.log[|s.log|].response == ServerError
            && Handle(cfg.codec, cfg.max, m.redis, m.now, q, Fortune(true, true, Written)).1.Accepted?
  {
    hide StoredTtl, Check;
    assert Stored(cfg.codec, r, Check(cfg.codec, r, true).payload) != "";
  }

  /** The same at once and on an empty Redis. */
  lemma LostReplySilencesTheRequest(cfg: Config, r: Request, n: int, p: Payload, m: Option<string>)
    requires WritesSomething(cfg.codec) && Check(cfg.codec, r, true) == Passed(p, m, n) && StoredTtl(n, cfg.max) > 0
    requires cfg.codec.decode(Stored(cfg.codec, r, p)).Some?
    ensures var (redis, first) := Handle(cfg.codec, cfg.max, map[], 0, r, Fortune(true, true, ReplyLost));
            first == ServerError
            && Handle(cfg.codec, cfg.max, redis, 0, r, Fortune(true, true, Written)).1.Accepted?
  {
    hide StoredTtl, Check;
    LostReplySilencesTheKey(cfg, INITIAL, r, 0, r);
  }

  /** JSON `null` is the body whose payload is nothing: it is checked against its key like any other,
      what is stored for it is the header, and so a repetition is answered with the header. */
  lemma NullBodyStoresTheHeader(cfg: Config, r: Request, text: string, n: int)
    requires WritesSomething(cfg.codec) && r.body == Some(Json(text)) && cfg.codec.parse(text) == Some(Null)
    requires ValidKey(r.key) && ValidSession(r.session) && SessionSeconds(r.session) == Some(n) && StoredTtl(n, cfg.max) > 0
    ensures var f := Fortune(true, true, Written);
            var (redis, response) := Handle(cfg.codec, cfg.max, map[], 0, r, f);
            && (response.Forwarded? <==> cfg.codec.minify(text).Some? && cfg.codec.hash(cfg.codec.minify(text).value) == r.key)
            && (response.Forwarded? ==>
                  && r.key in redis && redis[r.key].data == cfg.codec.encodeHeader(r)
                  && Handle(cfg.codec, cfg.max, redis, 0, r, f).1 ==
                       match cfg.codec.decode(cfg.codec.encodeHeader(r)) { case Some(q) => Accepted(q) case None => ServerError })
  {
    hide StoredTtl, ValidSession, SessionSeconds, ValidKey;
    assert cfg.codec.encodeHeader(r) != "";
  }

  /** Only for one who calls the middleware with a request whose body is absent altogether, which a
      server of net/http never does: such a request is not checked against its key, and takes the
      key from one that has a body. */
  lemma BodylessRequestTakesTheKey(cfg: Config, first: Request, second: Request, p: Payload, m: Option<string>, n: int)
    requires WritesSomething(cfg.codec) && first.body.None? && second.body.Some? && first.key == second.key
    requires ValidKey(first.key) && ValidSession(first.session)
    requires SessionSeconds(first.session) == Some(n) && StoredTtl(n, cfg.max) > 0
    requires Check(cfg.codec, second, true) == Passed(p, m, n) && cfg.codec.decode(cfg.codec.encodeHeader(first)).Some?
    ensures var f := Fortune(true, true, Written);
            var (redis, response) := Handle(cfg.codec, cfg.max, map[], 0, first, f);
            response == Forwarded && Handle(cfg.codec, cfg.max, redis, 0, second, f).1.Accepted?
  {
    hide StoredTtl, ValidSession, SessionSeconds, ReadBody;
    assert cfg.codec.encodeHeader(first) != "";
  }

  /** The handler is not one step: of two requests that both look before either stores, both are
      let through. */
  lemma TwoAtOnceAreBothForwarded(cfg: Config, redis: Redis, now: int, r: Request, p: Payload, ttl: int)
    requires !Live(redis, r.key, now)
    ensures var look := Look(redis, r.key, now, true);
            var (redis1, first) := Commit(cfg.codec, redis, r, p, look, now, ttl, Written);
            var (_, second) := Commit(cfg.codec, redis1, r, p, look, now, ttl, Written);
            first == Forwarded && second == Forwarded
  {
  }
}
