/** Which answer a request gets, told by its headers, its body, what Redis holds and how the accesses fare. */
module IdempotencyAnswers {
  import opened Wrappers
  import opened StoreTtl
  import opened Idempotency

  predicate HeadersFit(r: Request) { ValidKey(r.key) && ValidSession(r.session) }

  /** The content reads as the payload `p`, and `t` is the text that is hashed for it. */
  predicate ReadsAs(c: Codec, content: Content, p: Payload, t: string) {
    match content
    case Json(text) => c.parse(text) == Some(p) && t == text
    case Form(text) => c.bind(text) == Some(t) && p == Object(t)
    case Other => p == Object("") && t == ""
  }

  /** The body arrives, is decoded as `p` and minified to `m`. */
  ghost predicate BodyIs(c: Codec, r: Request, f: Fortune, p: Payload, m: string) {
    r.body.Some? && (f.bodyReads || r.body.value.Other?) && exists t :: ReadsAs(c, r.body.value, p, t) && c.minify(t) == Some(m)
  }

  ghost predicate HasBody(c: Codec, r: Request, f: Fortune) {
    exists p, m :: BodyIs(c, r, f, p, m)
  }

  /** The request is checked against its key and passes. */
  ghost predicate KeyMatches(c: Codec, r: Request, f: Fortune) {
    exists p, m :: BodyIs(c, r, f, p, m) && c.hash(m) == r.key
  }

  /** There is one way at most to read a body. */
  lemma OneReading(c: Codec, r: Request, f: Fortune, p: Payload, m: string, p': Payload, m': string)
    requires BodyIs(c, r, f, p, m) && BodyIs(c, r, f, p', m')
    ensures p == p' && m == m'
  {
  }

  lemma BodyIsRead(c: Codec, r: Request, f: Fortune)
    requires r.body.Some?
    ensures var b := ReadBody(c, r.key, r.body.value, f.bodyReads);
            && (b.Unreadable? <==> !HasBody(c, r, f))
            && (b.Payload? <==> KeyMatches(c, r, f))
            && (b.Payload? ==> BodyIs(c, r, f, b.payload, b.minified))
  {
    var content := r.body.value;
    match Text(c, content)
    case None =>
    case Some(pair) =>
      assert ReadsAs(c, content, pair.0, pair.1);
      if (f.bodyReads || content.Other?) && c.minify(pair.1).Some? {
        assert BodyIs(c, r, f, pair.0, c.minify(pair.1).value);
      }
  }

  /** What gets a request as far as Redis, and what sends it back before. */
  lemma CheckIsExact(c: Codec, r: Request, f: Fortune)
    ensures var checked := Check(c, r, f.bodyReads);
            && (checked == Rejected(BadFormat) <==> !HeadersFit(r))
            && (checked == Rejected(BadSession) <==> HeadersFit(r) && SessionSeconds(r.session).None?)
            && (checked == Rejected(ServerError) <==>
                  HeadersFit(r) && SessionSeconds(r.session).Some? && r.body.Some? && !HasBody(c, r, f))
            && (checked == Rejected(KeyMismatch) <==>
                  HeadersFit(r) && SessionSeconds(r.session).Some? && HasBody(c, r, f) && !KeyMatches(c, r, f))
            && (checked.Passed? <==>
                  HeadersFit(r) && SessionSeconds(r.session).Some? && (r.body.None? || KeyMatches(c, r, f)))
            && (checked.Passed? && r.body.Some? ==>
                  checked.minified.Some? && BodyIs(c, r, f, checked.payload, checked.minified.value))
  {
    hide ReadBody, HasBody, KeyMatches, BodyIs, SessionSeconds, ValidKey, ValidSession;
    if r.body.Some? {
      BodyIsRead(c, r, f);
      MatchHasBody(c, r, f);
    } else {
      NoBody(c, r, f);
    }
  }

  lemma MatchHasBody(c: Codec, r: Request, f: Fortune)
    ensures KeyMatches(c, r, f) ==> HasBody(c, r, f)
  {
  }

  lemma NoBody(c: Codec, r: Request, f: Fortune)
    requires r.body.None?
    ensures !HasBody(c, r, f)
  {
  }

  /** The request gets as far as Redis. */
  ghost predicate Passes(c: Codec, r: Request, f: Fortune) {
    HeadersFit(r) && SessionSeconds(r.session).Some? && (r.body.None? || KeyMatches(c, r, f))
  }

  /** The answers that Redis decides. */
  predicate DueOfRedis(c: Codec, redis: Redis, now: int, r: Request, f: Fortune, a: Response) {
    var live := Live(redis, r.key, now);
    match a
    case Accepted(q) => f.redisReads && live && redis[r.key].data != "" && c.decode(redis[r.key].data) == Some(q)
    case Forwarded => f.redisReads && if live then redis[r.key].data == "" else f.write.Written?
    case ServerError =>
      || !f.redisReads
      || (live && redis[r.key].data != "" && c.decode(redis[r.key].data).None?)
      || (!live && !f.write.Written?)
    case _ => false
  }

  lemma CommitIsDue(c: Codec, redis: Redis, r: Request, p: Payload, now: int, ttl: int, f: Fortune, a: Response)
    ensures Commit(c, redis, r, p, Look(redis, r.key, now, f.redisReads), now, ttl, f.write).1 == a
            <==> DueOfRedis(c, redis, now, r, f, a)
  {
    hide Put, Stored;
  }

  /** When an answer is due. */
  ghost predicate Due(c: Codec, redis: Redis, now: int, r: Request, f: Fortune, a: Response) {
    var fits := HeadersFit(r) && SessionSeconds(r.session).Some?;
    match a
    case BadFormat => !HeadersFit(r)
    case BadSession => HeadersFit(r) && SessionSeconds(r.session).None?
    case KeyMismatch => fits && HasBody(c, r, f) && !KeyMatches(c, r, f)
    case ServerError =>
      (fits && r.body.Some? && !HasBody(c, r, f)) || (Passes(c, r, f) && DueOfRedis(c, redis, now, r, f, a))
    case _ => Passes(c, r, f) && DueOfRedis(c, redis, now, r, f, a)
  }

  /** Every answer is given exactly when it is due. */
  lemma AnswerIsExact(c: Codec, max: int, redis: Redis, now: int, r: Request, f: Fortune, a: Response)
    ensures Handle(c, max, redis, now, r, f).1 == a <==> Due(c, redis, now, r, f, a)
  {
    hide Check, HasBody, KeyMatches, BodyIs, SessionSeconds, HeadersFit, Commit, Look, StoredTtl, DueOfRedis;
    CheckIsExact(c, r, f);
    MatchHasBody(c, r, f);
    if r.body.None? { NoBody(c, r, f); }
    if Passes(c, r, f) {
      var checked := Check(c, r, f.bodyReads);
      CommitIsDue(c, redis, r, checked.payload, now, StoredTtl(checked.seconds, max), f, a);
      assert DueOfRedis(c, redis, now, r, f, a) ==> !a.BadFormat? && !a.BadSession? && !a.KeyMismatch? by {
        RedisDecidesThree(c, redis, now, r, f, a);
      }
    }
  }

  lemma RedisDecidesThree(c: Codec, redis: Redis, now: int, r: Request, f: Fortune, a: Response)
    ensures DueOfRedis(c, redis, now, r, f, a) ==> !a.BadFormat? && !a.BadSession? && !a.KeyMismatch?
  {
  }

  /** A request whose body matches its key is let through when its key is free and the write for it is
      confirmed; what is stored for its session is its payload, and the header for JSON `null`. */
  lemma MatchingBodyIsForwarded(c: Codec, max: int, redis: Redis, now: int, r: Request, f: Fortune, p: Payload, m: string)
    requires HeadersFit(r) && SessionSeconds(r.session).Some? && BodyIs(c, r, f, p, m) && c.hash(m) == r.key
    requires f.redisReads && !Live(redis, r.key, now) && f.write.Written?
    ensures var (redis', answer) := Handle(c, max, redis, now, r, f);
            && answer.Forwarded?
            && redis' == redis[r.key := Entry(if p.Null? then c.encodeHeader(r) else c.encode(p),
                                              Expiry(now, StoredTtl(SessionSeconds(r.session).value, max)))]
  {
    hide Check, HasBody, KeyMatches, BodyIs, HeadersFit, Live, StoredTtl, SessionSeconds;
    assert KeyMatches(c, r, f) by { Matches(c, r, f, p, m); }
    CheckIsExact(c, r, f);
    SecondsOfCheck(c, r, f);
    var checked := Check(c, r, f.bodyReads);
    assert r.body.Some? by { BodyThere(c, r, f, p, m); }
    OneReading(c, r, f, p, m, checked.payload, checked.minified.value);
  }

  lemma Matches(c: Codec, r: Request, f: Fortune, p: Payload, m: string)
    requires BodyIs(c, r, f, p, m) && c.hash(m) == r.key
    ensures KeyMatches(c, r, f)
  {
  }

  lemma BodyThere(c: Codec, r: Request, f: Fortune, p: Payload, m: string)
    requires BodyIs(c, r, f, p, m)
    ensures r.body.Some?
  {
  }

  lemma SecondsOfCheck(c: Codec, r: Request, f: Fortune)
    ensures var checked := Check(c, r, f.bodyReads);
            checked.Passed? ==> SessionSeconds(r.session) == Some(checked.seconds)
  {
    hide SessionSeconds, ReadBody, ValidKey, ValidSession;
  }
}
