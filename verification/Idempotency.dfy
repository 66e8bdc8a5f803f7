/**
 The idempotency middleware (idempotency-key.go): a request is let through once for its key, and
 while its entry lives in Redis the same request is answered 202.  Redis and the body may fail at
 every access.  Encodings and the hash are whatever functions a codec holds.
 */
module Idempotency {
  import opened Wrappers
  import opened Decimal
  import opened StoreTtl

  /** A body as it arrives, by content type: `application/json` and nothing more, a multipart form,
      or anything else. */
  datatype Content = Json(text: string) | Form(text: string) | Other

  /** The body of a request that a server of net/http hands over is never absent. */
  datatype Request = Request(key: string, session: string, body: Option<Content>)

  /** What a body is after it has been read: nothing for JSON `null`, or an object, by its text. */
  datatype Payload = Null | Object(text: string)

  /** The functions of libraries: reading JSON text and forms, removing white space from JSON,
      writing payloads and headers for Redis, reading them again, and the hash. */
  datatype Codec = Codec(parse: string -> Option<Payload>, bind: string -> Option<string>, minify: string -> Option<string>,
                         encode: Payload -> string, encodeHeader: Request -> string, decode: string -> Option<Payload>,
                         hash: string -> string)

  /** What is written to Redis is never empty. */
  ghost predicate WritesSomething(c: Codec) {
    (forall p :: c.encode(p) != "") && (forall r :: c.encodeHeader(r) != "")
  }

  datatype Entry = Entry(data: string, expires: Option<int>)

  type Redis = map<string, Entry>

  predicate Live(redis: Redis, key: string, now: int) {
    key in redis && (redis[key].expires.None? || now < redis[key].expires.value)
  }

  /** A write to Redis is done, or refused, or done while its reply is lost. */
  datatype Write = Written | Refused | ReplyLost

  /** How the accesses of one request fare. */
  datatype Fortune = Fortune(bodyReads: bool, redisReads: bool, write: Write)

  datatype Response = Forwarded | Accepted(payload: Payload) | BadFormat | BadSession | KeyMismatch | ServerError

  // ---------- headers ----------

  predicate IsKeyChar(c: char) {
    c == '-' || c == '_' || '0' <= c <= '9' || 'a' <= c <= 'z' || 'A' <= c <= 'Z'
  }

  predicate ValidKey(key: string) {
    key != "" && |key| <= 50 && forall i | 0 <= i < |key| :: IsKeyChar(key[i])
  }

  /** Empty, or digits with an optional minus sign. */
  predicate ValidSession(s: string) {
    |s| <= 60 && (s == "" || (var digits := if s[0] == '-' then s[1..] else s; digits != "" && AllDigits(digits)))
  }

  /** The seconds that a Session header asks for. */
  function SessionSeconds(session: string): Option<int> {
    match Atoi(if session == "" || session == "0" then "9" else session)
    case None => None
    case Some(n) => Some(if n < 4 then 9 else n)
  }

  /** Every session that is accepted is of at least four seconds. */
  lemma SessionIsLongEnough(session: string)
    ensures SessionSeconds(session).Some? ==> 4 <= SessionSeconds(session).value <= MAX_INT
  {
  }

  /** A number of seconds is taken as it is written; below four it stands for nine, and one that
      does not fit is refused. */
  lemma SessionOfDigits(zeros: nat, n: nat)
    ensures SessionSeconds(Zeros(zeros) + Digits(n)) == if n > MAX_INT then None else Some(if n < 4 then 9 else n)
  {
    AtoiOfDigits(zeros, n);
    if Zeros(zeros) + Digits(n) == "0" {
      ValueOfDigits(zeros, n);
    }
    NineIsNine();
  }

  lemma NineIsNine()
    ensures Atoi("9") == Some(9)
  {
    assert Value("9") == 10 * Value("") + 9;
  }

  // ---------- the body ----------

  /** ReadBody: the payload and the minified body, a mismatch, or a failure. */
  datatype Body = Payload(payload: Payload, minified: string) | Mismatch | Unreadable

  /** The text that is hashed; a body of another type is read as empty text. */
  function Text(c: Codec, content: Content): Option<(Payload, string)> {
    match content
    case Json(text) => (match c.parse(text) { case None => None case Some(p) => Some((p, text)) })
    case Form(text) => (match c.bind(text) { case None => None case Some(t) => Some((Object(t), t)) })
    case Other => Some((Object(""), ""))
  }

  function ReadBody(c: Codec, key: string, content: Content, fine: bool): Body {
    if !fine && !content.Other? then Unreadable
    else
      match Text(c, content)
      case None => Unreadable
      case Some(pair) =>
        match c.minify(pair.1)
        case None => Unreadable
        case Some(m) => if c.hash(m) == key then Body.Payload(pair.0, m) else Mismatch
  }

  /** What a request is about, if it gets as far as Redis: its payload and its minified body. */
  datatype Checked = Passed(payload: Payload, minified: Option<string>, seconds: int) | Rejected(response: Response)

  function Check(c: Codec, r: Request, fine: bool): Checked {
    if !ValidKey(r.key) || !ValidSession(r.session) then Rejected(BadFormat)
    else
      match SessionSeconds(r.session)
      case None => Rejected(BadSession)
      case Some(n) =>
        match r.body
        case None => Passed(Null, None, n)
        case Some(content) =>
          match ReadBody(c, r.key, content, fine)
          case Unreadable => Rejected(ServerError)
          case Mismatch => Rejected(KeyMismatch)
          case Payload(p, m) => Passed(p, Some(m), n)
  }

  // ---------- Redis ----------

  /** What the read says. */
  datatype Found = Data(data: string) | Missing | Failed

  function Look(redis: Redis, key: string, now: int, fine: bool): Found {
    if !fine then Failed else if Live(redis, key, now) then Data(redis[key].data) else Missing
  }

  /** What is stored for a request: its payload, or the header when there is none. */
  function Stored(c: Codec, r: Request, p: Payload): string {
    if p.Null? then c.encodeHeader(r) else c.encode(p)
  }

  function Put(redis: Redis, key: string, data: string, now: int, ttl: int): Redis {
    redis[key := Entry(data, Expiry(now, ttl))]
  }

  /** The part of the handler after the read. */
  function Commit(c: Codec, redis: Redis, r: Request, p: Payload, found: Found, now: int, ttl: int, write: Write)
    : (Redis, Response)
  {
    match found
    case Failed => (redis, ServerError)
    case Data(data) =>
      if data == "" then (redis, Forwarded)
      else (redis, match c.decode(data) { case Some(q) => Accepted(q) case None => ServerError })
    case Missing =>
      match write
      case Written => (Put(redis, r.key, Stored(c, r, p), now, ttl), Forwarded)
      case Refused => (redis, ServerError)
      case ReplyLost => (Put(redis, r.key, Stored(c, r, p), now, ttl), ServerError)
  }

  /** The whole handler, as one step. */
  function Handle(c: Codec, max: int, redis: Redis, now: int, r: Request, f: Fortune): (Redis, Response) {
    match Check(c, r, f.bodyReads)
    case Rejected(response) => (redis, response)
    case Passed(p, _, n) => Commit(c, redis, r, p, Look(redis, r.key, now, f.redisReads), now, StoredTtl(n, max), f.write)
  }

  // ---------- the program ----------

  class Middleware {
    const codec: Codec
    const max: int
    var redis: Redis

    constructor (codec: Codec, max: int)
      ensures this.codec == codec && this.max == max && redis == map[]
    {
      this.codec := codec;
      this.max := max;
      redis := map[];
    }

    /** GetRedis: the data, and whether there was an error and it said that there is no such key. */
    method GetRedis(key: string, now: int, fine: bool) returns (data: string, err: Option<bool>)
      ensures (data, err) == match Look(redis, key, now, fine)
                             case Data(d) => (d, None)
                             case Missing => ("", Some(true))
                             case Failed => ("", Some(false))
    {
      if !fine {
        return "", Some(false);
      }
      if Live(redis, key, now) {
        return redis[key].data, None;
      }
      return "", Some(true);
    }

    /** StoreRedis. */
    method StoreRedis(key: string, data: string, seconds: int, now: int, write: Write) returns (failed: bool)
      modifies `redis
      ensures redis == if write.Refused? then old(redis) else Put(old(redis), key, data, now, StoredTtl(seconds, max))
      ensures failed <==> !write.Written?
    {
      if !write.Refused? {
        redis := Put(redis, key, data, now, Clamp(Duration(seconds, SECOND), max));
      }
      failed := !write.Written?;
    }

    /** VerifIdemKey, up to the response or the call of the next handler. */
    method VerifIdemKey(r: Request, now: int, f: Fortune) returns (response: Response)
      modifies `redis
      ensures (redis, response) == Handle(codec, max, old(redis), now, r, f)
    {
      if !ValidKey(r.key) || !ValidSession(r.session) {
        return BadFormat;
      }
      var header := r.session;
      if header == "" || header == "0" {
        header := "9";
      }
      var session := Atoi(header);
      if session.None? {
        return BadSession;
      }
      var seconds := session.value;
      if seconds < 4 {
        seconds := 9;
      }
      var request := Null;
      if r.body.Some? {
        match ReadBody(codec, r.key, r.body.value, f.bodyReads) {
          case Unreadable => return ServerError;
          case Mismatch => return KeyMismatch;
          case Payload(p, _) => request := p;
        }
      }
      var data, err := GetRedis(r.key, now, f.redisReads);
      if data != "" {
        var q := codec.decode(data);
        return if q.Some? then Accepted(q.value) else ServerError;
      }
      if err.Some? {
        if !err.value {
          return ServerError;
        }
        var failed;
        match request {
          case Null => failed := StoreRedis(r.key, codec.encodeHeader(r), seconds, now, f.write);
          case Object(_) => failed := StoreRedis(r.key, codec.encode(request), seconds, now, f.write);
        }
        if failed {
          return ServerError;
        }
      }
      return Forwarded;
    }
  }
}
