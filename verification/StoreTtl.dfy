/** Lifetimes in Redis (redis.go): seconds and minutes become 64-bit nanoseconds, which wrap. */
module StoreTtl {
  import opened Wrappers
  import opened Decimal

  const TWO_TO_THE_63 := 0x8000_0000_0000_0000
  const TWO_TO_THE_64 := 0x1_0000_0000_0000_0000

  /** The value of an int64 that was computed as `x`. */
  function Wrap64(x: int): int { (x + TWO_TO_THE_63) % TWO_TO_THE_64 - TWO_TO_THE_63 }

  const SECOND := 1_000_000_000
  const MINUTE := 60 * SECOND

  /** `time.Second * time.Duration(n)` and its like. */
  function Duration(n: int, unit: int): int { Wrap64(n * unit) }

  const DEFAULT_MINUTES := 30 * 24 * 60

  /** MaxTTL, from the value of REDIS_MAX_TTL_MINUTES. */
  function MaxTtl(env: string): int {
    var minutes := match Atoi(env) { case Some(n) => if n > 0 then n else DEFAULT_MINUTES case None => DEFAULT_MINUTES };
    Duration(minutes, MINUTE)
  }

  /** clampStoreTTL. */
  function Clamp(ttl: int, max: int): int {
    if ttl < 0 then 0 else if ttl > max then max else ttl
  }

  /** What Redis makes of a lifetime: one that is not positive is none, and the key stays. */
  function Expiry(now: int, ttl: int): Option<int> {
    if ttl > 0 then Some(now + ttl) else None
  }

  function Min(a: int, b: int): int { if a < b then a else b }

  /** The lifetime that StoreRedis gives to a number of seconds. */
  function StoredTtl(seconds: int, max: int): int { Clamp(Duration(seconds, SECOND), max) }

  /** A value is itself exactly when it fits. */
  lemma WrapIsExact(x: int)
    ensures Wrap64(x) == x <==> -TWO_TO_THE_63 <= x < TWO_TO_THE_63
    ensures -TWO_TO_THE_63 <= Wrap64(x) < TWO_TO_THE_63
  {
  }

  /** The seconds that fit into 64 bits of nanoseconds. */
  const MAX_SECONDS := 9_223_372_036

  /** A lifetime is what was asked for, or the maximum, exactly when the nanoseconds do not wrap
      or what they wrap to is beyond the maximum too. */
  lemma StoredTtlIsExact(seconds: int, max: int)
    requires 0 < seconds && 0 < max < TWO_TO_THE_63
    ensures StoredTtl(seconds, max) == Min(seconds * SECOND, max) <==>
            seconds <= MAX_SECONDS || Duration(seconds, SECOND) >= max
  {
    hide Wrap64;
    WrapIsExact(seconds * SECOND);
    if seconds <= MAX_SECONDS {
      assert seconds * SECOND < TWO_TO_THE_63;
    } else {
      assert seconds * SECOND >= TWO_TO_THE_63;
    }
  }

  /** So, for what the middleware asks for, it is at least the four seconds it insists on. */
  lemma StoredTtlIsEnough(seconds: int, max: int)
    requires 4 <= seconds <= MAX_SECONDS && MINUTE <= max < TWO_TO_THE_63
    ensures StoredTtl(seconds, max) == Min(seconds * SECOND, max) >= 4 * SECOND
  {
    StoredTtlIsExact(seconds, max);
  }

  /** The first number of seconds that wraps is stored for ever, and a larger one for less than
      a third of a second. */
  lemma WrappedTtl()
    ensures StoredTtl(MAX_SECONDS + 1, MaxTtl("")) == 0 && Expiry(0, 0) == None
    ensures StoredTtl(18_446_744_074, MaxTtl("")) == 290_448_384
  {
    assert Wrap64((MAX_SECONDS + 1) * SECOND) < 0;
    assert Wrap64(18_446_744_074 * SECOND) == 290_448_384;
    assert MaxTtl("") == 43_200 * MINUTE;
  }

  /** The limit itself is the minutes asked for exactly up to 153722867 of them. */
  lemma MaxTtlIsExact(env: string, minutes: int)
    requires Atoi(env) == Some(minutes) && minutes > 0
    ensures MaxTtl(env) == minutes * MINUTE <==> minutes <= 153_722_867
  {
    hide Wrap64;
    WrapIsExact(minutes * MINUTE);
  }

  /** A limit that wraps below zero limits everything to no expiry at all. */
  lemma WrappedLimitNeverExpires(now: int, seconds: int, max: int)
    requires max <= 0
    ensures Expiry(now, StoredTtl(seconds, max)) == None
  {
  }
}
