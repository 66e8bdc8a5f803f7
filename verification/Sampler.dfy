/**
 The Initial/Thereafter log sampler (phlogger/sampler.go): in each period the first Initial
 lines of a key pass, then every Thereafter-th, which reports the ones it stands for.
 */
module Sampler {
  import opened Wrappers
  import opened KeyedState
  import opened Arith
  import opened Verdicts

  datatype Config = Config(initial: int, thereafter: int, period: int)

  /** `resetNano` is 0 in a new entry, the Unix epoch. */
  datatype Entry = Entry(count: int, resetNano: int)

  const SECOND: int := 1_000_000_000
  const NEW_ENTRY := Entry(0, 0)

  predicate Resets(cfg: Config, entry: Entry, now: int) {
    now - entry.resetNano >= cfg.period
  }

  /** One call on one key. */
  function CheckEntry(cfg: Config, e: Option<Entry>, now: int): (Option<Entry>, Answer) {
    if cfg.initial <= 0 then
      (e, Answer(true, 0))
    else
      var entry := e.GetOr(NEW_ENTRY);
      if Resets(cfg, entry, now) then
        (Some(Entry(1, now)), Answer(true, 0))
      else
        var n := entry.count + 1;
        var over := n - cfg.initial;
        (Some(entry.(count := n)),
         if n <= cfg.initial then Answer(true, 0)
         else if cfg.thereafter <= 0 then Answer(false, 0)
         else if over % cfg.thereafter == 0 then Answer(true, cfg.thereafter - 1)
         else Answer(false, 0))
  }

  function Step(cfg: Config): (Option<Entry>, int) -> (Option<Entry>, Answer) {
    (e, now) => CheckEntry(cfg, e, now)
  }

  class Sampler {
    const config: Config
    var entries: map<string, Entry>

    constructor (config: Config)
      ensures this.config == config && entries == map[]
    {
      this.config := config;
      entries := map[];
    }

    method Check(key: string, now: int) returns (allowed: bool, suppressed: int)
      modifies this
      ensures (entries, Answer(allowed, suppressed)) == StepKey(Step(config), old(entries), Call(key, now))
    {
      if config.initial <= 0 {
        assert Put(entries, key, Lookup(entries, key)) == entries;
        return true, 0;
      }
      if key !in entries {
        entries := entries[key := NEW_ENTRY];
      }
      ghost var entry := Lookup(old(entries), key).GetOr(NEW_ENTRY);
      var lastReset := entries[key].resetNano;
      if now - lastReset >= config.period {
        entries := entries[key := entries[key].(resetNano := now)];
        entries := entries[key := entries[key].(count := 1)];
        assert entries == old(entries)[key := Entry(1, now)];
        return true, 0;
      }
      var n := entries[key].count + 1;
      entries := entries[key := entries[key].(count := n)];
      assert entries == old(entries)[key := entry.(count := n)];
      if n <= config.initial {
        return true, 0;
      }
      if config.thereafter <= 0 {
        return false, 0;
      }
      var over := n - config.initial;
      if over % config.thereafter == 0 {
        return true, config.thereafter - 1;
      }
      return false, 0;
    }
  }

  /** The global sampler is replaced, never changed; a sampler that samples gets a period. */
  method InitializeSampler(cfg: Config) returns (s: Sampler)
    ensures fresh(s) && s.entries == map[]
    ensures s.config == cfg || (cfg.period <= 0 < cfg.initial && s.config == cfg.(period := SECOND))
    ensures s.config.initial > 0 ==> s.config.period > 0
  {
    var c := cfg;
    if c.period <= 0 && c.initial > 0 {
      c := c.(period := SECOND);
    }
    s := new Sampler(c);
  }

  // ---------- without sampling ----------

  /** A sampler that is switched off lets every line of every key through, reports nothing and
      keeps nothing. */
  lemma {:induction false} DisabledLetsAllThrough(cfg: Config, calls: seq<Call<int>>)
    requires cfg.initial <= 0
    ensures RunAll(Step(cfg), calls).entries == map[]
    ensures forall a | a in RunAll(Step(cfg), calls).answers :: a == Answer(true, 0)
  {
    if calls != [] {
      DisabledLetsAllThrough(cfg, calls[..|calls| - 1]);
    }
  }

  // ---------- what one period emits ----------

  function Max(a: int, b: int): int { if a > b then a else b }
  function Min(a: int, b: int): int { if a < b then a else b }

  /** Lines after `n` calls within one period. */
  function PeriodLines(cfg: Config, n: int): int
    requires cfg.thereafter > 0
  {
    Min(n, cfg.initial) + Max(0, n - cfg.initial) / cfg.thereafter
  }

  /** Dropped calls that those lines report. */
  function PeriodReported(cfg: Config, n: int): int
    requires cfg.thereafter > 0
  {
    (cfg.thereafter - 1) * (Max(0, n - cfg.initial) / cfg.thereafter)
  }

  /** Dropped calls that no line has reported yet. */
  function PeriodRest(cfg: Config, n: int): int
    requires cfg.thereafter > 0
  {
    Max(0, n - cfg.initial) % cfg.thereafter
  }

  lemma PeriodSplits(cfg: Config, n: int)
    requires cfg.thereafter > 0
    ensures n == PeriodLines(cfg, n) + PeriodReported(cfg, n) + PeriodRest(cfg, n)
    ensures 0 <= PeriodRest(cfg, n) < cfg.thereafter
  {
    var over, t := Max(0, n - cfg.initial), cfg.thereafter;
    assert over == t * (over / t) + over % t;
    assert t * (over / t) == over / t + (t - 1) * (over / t);
  }

  function Count(e: Option<Entry>): int { e.GetOr(NEW_ENTRY).count }

  /** The first call after `n` calls of a period is not a reset, when seen from the entry. */
  predicate Continues(cfg: Config, e: Option<Entry>, now: int) {
    !Resets(cfg, e.GetOr(NEW_ENTRY), now)
  }

  /** One more call in the same period. */
  lemma PeriodGrows(cfg: Config, e: Option<Entry>, now: int)
    requires cfg.initial > 0 && cfg.thereafter > 0 && Count(e) >= 0 && Continues(cfg, e, now)
    ensures var n := Count(e);
            var (entry, answer) := CheckEntry(cfg, e, now);
            && Count(entry) == n + 1
            && PeriodLines(cfg, n + 1) == PeriodLines(cfg, n) + (if answer.allowed then 1 else 0)
            && PeriodReported(cfg, n + 1) == PeriodReported(cfg, n) + answer.suppressed
  {
    var n, t := Count(e), cfg.thereafter;
    if n >= cfg.initial {
      var over := n - cfg.initial;
      DivStep(over, t);
      assert (t - 1) * (over / t + 1) == (t - 1) * (over / t) + (t - 1);
    } else {
      assert 0 / t == 0;
    }
  }

  /** Resets of an entry that had already counted calls: each starts a later period. */
  function LaterResets(cfg: Config, nows: seq<int>): nat {
    if nows == [] then 0
    else
      var n := |nows| - 1;
      var e := RunOne(Step(cfg), nows[..n]).entry;
      LaterResets(cfg, nows[..n]) + if Count(e) > 0 && !Continues(cfg, e, nows[n]) then 1 else 0
  }

  /** Dropped calls that were still unreported when their period ended. */
  function Lost(cfg: Config, nows: seq<int>): int
    requires cfg.thereafter > 0
  {
    if nows == [] then 0
    else
      var n := |nows| - 1;
      var e := RunOne(Step(cfg), nows[..n]).entry;
      Lost(cfg, nows[..n]) + if Continues(cfg, e, nows[n]) then 0 else PeriodRest(cfg, Count(e))
  }

  ghost predicate Accounted(cfg: Config, nows: seq<int>, run: Track<Entry, Answer>)
    requires cfg.thereafter > 0
  {
    && Count(run.entry) >= 0
    && |nows| == Lines(run.answers) + Reported(run.answers) + PeriodRest(cfg, Count(run.entry)) + Lost(cfg, nows)
  }

  /** A run and its sums with one more call. */
  lemma OneMoreCall(cfg: Config, nows: seq<int>, now: int)
    ensures var run := RunOne(Step(cfg), nows);
            var (entry, answer) := CheckEntry(cfg, run.entry, now);
            var run' := RunOne(Step(cfg), nows + [now]);
            && run'.entry == entry
            && Lines(run'.answers) == Lines(run.answers) + (if answer.allowed then 1 else 0)
            && Reported(run'.answers) == Reported(run.answers) + answer.suppressed
    ensures (nows + [now])[..|nows|] == nows
  {
    OneMore(Step(cfg), nows, now);
    var run := RunOne(Step(cfg), nows);
    Tally(run.answers, CheckEntry(cfg, run.entry, now).1);
    assert (nows + [now])[..|nows|] == nows;
  }

  /** What one call adds to the lines, the reports and the rest is itself. */
  lemma CallIsAccounted(cfg: Config, e: Option<Entry>, now: int)
    requires cfg.initial > 0 && cfg.thereafter > 0 && Count(e) >= 0
    ensures var (entry, answer) := CheckEntry(cfg, e, now);
            && Count(entry) >= 1
            && PeriodRest(cfg, Count(e)) + 1 == (if answer.allowed then 1 else 0) + answer.suppressed + PeriodRest(cfg, Count(entry))
               + (if Continues(cfg, e, now) then 0 else PeriodRest(cfg, Count(e)))
  {
    var n := Count(e);
    if Continues(cfg, e, now) {
      PeriodSplits(cfg, n);
      PeriodSplits(cfg, n + 1);
      PeriodGrows(cfg, e, now);
    } else {
      assert 0 % cfg.thereafter == 0;
    }
  }

  lemma AccountedStep(cfg: Config, nows: seq<int>, now: int)
    requires cfg.initial > 0 && cfg.thereafter > 0
    requires Accounted(cfg, nows, RunOne(Step(cfg), nows))
    ensures Accounted(cfg, nows + [now], RunOne(Step(cfg), nows + [now]))
  {
    OneMoreCall(cfg, nows, now);
    CallIsAccounted(cfg, RunOne(Step(cfg), nows).entry, now);
  }

  lemma {:induction false} LostAtResets(cfg: Config, nows: seq<int>)
    requires cfg.initial > 0 && cfg.thereafter > 0
    ensures 0 <= Lost(cfg, nows) <= LaterResets(cfg, nows) * (cfg.thereafter - 1)
  {
    if nows == [] {
    } else {
      var n, t := |nows| - 1, cfg.thereafter;
      LostAtResets(cfg, nows[..n]);
      var c, r := Count(RunOne(Step(cfg), nows[..n]).entry), LaterResets(cfg, nows[..n]);
      PeriodSplits(cfg, c);
      assert c <= 0 ==> PeriodRest(cfg, c) == 0 % t == 0;
      assert (r + 1) * (t - 1) == r * (t - 1) + (t - 1);
    }
  }

  /** Over a whole run every call is a line, is reported by a line, is still waiting to be
      reported (fewer than Thereafter), or was lost at one of the later resets, which lose at
      most Thereafter - 1 each. */
  lemma {:induction false} WholeRunAccounting(cfg: Config, nows: seq<int>)
    requires cfg.initial > 0 && cfg.thereafter > 0
    ensures Accounted(cfg, nows, RunOne(Step(cfg), nows))
    ensures 0 <= Lost(cfg, nows) <= LaterResets(cfg, nows) * (cfg.thereafter - 1)
  {
    LostAtResets(cfg, nows);
    if nows == [] {
    } else {
      var n := |nows| - 1;
      WholeRunAccounting(cfg, nows[..n]);
      AccountedStep(cfg, nows[..n], nows[n]);
      assert nows[..n] + [nows[n]] == nows;
    }
  }

  /** After the calls `before`, the calls `nows` make one period: the first is a reset, and the
      others come less than a period after it. */
  ghost predicate IsPeriod(cfg: Config, before: seq<int>, nows: seq<int>) {
    && nows != [] && Resets(cfg, RunOne(Step(cfg), before).entry.GetOr(NEW_ENTRY), nows[0])
    && forall i | 0 <= i < |nows| :: nows[i] - nows[0] < cfg.period
  }

  /** What `PeriodClosedForm` says after the first `n` calls of the period. */
  ghost predicate FormFits(cfg: Config, before: seq<int>, nows: seq<int>, n: nat)
    requires cfg.thereafter > 0 && 0 < n <= |nows|
  {
    var run := RunOne(Step(cfg), before + nows[..n]);
    && run.entry == Some(Entry(n, nows[0]))
    && Lines(run.answers[|before|..]) == PeriodLines(cfg, n)
    && Reported(run.answers[|before|..]) == PeriodReported(cfg, n)
  }

  /** One more call of the period. */
  lemma FormStep(cfg: Config, before: seq<int>, nows: seq<int>, n: nat)
    requires cfg.initial > 0 && cfg.thereafter > 0 && IsPeriod(cfg, before, nows) && 0 < n < |nows|
    requires FormFits(cfg, before, nows, n)
    ensures FormFits(cfg, before, nows, n + 1)
  {
    hide PeriodLines, PeriodReported;
    var run, now := RunOne(Step(cfg), before + nows[..n]), nows[n];
    var (entry, answer) := CheckEntry(cfg, run.entry, now);
    assert before + nows[..n + 1] == before + nows[..n] + [now];
    OneMore(Step(cfg), before + nows[..n], now);
    assert (run.answers + [answer])[|before|..] == run.answers[|before|..] + [answer];
    Tally(run.answers[|before|..], answer);
    PeriodGrows(cfg, run.entry, now);
  }

  /** The call that begins it. */
  lemma FormBegins(cfg: Config, before: seq<int>, nows: seq<int>)
    requires cfg.initial > 0 && cfg.thereafter > 0 && IsPeriod(cfg, before, nows)
    ensures FormFits(cfg, before, nows, 1)
  {
    hide PeriodLines, PeriodReported;
    var run, now := RunOne(Step(cfg), before), nows[0];
    var (entry, answer) := CheckEntry(cfg, run.entry, now);
    assert before + nows[..1] == before + [now];
    OneMore(Step(cfg), before, now);
    assert (run.answers + [answer])[|before|..] == [] + [answer];
    Tally([], answer);
    FirstLine(cfg);
  }

  lemma {:induction false} FormByPrefix(cfg: Config, before: seq<int>, nows: seq<int>, n: nat)
    requires cfg.initial > 0 && cfg.thereafter > 0 && IsPeriod(cfg, before, nows) && 0 < n <= |nows|
    ensures FormFits(cfg, before, nows, n)
  {
    if n == 1 {
      FormBegins(cfg, before, nows);
    } else {
      hide *;
      FormByPrefix(cfg, before, nows, n - 1);
      FormStep(cfg, before, nows, n - 1);
    }
  }

  /** The closed form for any period of any run: the calls from a reset on, `n` of them less than
      a period after it, give min(n, Initial) + (n - Initial) / Thereafter lines. */
  lemma PeriodClosedForm(cfg: Config, before: seq<int>, nows: seq<int>)
    requires cfg.initial > 0 && cfg.thereafter > 0 && IsPeriod(cfg, before, nows)
    ensures var answers := RunOne(Step(cfg), before + nows).answers[|before|..];
            && Lines(answers) == PeriodLines(cfg, |nows|)
            && Reported(answers) == PeriodReported(cfg, |nows|)
            && 0 <= |nows| - Lines(answers) - Reported(answers) < cfg.thereafter
  {
    FormByPrefix(cfg, before, nows, |nows|);
    assert nows[..|nows|] == nows;
    PeriodSplits(cfg, |nows|);
  }

  lemma FirstLine(cfg: Config)
    requires cfg.initial > 0 && cfg.thereafter > 0
    ensures PeriodLines(cfg, 1) == 1 && PeriodReported(cfg, 1) == 0
  {
    assert 0 / cfg.thereafter == 0;
  }

  /** The first Initial answers let the line through, the others do not. */
  ghost predicate Bursts(cfg: Config, answers: seq<Answer>) {
    forall i | 0 <= i < |answers| :: answers[i] == Answer(i < cfg.initial, 0)
  }

  /** What `PeriodWithoutThereafter` says after the first `n` calls of the period. */
  ghost predicate BurstFits(cfg: Config, before: seq<int>, nows: seq<int>, n: nat)
    requires 0 < n <= |nows|
  {
    var run := RunOne(Step(cfg), before + nows[..n]);
    && run.entry == Some(Entry(n, nows[0]))
    && Bursts(cfg, run.answers[|before|..])
  }

  lemma BurstBegins(cfg: Config, before: seq<int>, nows: seq<int>)
    requires cfg.initial > 0 && IsPeriod(cfg, before, nows)
    ensures BurstFits(cfg, before, nows, 1)
  {
    assert before + nows[..1] == before + [nows[0]];
    OneMore(Step(cfg), before, nows[0]);
  }

  lemma BurstStep(cfg: Config, before: seq<int>, nows: seq<int>, n: nat)
    requires cfg.initial > 0 && cfg.thereafter <= 0 && IsPeriod(cfg, before, nows) && 0 < n < |nows|
    requires BurstFits(cfg, before, nows, n)
    ensures BurstFits(cfg, before, nows, n + 1)
  {
    var run, now := RunOne(Step(cfg), before + nows[..n]), nows[n];
    assert before + nows[..n + 1] == before + nows[..n] + [now];
    OneMore(Step(cfg), before + nows[..n], now);
    hide RunOne;
    var answer := CheckEntry(cfg, run.entry, now).1;
    assert answer == Answer(n < cfg.initial, 0);
    assert (run.answers + [answer])[|before|..] == run.answers[|before|..] + [answer];
  }

  lemma {:induction false} BurstByPrefix(cfg: Config, before: seq<int>, nows: seq<int>, n: nat)
    requires cfg.initial > 0 && cfg.thereafter <= 0 && IsPeriod(cfg, before, nows) && 0 < n <= |nows|
    ensures BurstFits(cfg, before, nows, n)
  {
    hide *;
    if n == 1 {
      BurstBegins(cfg, before, nows);
    } else {
      BurstByPrefix(cfg, before, nows, n - 1);
      BurstStep(cfg, before, nows, n - 1);
    }
  }

  /** Without Thereafter the lines of any period of any run are exactly its first Initial calls. */
  lemma PeriodWithoutThereafter(cfg: Config, before: seq<int>, nows: seq<int>)
    requires cfg.initial > 0 && cfg.thereafter <= 0 && IsPeriod(cfg, before, nows)
    ensures Bursts(cfg, RunOne(Step(cfg), before + nows).answers[|before|..])
  {
    hide RunOne, IsPeriod;
    assert |nows| > 0 by { APeriodHasCalls(cfg, before, nows); }
    BurstByPrefix(cfg, before, nows, |nows|);
    assert nows[..|nows|] == nows;
  }

  lemma APeriodHasCalls(cfg: Config, before: seq<int>, nows: seq<int>)
    requires IsPeriod(cfg, before, nows)
    ensures nows != []
  {
  }

  /** The last reset of a key was at one of its calls, or never. */
  lemma {:induction false} ResetsAtCalls(cfg: Config, nows: seq<int>)
    requires cfg.initial > 0
    ensures var e := RunOne(Step(cfg), nows).entry; e.Some? ==> e.value.resetNano in nows || e.value.resetNano == 0
  {
    if nows != [] {
      var n := |nows| - 1;
      ResetsAtCalls(cfg, nows[..n]);
      assert forall t | t in nows[..n] :: t in nows;
      assert nows[n] in nows;
    }
  }

  /** In any run a call that comes at least a period after all earlier ones of its key, and after the
      epoch, is let through and begins a period. */
  lemma FirstAfterAPeriod(cfg: Config, nows: seq<int>, now: int)
    requires cfg.initial > 0 && now >= cfg.period && forall t | t in nows :: now - t >= cfg.period
    ensures var run := RunOne(Step(cfg), nows + [now]);
            run.entry == Some(Entry(1, now)) && run.answers[|nows|] == Answer(true, 0)
  {
    ResetsAtCalls(cfg, nows);
    OneMore(Step(cfg), nows, now);
  }

  // ---------- the rate bound ----------

  /** Lines at times from `a` to `b`. */
  function LinesIn(nows: seq<int>, answers: seq<Answer>, a: int, b: int): nat
    requires |nows| == |answers|
  {
    if nows == [] then 0
    else
      var n := |nows| - 1;
      LinesIn(nows[..n], answers[..n], a, b) + if answers[n].allowed && a <= nows[n] <= b then 1 else 0
  }

  /** What can have been emitted between `a` and `b` by the call at `last`. */
  function Cap(cfg: Config, e: Option<Entry>, last: int, a: int, b: int): int
    requires cfg.period > 0
  {
    if e.None? || last < a then 0
    else if e.value.resetNano < a then Min(e.value.count, cfg.initial)
    else if e.value.resetNano <= b then
      cfg.initial * ((e.value.resetNano - a) / cfg.period + 1) + Min(e.value.count, cfg.initial)
    else cfg.initial * ((b - a) / cfg.period + 2)
  }

  predicate Bounded(cfg: Config) {
    cfg.initial > 0 && cfg.thereafter <= 0 && cfg.period > 0
  }

  predicate Follows(cfg: Config, e: Option<Entry>, last: int, now: int) {
    && now >= cfg.period
    && (e.Some? ==> e.value.count >= 1 && e.value.resetNano <= last <= now)
  }

  lemma CapStep(cfg: Config, e: Option<Entry>, last: int, now: int, a: int, b: int, lines: int)
    requires Bounded(cfg) && Follows(cfg, e, last, now) && a <= b && lines <= Cap(cfg, e, last, a, b)
    ensures var (entry, answer) := CheckEntry(cfg, e, now);
            && entry.Some? && entry.value.count >= 1 && entry.value.resetNano <= now
            && lines + (if answer.allowed && a <= now <= b then 1 else 0) <= Cap(cfg, entry, now, a, b)
  {
    var p, i := cfg.period, cfg.initial;
    if Continues(cfg, e, now) {
      assert e.Some?;
    } else {
      var r := if e.Some? then e.value.resetNano else a - 1;
      if a <= now <= b {
        CapIsPositive(i, now - a, p);
        if a <= r { DivAdvance(r - a, now - a, p); Scale(i, (r - a) / p + 2, (now - a) / p + 1); }
      } else if now > b {
        CapIsPositive(i, b - a, p);
        if a <= r <= b { DivMonotone(r - a, b - a, p); Scale(i, (r - a) / p + 2, (b - a) / p + 2); }
      }
    }
  }

  lemma CapIsPositive(i: int, d: int, p: int)
    requires i > 0 && d >= 0 && p > 0
    ensures i * (d / p + 1) >= i && i * (d / p + 2) >= 2 * i
  {
    assert d / p >= 0;
    Scale(i, 1, d / p + 1);
    Scale(i, 2, d / p + 2);
  }

  lemma Scale(i: int, x: int, y: int)
    requires i > 0 && x <= y
    ensures i * x <= i * y && i * x == i * (x - 1) + i
  {
    assert i * (y - x) >= 0;
    assert i * (y - x) == i * y - i * x;
  }

  ghost predicate Monotone(ts: seq<int>) {
    forall i, j | 0 <= i <= j < |ts| :: ts[i] <= ts[j]
  }

  lemma {:induction false} LinesWithinCap(cfg: Config, nows: seq<int>, n: nat, a: int, b: int)
    requires Bounded(cfg) && a <= b && Monotone(nows) && 0 < n <= |nows| && forall now | now in nows :: now >= cfg.period
    ensures var run := RunOne(Step(cfg), nows[..n]);
            && run.entry.Some? && run.entry.value.count >= 1 && run.entry.value.resetNano <= nows[n - 1]
            && LinesIn(nows[..n], run.answers, a, b) <= Cap(cfg, run.entry, nows[n - 1], a, b)
  {
    var before, now := RunOne(Step(cfg), nows[..n - 1]), nows[n - 1];
    assert nows[..n] == nows[..n - 1] + [now];
    OneMore(Step(cfg), nows[..n - 1], now);
    var (entry, answer) := CheckEntry(cfg, before.entry, now);
    assert (before.answers + [answer])[..n - 1] == before.answers;
    assert now in nows;
    if n > 1 { LinesWithinCap(cfg, nows, n - 1, a, b); }
    CapStep(cfg, before.entry, if n > 1 then nows[n - 2] else now, now, a, b, LinesIn(nows[..n - 1], before.answers, a, b));
  }

  /** Without Thereafter lines, any stretch of time sees at most Initial lines of a key for
      each period it spans, and two periods more, whatever other keys are doing. */
  lemma RateBound(cfg: Config, calls: seq<Call<int>>, key: string, a: int, b: int)
    requires Bounded(cfg) && a <= b
    requires Monotone(ArgsOf(calls, key)) && forall now | now in ArgsOf(calls, key) :: now >= cfg.period
    ensures var answers := AnswersOf(calls, RunAll(Step(cfg), calls).answers, key);
            && |answers| == |ArgsOf(calls, key)|
            && LinesIn(ArgsOf(calls, key), answers, a, b) <= cfg.initial * ((b - a) / cfg.period + 2)
  {
    hide Cap, RunOne, RunAll, ArgsOf, AnswersOf;
    var nows := ArgsOf(calls, key);
    KeysAreIndependent(Step(cfg), calls, key);
    CapIsPositive(cfg.initial, b - a, cfg.period);
    if nows != [] {
      LinesWithinCap(cfg, nows, |nows|, a, b);
      assert nows[..|nows|] == nows;
      CapIsBelow(cfg, RunOne(Step(cfg), nows).entry, nows[|nows| - 1], a, b);
    }
  }

  lemma CapIsBelow(cfg: Config, e: Option<Entry>, last: int, a: int, b: int)
    requires Bounded(cfg) && a <= b
    ensures Cap(cfg, e, last, a, b) <= cfg.initial * ((b - a) / cfg.period + 2)
  {
    var p, i := cfg.period, cfg.initial;
    CapIsPositive(i, b - a, p);
    if e.Some? && last >= a && a <= e.value.resetNano <= b {
      CapWithin(cfg, e.value, last, a, b);
    } else {
      CapOutside(cfg, e, last, a, b, i * ((b - a) / p + 2));
    }
  }

  /** The last reset lies between `a` and `b`. */
  lemma CapWithin(cfg: Config, x: Entry, last: int, a: int, b: int)
    requires Bounded(cfg) && a <= x.resetNano <= b && a <= last
    ensures Cap(cfg, Some(x), last, a, b) <= cfg.initial * ((b - a) / cfg.period + 2)
  {
    MorePeriods(cfg.initial, x.resetNano - a, b - a, cfg.period);
    CapAfterReset(cfg, x, last, a, b, cfg.initial * ((x.resetNano - a) / cfg.period + 1));
  }

  lemma CapAfterReset(cfg: Config, x: Entry, last: int, a: int, b: int, earlier: int)
    requires Bounded(cfg) && a <= x.resetNano <= b && a <= last && earlier == cfg.initial * ((x.resetNano - a) / cfg.period + 1)
    ensures Cap(cfg, Some(x), last, a, b) <= earlier + cfg.initial
  {
  }

  /** It does not, or there has been no call since `a`. */
  lemma CapOutside(cfg: Config, e: Option<Entry>, last: int, a: int, b: int, most: int)
    requires Bounded(cfg) && most == cfg.initial * ((b - a) / cfg.period + 2) && most >= 2 * cfg.initial
    requires e.None? || last < a || e.value.resetNano < a || e.value.resetNano > b
    ensures Cap(cfg, e, last, a, b) <= most
  {
  }

  lemma MorePeriods(i: int, d: int, d': int, p: int)
    requires i > 0 && p > 0 && d <= d'
    ensures i * (d / p + 1) + i <= i * (d' / p + 2)
  {
    DivMonotone(d, d', p);
    Scale(i, d / p + 2, d' / p + 2);
  }

  /** The accounting holds for every key of a run over any keys. */
  lemma Accounting(cfg: Config, calls: seq<Call<int>>, key: string)
    requires cfg.initial > 0 && cfg.thereafter > 0
    ensures var r := RunAll(Step(cfg), calls);
            var nows, answers := ArgsOf(calls, key), AnswersOf(calls, r.answers, key);
            var rest := PeriodRest(cfg, Count(Lookup(r.entries, key)));
            && |nows| == Lines(answers) + Reported(answers) + rest + Lost(cfg, nows)
            && 0 <= rest < cfg.thereafter
            && 0 <= Lost(cfg, nows) <= LaterResets(cfg, nows) * (cfg.thereafter - 1)
  {
    KeysAreIndependent(Step(cfg), calls, key);
    WholeRunAccounting(cfg, ArgsOf(calls, key));
    PeriodSplits(cfg, Count(RunOne(Step(cfg), ArgsOf(calls, key)).entry));
  }
}
