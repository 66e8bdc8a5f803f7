/**
 The time-window log limiter: at most one line per key and window, the dropped calls being
 counted and reported with the next line (phlogger/ratelimit.go).
 */
module RateLimit {
  import opened Wrappers
  import opened KeyedState
  import opened Verdicts

  /** `lastEmit` is None for Go's zero time, which no clock reading equals. */
  datatype Entry = Entry(lastEmit: Option<int>, suppressed: nat)

  datatype Probe = Probe(window: int, now: int)

  /** One call on one key. */
  function CheckEntry(e: Option<Entry>, p: Probe): (Option<Entry>, Answer) {
    if p.window <= 0 then
      (e, Answer(true, 0))
    else
      var entry := e.GetOr(Entry(None, 0));
      if entry.lastEmit.Some? && p.now - entry.lastEmit.value < p.window then
        (Some(entry.(suppressed := entry.suppressed + 1)), Answer(false, 0))
      else
        (Some(Entry(Some(p.now), 0)), Answer(true, entry.suppressed))
  }

  class RateLimiter {
    var entries: map<string, Entry>

    constructor ()
      ensures entries == map[]
    {
      entries := map[];
    }

    method Check(key: string, window: int, now: int) returns (allowed: bool, suppressed: int)
      modifies this
      ensures (entries, Answer(allowed, suppressed)) == StepKey(CheckEntry, old(entries), Call(key, Probe(window, now)))
    {
      if window <= 0 {
        allowed, suppressed := true, 0;
        assert Put(entries, key, Lookup(entries, key)) == entries;
        return;
      }
      if key !in entries {
        entries := entries[key := Entry(None, 0)];
      }
      var entry := entries[key];
      assert entry == Lookup(old(entries), key).GetOr(Entry(None, 0));
      if entry.lastEmit.Some? && now - entry.lastEmit.value < window {
        entries := entries[key := entry.(suppressed := entry.suppressed + 1)];
        assert entries == old(entries)[key := entry.(suppressed := entry.suppressed + 1)];
        return false, 0;
      }
      suppressed := entry.suppressed;
      entries := entries[key := Entry(Some(now), 0)];
      allowed := true;
      assert entries == old(entries)[key := Entry(Some(now), 0)];
    }
  }

  // ---------- conservation ----------

  /** Calls dropped since the last line that the limiter let through. */
  function DroppedSinceEmission(ps: seq<Probe>, answers: seq<Answer>): nat
    requires |ps| == |answers|
  {
    if ps == [] then 0
    else
      var n := |ps| - 1;
      if ps[n].window > 0 && answers[n].allowed then 0
      else DroppedSinceEmission(ps[..n], answers[..n]) + if answers[n].allowed then 0 else 1
  }

  function Pending(e: Option<Entry>): nat {
    e.GetOr(Entry(None, 0)).suppressed
  }

  /** Every call is a line, is counted by a later line, or is still pending. */
  lemma {:induction false} OneKeyConservation(ps: seq<Probe>)
    ensures var r := RunOne(CheckEntry, ps);
            && |ps| == Lines(r.answers) + Reported(r.answers) + Pending(r.entry)
            && Pending(r.entry) == DroppedSinceEmission(ps, r.answers)
  {
    if ps == [] {
    } else {
      var n := |ps| - 1;
      OneKeyConservation(ps[..n]);
      assert RunOne(CheckEntry, ps).answers[..n] == RunOne(CheckEntry, ps[..n]).answers;
    }
  }

  lemma {:induction false} RunOnePrefix(ps: seq<Probe>, i: nat)
    requires i <= |ps|
    ensures RunOne(CheckEntry, ps).answers[..i] == RunOne(CheckEntry, ps[..i]).answers
  {
    if i == |ps| {
      assert ps[..i] == ps;
    } else {
      RunOnePrefix(ps[..|ps| - 1], i);
      assert ps[..|ps| - 1][..i] == ps[..i];
    }
  }

  /** The count reported with a line is the number of calls dropped since the line before it. */
  lemma OneKeyReportIsExact(ps: seq<Probe>, i: nat)
    requires i < |ps|
    ensures var answers := RunOne(CheckEntry, ps).answers;
            answers[i].suppressed ==
            if ps[i].window > 0 && answers[i].allowed then DroppedSinceEmission(ps[..i], answers[..i]) else 0
  {
    hide *;
    AnswerAt(ps, i);
    RunOnePrefix(ps, i);
    OneKeyConservation(ps[..i]);
    ReportIsPending(RunOne(CheckEntry, ps[..i]).entry, ps[i]);
  }

  /** Each answer is that of one step on the entry which the calls before it have left. */
  lemma {:induction false} AnswerAt(ps: seq<Probe>, i: nat)
    requires i < |ps|
    ensures RunOne(CheckEntry, ps).answers[i] == CheckEntry(RunOne(CheckEntry, ps[..i]).entry, ps[i]).1
  {
    var n := |ps| - 1;
    hide CheckEntry;
    if i < n {
      AnswerAt(ps[..n], i);
      assert ps[..n][..i] == ps[..i];
    }
  }

  lemma ReportIsPending(e: Option<Entry>, p: Probe)
    ensures var answer := CheckEntry(e, p).1;
            answer.suppressed == if p.window > 0 && answer.allowed then Pending(e) else 0
  {
  }

  /** Conservation and exactness for every key of a run over any keys, windows and clock readings. */
  lemma Conservation(calls: seq<Call<Probe>>, key: string)
    ensures var r := RunAll(CheckEntry, calls);
            var ps, answers := ArgsOf(calls, key), AnswersOf(calls, r.answers, key);
            && |ps| == |answers|
            && |ps| == Lines(answers) + Reported(answers) + Pending(Lookup(r.entries, key))
            && forall i | 0 <= i < |ps| ::
                answers[i].suppressed ==
                if ps[i].window > 0 && answers[i].allowed then DroppedSinceEmission(ps[..i], answers[..i]) else 0
  {
    KeysAreIndependent(CheckEntry, calls, key);
    var ps := ArgsOf(calls, key);
    OneKeyConservation(ps);
    forall i | 0 <= i < |ps| {
      OneKeyReportIsExact(ps, i);
    }
  }

  // ---------- without a window ----------

  /** The calls that have a window. */
  function WithWindow(calls: seq<Call<Probe>>): seq<Call<Probe>> {
    if calls == [] then []
    else
      var c := calls[|calls| - 1];
      WithWindow(calls[..|calls| - 1]) + if c.arg.window > 0 then [c] else []
  }

  ghost predicate WithoutWindowFits(calls: seq<Call<Probe>>) {
    && RunAll(CheckEntry, calls).entries == RunAll(CheckEntry, WithWindow(calls)).entries
    && forall i | 0 <= i < |calls| && calls[i].arg.window <= 0 :: RunAll(CheckEntry, calls).answers[i] == Answer(true, 0)
  }

  /** One more call. */
  lemma WithWindowMore(calls: seq<Call<Probe>>, c: Call<Probe>)
    ensures WithWindow(calls + [c]) == if c.arg.window > 0 then WithWindow(calls) + [c] else WithWindow(calls)
  {
    assert (calls + [c])[..|calls|] == calls;
    assert WithWindow(calls) + [] == WithWindow(calls);
  }

  lemma NoTrace(m: map<string, Entry>, c: Call<Probe>)
    requires c.arg.window <= 0
    ensures StepKey(CheckEntry, m, c) == (m, Answer(true, 0))
  {
    assert Put(m, c.key, Lookup(m, c.key)) == m;
  }

  lemma WithoutWindowMore(calls: seq<Call<Probe>>, c: Call<Probe>)
    requires WithoutWindowFits(calls)
    ensures WithoutWindowFits(calls + [c])
  {
    hide RunAll, StepKey, WithWindow, CheckEntry;
    WithWindowMore(calls, c);
    OneMoreCall(CheckEntry, calls, c);
    OneMoreCall(CheckEntry, WithWindow(calls), c);
    if c.arg.window <= 0 { NoTrace(RunAll(CheckEntry, calls).entries, c); }
  }

  /** In every run over any keys, a call without a window is let through and reports nothing, and
      leaves no trace: the entries are those of the run without such calls. */
  lemma {:induction false} WithoutWindowAllPass(calls: seq<Call<Probe>>)
    ensures RunAll(CheckEntry, calls).entries == RunAll(CheckEntry, WithWindow(calls)).entries
    ensures forall i | 0 <= i < |calls| && calls[i].arg.window <= 0 :: RunAll(CheckEntry, calls).answers[i] == Answer(true, 0)
  {
    if calls != [] {
      hide RunAll, CheckEntry, WithWindow;
      var n := |calls| - 1;
      WithoutWindowAllPass(calls[..n]);
      assert calls[..n] + [calls[n]] == calls;
      WithoutWindowMore(calls[..n], calls[n]);
    }
  }

  // ---------- greedy optimality ----------

  ghost predicate Monotone(ts: seq<int>) {
    forall i, j | 0 <= i <= j < |ts| :: ts[i] <= ts[j]
  }

  /** A choice among the first `n` calls, by ascending position, each `w` or more after the
      one before it. */
  ghost predicate Spaced(ts: seq<int>, n: nat, w: int, pick: seq<nat>)
    requires n <= |ts|
  {
    pick != [] ==>
      var m := |pick| - 1;
      && pick[m] < n
      && Spaced(ts, pick[m], w, pick[..m])
      && (m > 0 ==> ts[pick[m]] - ts[pick[m - 1]] >= w)
  }

  /** Take call `n` when it is `w` or more after the last one taken. */
  function GreedyStep(ts: seq<int>, n: nat, w: int, r: seq<nat>): seq<nat>
    requires n < |ts| && (r != [] ==> r[|r| - 1] < n)
  {
    if r != [] && ts[n] - ts[r[|r| - 1]] < w then r else r + [n]
  }

  /** The greedy choice among the first `n` calls. */
  function Greedy(ts: seq<int>, n: nat, w: int): (r: seq<nat>)
    requires n <= |ts|
    ensures r != [] ==> r[|r| - 1] < n
  {
    if n == 0 then [] else GreedyStep(ts, n - 1, w, Greedy(ts, n - 1, w))
  }

  lemma {:induction false} GreedyIsSpaced(ts: seq<int>, n: nat, w: int)
    requires n <= |ts|
    ensures Spaced(ts, n, w, Greedy(ts, n, w))
  {
    if n > 0 {
      var r := Greedy(ts, n - 1, w);
      GreedyIsSpaced(ts, n - 1, w);
      assert (r + [n - 1])[..|r|] == r;
    }
  }

  /** `r` is at least as long as `pick`, and ends no later when it is just as long. */
  ghost predicate Ahead(ts: seq<int>, n: nat, pick: seq<nat>, r: seq<nat>)
    requires n <= |ts| && (pick != [] ==> pick[|pick| - 1] < n) && (r != [] ==> r[|r| - 1] < n)
  {
    && |pick| <= |r|
    && (|pick| == |r| > 0 ==> ts[r[|r| - 1]] <= ts[pick[|pick| - 1]])
  }

  lemma AheadSkip(ts: seq<int>, n: nat, w: int, pick: seq<nat>, r: seq<nat>)
    requires n < |ts| && (r != [] ==> r[|r| - 1] < n)
    requires (pick != [] ==> pick[|pick| - 1] < n) && Ahead(ts, n, pick, r)
    ensures Ahead(ts, n + 1, pick, GreedyStep(ts, n, w, r))
  {
  }

  /** The same for a choice that takes call `n`. */
  lemma AheadStep(ts: seq<int>, n: nat, w: int, pick: seq<nat>, r: seq<nat>)
    requires w > 0 && n < |ts| && Monotone(ts)
    requires r != [] ==> r[|r| - 1] < n
    requires pick != [] && pick[|pick| - 1] == n
    requires var m := |pick| - 1;
             m > 0 ==> pick[m - 1] < n && ts[n] - ts[pick[m - 1]] >= w
    requires Ahead(ts, n, pick[..|pick| - 1], r)
    ensures Ahead(ts, n + 1, pick, GreedyStep(ts, n, w, r))
  {
    if r != [] {
      assert ts[r[|r| - 1]] <= ts[n];
    }
  }

  /** A spaced choice without its last member is one among the calls before that member. */
  lemma SpacedParts(ts: seq<int>, n: nat, w: int, pick: seq<nat>)
    requires n <= |ts| && pick != [] && Spaced(ts, n, w, pick)
    ensures var m := |pick| - 1;
            && pick[m] < n && Spaced(ts, pick[m], w, pick[..m])
            && (m > 0 ==> pick[..m][m - 1] == pick[m - 1] && ts[pick[m]] - ts[pick[m - 1]] >= w)
            && (pick[m] < n - 1 ==> Spaced(ts, n - 1, w, pick))
  {
    var m := |pick| - 1;
    assert m > 0 ==> pick[..m][m - 1] < pick[m];
  }

  lemma GreedyPasses(ts: seq<int>, n: nat, w: int, pick: seq<nat>)
    requires 0 < n <= |ts| && (pick != [] ==> pick[|pick| - 1] < n - 1)
    requires Ahead(ts, n - 1, pick, Greedy(ts, n - 1, w))
    ensures Ahead(ts, n, pick, Greedy(ts, n, w))
  {
    hide Ahead;
    AheadSkip(ts, n - 1, w, pick, Greedy(ts, n - 1, w));
  }

  lemma GreedyFollows(ts: seq<int>, n: nat, w: int, pick: seq<nat>)
    requires w > 0 && 0 < n <= |ts| && Monotone(ts)
    requires pick != [] && pick[|pick| - 1] == n - 1
    requires var m := |pick| - 1;
             m > 0 ==> pick[m - 1] < n - 1 && ts[n - 1] - ts[pick[m - 1]] >= w
    requires Ahead(ts, n - 1, pick[..|pick| - 1], Greedy(ts, n - 1, w))
    ensures Ahead(ts, n, pick, Greedy(ts, n, w))
  {
    hide Ahead, Monotone;
    AheadStep(ts, n - 1, w, pick, Greedy(ts, n - 1, w));
  }

  /** Greedy stays ahead: no spaced choice is longer than the greedy one, and one that is as
      long ends no earlier. */
  lemma {:induction false} GreedyStaysAhead(ts: seq<int>, n: nat, w: int, pick: seq<nat>)
    requires w > 0 && n <= |ts| && Monotone(ts) && Spaced(ts, n, w, pick)
    ensures (pick != [] ==> pick[|pick| - 1] < n) && Ahead(ts, n, pick, Greedy(ts, n, w))
    decreases n
  {
    if pick == [] {
      assert Ahead(ts, n, [], Greedy(ts, n, w));
    } else {
      hide Spaced, Ahead, Greedy, Monotone;
      SpacedParts(ts, n, w, pick);
      var m := |pick| - 1;
      if pick[m] < n - 1 {
        GreedyStaysAhead(ts, n - 1, w, pick);
        GreedyPasses(ts, n, w, pick);
      } else {
        GreedyStaysAhead(ts, n - 1, w, pick[..m]);
        GreedyFollows(ts, n, w, pick);
      }
    }
  }

  function Times(ps: seq<Probe>): (r: seq<int>)
    ensures |r| == |ps| && forall i | 0 <= i < |r| :: r[i] == ps[i].now
  {
    seq(|ps|, i requires 0 <= i < |ps| => ps[i].now)
  }

  /** The positions of the calls that were let through. */
  function AllowedAt(answers: seq<Answer>): (r: seq<nat>)
    ensures forall k: nat :: k in r <==> k < |answers| && answers[k].allowed
  {
    if answers == [] then []
    else
      var n := |answers| - 1;
      AllowedAt(answers[..n]) + if answers[n].allowed then [n] else []
  }

  /** What `LimiterIsGreedy` says after the first `n` calls. */
  ghost predicate Tracks(ts: seq<int>, n: nat, w: int, run: Track<Entry, Answer>)
    requires n <= |ts|
  {
    var r := Greedy(ts, n, w);
    && AllowedAt(run.answers) == r
    && (if r == [] then run.entry.None? else run.entry.Some? && run.entry.value.lastEmit == Some(ts[r[|r| - 1]]))
  }

  lemma TracksStep(ts: seq<int>, n: nat, w: int, run: Track<Entry, Answer>)
    requires n < |ts| && w > 0 && |run.answers| == n && Tracks(ts, n, w, run)
    ensures var (entry, answer) := CheckEntry(run.entry, Probe(w, ts[n]));
            Tracks(ts, n + 1, w, Track(entry, run.answers + [answer]))
  {
    var (entry, answer) := CheckEntry(run.entry, Probe(w, ts[n]));
    assert (run.answers + [answer])[..n] == run.answers;
    assert AllowedAt(run.answers + [answer]) == AllowedAt(run.answers) + if answer.allowed then [n] else [];
  }

  /** With a single window the limiter lets through exactly the greedy choice, and remembers
      the time of its last member. */
  lemma {:induction false} LimiterIsGreedy(ps: seq<Probe>, n: nat, w: int)
    requires n <= |ps| && w > 0 && forall i | 0 <= i < |ps| :: ps[i].window == w
    ensures Tracks(Times(ps), n, w, RunOne(CheckEntry, ps[..n]))
  {
    if n > 0 {
      LimiterIsGreedy(ps, n - 1, w);
      TracksStep(Times(ps), n - 1, w, RunOne(CheckEntry, ps[..n - 1]));
      OneMore(CheckEntry, ps[..n - 1], ps[n - 1]);
      assert ps[..n] == ps[..n - 1] + [ps[n - 1]];
    }
  }

  /** For one key and one window over any non-decreasing clock readings the limiter keeps the
      lines a window apart, and no selection of the same calls with that spacing is larger. */
  lemma GreedyIsOptimal(calls: seq<Call<Probe>>, key: string, w: int, pick: seq<nat>)
    requires w > 0 && forall i | 0 <= i < |ArgsOf(calls, key)| :: ArgsOf(calls, key)[i].window == w
    requires Monotone(Times(ArgsOf(calls, key)))
    requires Spaced(Times(ArgsOf(calls, key)), |ArgsOf(calls, key)|, w, pick)
    ensures var kept := AllowedAt(AnswersOf(calls, RunAll(CheckEntry, calls).answers, key));
            Spaced(Times(ArgsOf(calls, key)), |ArgsOf(calls, key)|, w, kept) && |pick| <= |kept|
  {
    var ps := ArgsOf(calls, key);
    KeysAreIndependent(CheckEntry, calls, key);
    assert ps[..|ps|] == ps;
    LimiterIsGreedy(ps, |ps|, w);
    GreedyIsSpaced(Times(ps), |ps|, w);
    GreedyStaysAhead(Times(ps), |ps|, w, pick);
  }
}
