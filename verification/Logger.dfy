/** How limiter answers become emitted lines (phlogger/phlogger.go). */
module Logger {
  import opened KeyedState
  import opened Verdicts
  import RateLimit
  import Sampler

  datatype Level = Debug | Info | Warn | Error | Fatal

  datatype Arg = Caller(value: string) | Suppressed(count: int)

  datatype Line = Line(level: Level, format: string, args: seq<Arg>)

  const SUFFIX := " [+%d suppressed]"

  /** A log statement as its caller wrote it. */
  datatype Statement = Statement(level: Level, format: string, args: seq<string>)

  function CallerArgs(args: seq<string>): (r: seq<Arg>)
    ensures |r| == |args| && forall i | 0 <= i < |r| :: r[i] == Caller(args[i])
  {
    seq(|args|, i requires 0 <= i < |args| => Caller(args[i]))
  }

  /** The line a statement leaves, if the limiter lets it through. */
  function Emit(s: Statement, a: Answer): seq<Line> {
    if !a.allowed then []
    else if a.suppressed > 0 then [Line(s.level, s.format + SUFFIX, CallerArgs(s.args) + [Suppressed(a.suppressed)])]
    else [Line(s.level, s.format, CallerArgs(s.args))]
  }

  /** A call of a log function: LogD, LogI or LogW; LogE or LogF; one with a key; one with a key
      and a window. */
  datatype LogCall =
    | Plain(s: Statement, now: int)
    | Always(s: Statement)
    | Rated(key: string, s: Statement, now: int)
    | Windowed(key: string, window: int, s: Statement, now: int)

  datatype State = State(sampled: map<string, Sampler.Entry>, windowed: map<string, RateLimit.Entry>, lines: seq<Line>)

  /** What a call does to both limiters and the lines. */
  function Logged(cfg: Sampler.Config, st: State, c: LogCall): State {
    match c
    case Plain(s, now) => LoggedRated(cfg, st, s.format, s, now)
    case Always(s) => st.(lines := st.lines + Emit(s, Answer(true, 0)))
    case Rated(key, s, now) => LoggedRated(cfg, st, key, s, now)
    case Windowed(key, window, s, now) =>
      var (entries, answer) := StepKey(RateLimit.CheckEntry, st.windowed, Call(key, RateLimit.Probe(window, now)));
      st.(windowed := entries, lines := st.lines + Emit(s, answer))
  }

  function LoggedRated(cfg: Sampler.Config, st: State, key: string, s: Statement, now: int): State {
    var (entries, answer) := StepKey(Sampler.Step(cfg), st.sampled, Call(key, now));
    st.(sampled := entries, lines := st.lines + Emit(s, answer))
  }

  class Logger {
    var sampler: Sampler.Sampler
    const limiter: RateLimit.RateLimiter
    var lines: seq<Line>

    constructor (cfg: Sampler.Config)
      ensures fresh(sampler) && fresh(limiter) && lines == [] && sampler.entries == map[] && limiter.entries == map[]
    {
      var s := Sampler.InitializeSampler(cfg);
      sampler := s;
      limiter := new RateLimit.RateLimiter();
      lines := [];
    }

    ghost function Now(): State
      reads this, sampler, limiter
    {
      State(sampler.entries, limiter.entries, lines)
    }

    /** The extension of format and arguments shared by every limited log function. */
    method Write(s: Statement, allowed: bool, suppressed: int)
      modifies this`lines
      ensures lines == old(lines) + Emit(s, Answer(allowed, suppressed))
    {
      if !allowed {
        return;
      }
      var format, args := s.format, CallerArgs(s.args);
      if suppressed > 0 {
        format := format + SUFFIX;
        args := args + [Suppressed(suppressed)];
      }
      lines := lines + [Line(s.level, format, args)];
    }

    /** LogIRated and its siblings: sampled under a key of the caller's choosing. */
    method LogSampled(key: string, s: Statement, now: int)
      modifies this`lines, sampler
      ensures var (entries, answer) := StepKey(Sampler.Step(sampler.config), old(sampler.entries), Call(key, now));
              sampler.entries == entries && lines == old(lines) + Emit(s, answer)
      ensures Now() == Logged(sampler.config, old(Now()), Rated(key, s, now))
    {
      var allowed, suppressed := sampler.Check(key, now);
      Write(s, allowed, suppressed);
    }

    /** LogD, LogI and LogW: sampled under their own format string. */
    method Log(s: Statement, now: int)
      requires s.level.Debug? || s.level.Info? || s.level.Warn?
      modifies this`lines, sampler
      ensures var (entries, answer) := StepKey(Sampler.Step(sampler.config), old(sampler.entries), Call(s.format, now));
              sampler.entries == entries && lines == old(lines) + Emit(s, answer)
      ensures Now() == Logged(sampler.config, old(Now()), Plain(s, now))
    {
      LogSampled(s.format, s, now);
    }

    /** LogE and LogF: never limited. */
    method LogAlways(s: Statement)
      requires s.level.Error? || s.level.Fatal?
      modifies this`lines
      ensures lines == old(lines) + [Line(s.level, s.format, CallerArgs(s.args))]
      ensures Now() == Logged(sampler.config, old(Now()), Always(s))
    {
      lines := lines + [Line(s.level, s.format, CallerArgs(s.args))];
    }

    /** LogIRatedW and its siblings: limited by a window. */
    method LogWindowed(key: string, window: int, s: Statement, now: int)
      modifies this`lines, limiter
      ensures var (entries, answer) := StepKey(RateLimit.CheckEntry, old(limiter.entries), Call(key, RateLimit.Probe(window, now)));
              limiter.entries == entries && lines == old(lines) + Emit(s, answer)
      ensures Now() == Logged(sampler.config, old(Now()), Windowed(key, window, s, now))
    {
      var allowed, suppressed := limiter.Check(key, window, now);
      Write(s, allowed, suppressed);
    }
  }

  // ---------- errors ----------

  /** The state after the calls, from new limiters.  A LogF ends the process, so that nothing follows
      it in a run that takes place; what is said below of all lists of calls is said of those. */
  function RunLog(cfg: Sampler.Config, calls: seq<LogCall>): State {
    if calls == [] then State(map[], map[], []) else Logged(cfg, RunLog(cfg, calls[..|calls| - 1]), calls[|calls| - 1])
  }

  /** The lines that the calls of LogE and LogF ask for, in order, with the caller's own format
      and arguments. */
  function Errors(calls: seq<LogCall>): seq<Line> {
    if calls == [] then []
    else
      var c := calls[|calls| - 1];
      Errors(calls[..|calls| - 1]) + if c.Always? then [Line(c.s.level, c.s.format, CallerArgs(c.s.args))] else []
  }

  function Limited(calls: seq<LogCall>): seq<LogCall> {
    if calls == [] then []
    else
      var c := calls[|calls| - 1];
      Limited(calls[..|calls| - 1]) + if c.Always? then [] else [c]
  }

  predicate IsError(level: Level) { level.Error? || level.Fatal? }

  /** The lines at the levels of LogE and LogF. */
  function AtErrorLevel(lines: seq<Line>): seq<Line> {
    if lines == [] then []
    else
      var line := lines[|lines| - 1];
      AtErrorLevel(lines[..|lines| - 1]) + if IsError(line.level) then [line] else []
  }

  /** `xs` is in `ys`, in this order, with other things in between. */
  predicate Within(xs: seq<Line>, ys: seq<Line>)
    decreases |ys|
  {
    xs == [] ||
    (ys != [] &&
     var m, n := |xs| - 1, |ys| - 1;
     ((xs[m] == ys[n] && Within(xs[..m], ys[..n])) || Within(xs, ys[..n])))
  }

  lemma WithinMore(xs: seq<Line>, ys: seq<Line>, y: Line)
    requires Within(xs, ys)
    ensures Within(xs, ys + [y]) && Within(xs + [y], ys + [y])
  {
    assert (ys + [y])[..|ys|] == ys && (xs + [y])[..|xs|] == xs;
  }

  lemma ErrorLevelMore(lines: seq<Line>, line: Line)
    ensures AtErrorLevel(lines + [line]) == AtErrorLevel(lines) + if IsError(line.level) then [line] else []
  {
    assert (lines + [line])[..|lines|] == lines;
  }

  lemma LimitedMore(calls: seq<LogCall>, c: LogCall)
    requires !c.Always?
    ensures Limited(calls + [c]) == Limited(calls) + [c]
  {
    assert (calls + [c])[..|calls|] == calls;
  }

  /** A call adds nothing or one line, of its own level. */
  lemma LoggedLines(cfg: Sampler.Config, st: State, c: LogCall)
    ensures var lines := Logged(cfg, st, c).lines;
            || (lines == st.lines && !c.Always?)
            || (|lines| == |st.lines| + 1 && lines == st.lines + [lines[|st.lines|]] && lines[|st.lines|].level == c.s.level
                && (c.Always? ==> lines[|st.lines|] == Line(c.s.level, c.s.format, CallerArgs(c.s.args))))
  {
    hide StepKey;
    match c
    case Plain(s, now) => assert st.lines + [] == st.lines;
    case Always(s) =>
    case Rated(key, s, now) => assert st.lines + [] == st.lines;
    case Windowed(key, window, s, now) => assert st.lines + [] == st.lines;
  }

  /** In every run of log calls of all kinds, whatever the limiters drop, the lines of LogE and LogF
      are all there, as their callers wrote them and in their order. */
  lemma {:induction false} ErrorsAreNeverDropped(cfg: Sampler.Config, calls: seq<LogCall>)
    ensures Within(Errors(calls), RunLog(cfg, calls).lines)
  {
    if calls != [] {
      var n := |calls| - 1;
      var st := RunLog(cfg, calls[..n]);
      ErrorsAreNeverDropped(cfg, calls[..n]);
      LoggedLines(cfg, st, calls[n]);
      var lines := Logged(cfg, st, calls[n]).lines;
      if |lines| > |st.lines| {
        WithinMore(Errors(calls[..n]), st.lines, lines[|st.lines|]);
      }
      assert Errors(calls[..n]) + [] == Errors(calls[..n]);
    }
  }

  /** And when no other function logs at these levels, they are exactly the lines there. */
  lemma {:induction false} ErrorLinesAreTheErrors(cfg: Sampler.Config, calls: seq<LogCall>)
    requires forall i | 0 <= i < |calls| :: calls[i].Always? <==> IsError(calls[i].s.level)
    ensures AtErrorLevel(RunLog(cfg, calls).lines) == Errors(calls)
  {
    if calls != [] {
      var n := |calls| - 1;
      var st := RunLog(cfg, calls[..n]);
      ErrorLinesAreTheErrors(cfg, calls[..n]);
      LoggedLines(cfg, st, calls[n]);
      var lines := Logged(cfg, st, calls[n]).lines;
      if |lines| > |st.lines| {
        ErrorLevelMore(st.lines, lines[|st.lines|]);
      }
      assert Errors(calls[..n]) + [] == Errors(calls[..n]);
    }
  }

  /** They do not touch the limiters: all other calls are answered as if there had been no errors. */
  lemma {:induction false} ErrorsLeaveTheLimiters(cfg: Sampler.Config, calls: seq<LogCall>)
    ensures RunLog(cfg, calls).sampled == RunLog(cfg, Limited(calls)).sampled
    ensures RunLog(cfg, calls).windowed == RunLog(cfg, Limited(calls)).windowed
  {
    if calls != [] {
      var n := |calls| - 1;
      ErrorsLeaveTheLimiters(cfg, calls[..n]);
      assert calls[..n] + [calls[n]] == calls;
      if calls[n].Always? {
        assert Limited(calls[..n]) + [] == Limited(calls[..n]);
      } else {
        LimitedMore(calls[..n], calls[n]);
        LimitedStep(cfg, RunLog(cfg, calls[..n]), RunLog(cfg, Limited(calls[..n])), calls[n]);
        assert (Limited(calls[..n]) + [calls[n]])[..|Limited(calls[..n])|] == Limited(calls[..n]);
      }
    }
  }

  lemma LimitedStep(cfg: Sampler.Config, a: State, b: State, c: LogCall)
    requires a.sampled == b.sampled && a.windowed == b.windowed
    ensures Logged(cfg, a, c).sampled == Logged(cfg, b, c).sampled && Logged(cfg, a, c).windowed == Logged(cfg, b, c).windowed
  {
    hide StepKey, Emit;
  }

  // ---------- whose lines they are ----------

  /** The line that a statement leaves when nothing was dropped before it. */
  function OwnLine(s: Statement): Line { Line(s.level, s.format, CallerArgs(s.args)) }

  /** The line is the statement's own, as its caller wrote it, or that with the suffix after the
      format and a positive count after the arguments. */
  predicate IsLineOf(line: Line, s: Statement) {
    && line.level == s.level
    && (line == OwnLine(s)
        || (line.format == s.format + SUFFIX && |line.args| == |s.args| + 1 && line.args[..|s.args|] == CallerArgs(s.args)
            && line.args[|s.args|].Suppressed? && line.args[|s.args|].count > 0))
  }

  function StatementsOf(calls: seq<LogCall>): seq<Statement> {
    seq(|calls|, i requires 0 <= i < |calls| => calls[i].s)
  }

  /** The lines are of some of the statements, in their order, each of another one. */
  predicate AreLinesOf(lines: seq<Line>, ss: seq<Statement>)
    decreases |ss|
  {
    lines == [] ||
    (ss != [] &&
     var m, n := |lines| - 1, |ss| - 1;
     ((IsLineOf(lines[m], ss[n]) && AreLinesOf(lines[..m], ss[..n])) || AreLinesOf(lines, ss[..n])))
  }

  lemma {:induction false} LinesOfMore(lines: seq<Line>, ss: seq<Statement>, s: Statement, more: seq<Line>)
    requires AreLinesOf(lines, ss) && (more == [] || (|more| == 1 && IsLineOf(more[0], s)))
    ensures AreLinesOf(lines + more, ss + [s])
  {
    assert (ss + [s])[..|ss|] == ss;
    if more == [] {
      assert lines + more == lines;
    } else {
      assert (lines + more)[..|lines|] == lines;
    }
  }

  lemma EmitsItsLine(s: Statement, a: Answer)
    ensures Emit(s, a) == [] || (|Emit(s, a)| == 1 && IsLineOf(Emit(s, a)[0], s))
  {
  }

  /** In every run of log calls of all kinds each line is one of the callers' statements with nothing
      changed, apart from the suffix and the count behind it. */
  lemma {:induction false} LinesAreTheCallers(cfg: Sampler.Config, calls: seq<LogCall>)
    ensures AreLinesOf(RunLog(cfg, calls).lines, StatementsOf(calls))
  {
    if calls != [] {
      hide *;
      var n := |calls| - 1;
      LinesAreTheCallers(cfg, calls[..n]);
      StatementsMore(calls);
      var a := LoggedEmits(cfg, RunLog(cfg, calls[..n]), calls[n]);
      EmitsItsLine(calls[n].s, a);
      LinesOfMore(RunLog(cfg, calls[..n]).lines, StatementsOf(calls[..n]), calls[n].s, Emit(calls[n].s, a));
      RunLogMore(cfg, calls);
    } else {
      assert AreLinesOf(RunLog(cfg, []).lines, StatementsOf([]));
    }
  }

  lemma StatementsMore(calls: seq<LogCall>)
    requires calls != []
    ensures StatementsOf(calls) == StatementsOf(calls[..|calls| - 1]) + [calls[|calls| - 1].s]
  {
  }

  lemma RunLogMore(cfg: Sampler.Config, calls: seq<LogCall>)
    requires calls != []
    ensures RunLog(cfg, calls) == Logged(cfg, RunLog(cfg, calls[..|calls| - 1]), calls[|calls| - 1])
  {
  }

  lemma LoggedEmits(cfg: Sampler.Config, st: State, c: LogCall) returns (a: Answer)
    ensures Logged(cfg, st, c).lines == st.lines + Emit(c.s, a)
  {
    hide StepKey, Emit;
    match c
    case Plain(s, now) => a := StepKey(Sampler.Step(cfg), st.sampled, Call(s.format, now)).1;
    case Always(s) => a := Answer(true, 0);
    case Rated(key, s, now) => a := StepKey(Sampler.Step(cfg), st.sampled, Call(key, now)).1;
    case Windowed(key, window, s, now) =>
      a := StepKey(RateLimit.CheckEntry, st.windowed, Call(key, RateLimit.Probe(window, now))).1;
  }

  /** With the sampler switched off, every statement that is not limited by a window of its own
      leaves exactly its own line, whatever has been logged before. */
  lemma UnlimitedLeavesItsLine(cfg: Sampler.Config, calls: seq<LogCall>, c: LogCall)
    requires cfg.initial <= 0 && (c.Windowed? ==> c.window <= 0)
    ensures RunLog(cfg, calls + [c]).lines == RunLog(cfg, calls).lines + [OwnLine(c.s)]
  {
    assert (calls + [c])[..|calls|] == calls;
  }

  /** So a run without windows leaves one line for each statement, in order, as its caller wrote it. */
  lemma {:induction false} UnlimitedRunIsComplete(cfg: Sampler.Config, calls: seq<LogCall>)
    requires cfg.initial <= 0 && forall i | 0 <= i < |calls| && calls[i].Windowed? :: calls[i].window <= 0
    ensures var lines := RunLog(cfg, calls).lines;
            |lines| == |calls| && forall i | 0 <= i < |calls| :: lines[i] == OwnLine(calls[i].s)
  {
    if calls != [] {
      var n := |calls| - 1;
      UnlimitedRunIsComplete(cfg, calls[..n]);
      assert calls[..n] + [calls[n]] == calls;
      hide *;
      UnlimitedLeavesItsLine(cfg, calls[..n], calls[n]);
    }
  }

  // ---------- accounting on the lines themselves ----------

  /** The lines that a list of statements left under the answers they got. */
  function Printed(ss: seq<Statement>, answers: seq<Answer>): seq<Line>
    requires |ss| == |answers|
  {
    if ss == [] then []
    else
      var n := |ss| - 1;
      Printed(ss[..n], answers[..n]) + Emit(ss[n], answers[n])
  }

  /** The count that a line shows: the format has a place for it, and the argument for that
      place is not one of the caller's own. */
  function Shown(line: Line): int {
    var at := |line.format| - |SUFFIX|;
    if at >= 0 && line.format[at..] == SUFFIX && line.args != [] && line.args[|line.args| - 1].Suppressed? then
      line.args[|line.args| - 1].count
    else
      0
  }

  function ShownIn(lines: seq<Line>): int {
    if lines == [] then 0 else ShownIn(lines[..|lines| - 1]) + Shown(lines[|lines| - 1])
  }

  lemma ShownIsReported(s: Statement, a: Answer)
    requires a.allowed && a.suppressed >= 0
    ensures Shown(Emit(s, a)[0]) == a.suppressed
  {
    assert (s.format + SUFFIX)[|s.format|..] == SUFFIX;
  }

  lemma {:induction false} LinesShowTheAnswers(ss: seq<Statement>, answers: seq<Answer>)
    requires |ss| == |answers|
    requires forall a | a in answers :: a.suppressed >= 0 && (!a.allowed ==> a.suppressed == 0)
    ensures |Printed(ss, answers)| == Lines(answers) && ShownIn(Printed(ss, answers)) == Reported(answers)
  {
    if ss == [] {
    } else {
      var n := |ss| - 1;
      LinesShowTheAnswers(ss[..n], answers[..n]);
      assert answers[n] in answers;
      var before, emitted := Printed(ss[..n], answers[..n]), Emit(ss[n], answers[n]);
      if emitted == [] {
        assert before + emitted == before;
      } else {
        assert (before + emitted)[..|before|] == before;
        ShownIsReported(ss[n], answers[n]);
      }
    }
  }

  /** Whatever else is logged, the statements written under one key through the window limiter
      are all accounted for: each left a line, is in the count a line shows, or is pending. */
  lemma WindowedLinesAccountForCalls(calls: seq<Call<RateLimit.Probe>>, key: string, ss: seq<Statement>)
    requires |ss| == |ArgsOf(calls, key)|
    ensures var r := RunAll(RateLimit.CheckEntry, calls);
            var answers := AnswersOf(calls, r.answers, key);
            && |answers| == |ss|
            && |ss| == |Printed(ss, answers)| + ShownIn(Printed(ss, answers)) + RateLimit.Pending(Lookup(r.entries, key))
  {
    RateLimit.Conservation(calls, key);
    KeysAreIndependent(RateLimit.CheckEntry, calls, key);
    WindowAnswersAreCounts(ArgsOf(calls, key));
    LinesShowTheAnswers(ss, AnswersOf(calls, RunAll(RateLimit.CheckEntry, calls).answers, key));
  }

  lemma {:induction false} WindowAnswersAreCounts(ps: seq<RateLimit.Probe>)
    ensures forall a | a in RunOne(RateLimit.CheckEntry, ps).answers :: a.suppressed >= 0 && (!a.allowed ==> a.suppressed == 0)
  {
    if ps != [] {
      WindowAnswersAreCounts(ps[..|ps| - 1]);
    }
  }

  lemma {:induction false} SampleAnswersAreCounts(cfg: Sampler.Config, nows: seq<int>)
    ensures forall a | a in RunOne(Sampler.Step(cfg), nows).answers :: a.suppressed >= 0 && (!a.allowed ==> a.suppressed == 0)
  {
    if nows != [] {
      SampleAnswersAreCounts(cfg, nows[..|nows| - 1]);
    }
  }

  /** The same for the sampler, up to the calls lost at its resets, which `Sampler.Accounting`
      bounds. */
  lemma SampledLinesAccountForCalls(cfg: Sampler.Config, calls: seq<Call<int>>, key: string, ss: seq<Statement>)
    requires cfg.initial > 0 && cfg.thereafter > 0 && |ss| == |ArgsOf(calls, key)|
    ensures var r := RunAll(Sampler.Step(cfg), calls);
            var nows, answers := ArgsOf(calls, key), AnswersOf(calls, r.answers, key);
            && |answers| == |ss|
            && |ss| == |Printed(ss, answers)| + ShownIn(Printed(ss, answers)) + Sampler.Lost(cfg, nows)
               + Sampler.PeriodRest(cfg, Sampler.Count(Lookup(r.entries, key)))
  {
    Sampler.Accounting(cfg, calls, key);
    KeysAreIndependent(Sampler.Step(cfg), calls, key);
    SampleAnswersAreCounts(cfg, ArgsOf(calls, key));
    LinesShowTheAnswers(ss, AnswersOf(calls, RunAll(Sampler.Step(cfg), calls).answers, key));
  }

  // ---------- the same on the lines of a run ----------

  /** What the calls ask of the window limiter, and what they ask of the sampler. */
  function Probes(calls: seq<LogCall>): seq<Call<RateLimit.Probe>> {
    if calls == [] then []
    else
      var c := calls[|calls| - 1];
      Probes(calls[..|calls| - 1]) + if c.Windowed? then [Call(c.key, RateLimit.Probe(c.window, c.now))] else []
  }

  function Samples(calls: seq<LogCall>): seq<Call<int>> {
    if calls == [] then []
    else
      var c := calls[|calls| - 1];
      Samples(calls[..|calls| - 1]) + if c.Plain? || c.Rated? then [Call(SampleKey(c), c.now)] else []
  }

  function SampleKey(c: LogCall): string
    requires c.Plain? || c.Rated?
  {
    if c.Plain? then c.s.format else c.key
  }

  /** The calls under one key of one of the limiters. */
  predicate IsUnder(windowed: bool, key: string, c: LogCall) {
    if windowed then c.Windowed? && c.key == key else (c.Plain? || c.Rated?) && SampleKey(c) == key
  }

  function Statements(windowed: bool, key: string, calls: seq<LogCall>): seq<Statement> {
    if calls == [] then []
    else
      var c := calls[|calls| - 1];
      Statements(windowed, key, calls[..|calls| - 1]) + if IsUnder(windowed, key, c) then [c.s] else []
  }

  /** The lines that a call has added to those of the run. */
  function Added(cfg: Sampler.Config, st: State, c: LogCall): seq<Line> {
    var lines := Logged(cfg, st, c).lines;
    if |st.lines| <= |lines| then lines[|st.lines|..] else []
  }

  /** The lines of a run that are those of the calls under one key. */
  function LinesUnder(cfg: Sampler.Config, windowed: bool, key: string, calls: seq<LogCall>): seq<Line> {
    if calls == [] then []
    else
      var n := |calls| - 1;
      LinesUnder(cfg, windowed, key, calls[..n])
      + if IsUnder(windowed, key, calls[n]) then Added(cfg, RunLog(cfg, calls[..n]), calls[n]) else []
  }

  lemma WithinAdded(under: seq<Line>, before: seq<Line>, lines: seq<Line>, isUnder: bool)
    requires Within(under, before) && (lines == before || (|lines| == |before| + 1 && lines == before + [lines[|before|]]))
    ensures Within(under + (if isUnder then lines[|before|..] else []), lines)
  {
    hide Within;
    assert under + [] == under;
    if lines == before {
      assert lines[|before|..] == [];
    } else {
      WithinMore(under, before, lines[|before|]);
      assert lines[|before|..] == [lines[|before|]];
    }
  }

  lemma AddedWithin(cfg: Sampler.Config, st: State, c: LogCall, under: seq<Line>, isUnder: bool)
    requires Within(under, st.lines)
    ensures Within(under + (if isUnder then Added(cfg, st, c) else []), Logged(cfg, st, c).lines)
  {
    hide Within, Logged;
    LoggedLines(cfg, st, c);
    WithinAdded(under, st.lines, Logged(cfg, st, c).lines, isUnder);
  }

  /** They are lines of the run, in its order. */
  lemma {:induction false} LinesUnderAreThere(cfg: Sampler.Config, windowed: bool, key: string, calls: seq<LogCall>)
    ensures Within(LinesUnder(cfg, windowed, key, calls), RunLog(cfg, calls).lines)
  {
    hide Within, Logged, Added, IsUnder;
    if calls == [] {
      assert Within([], []) by { NoneWithin([]); }
    } else {
      var n := |calls| - 1;
      LinesUnderAreThere(cfg, windowed, key, calls[..n]);
      AddedWithin(cfg, RunLog(cfg, calls[..n]), calls[n], LinesUnder(cfg, windowed, key, calls[..n]),
                  IsUnder(windowed, key, calls[n]));
    }
  }

  lemma NoneWithin(lines: seq<Line>)
    ensures Within([], lines)
  {
  }

  /** What the run says of the window limiter is what the limiter says of its calls. */
  ghost predicate WindowFits(cfg: Sampler.Config, key: string, calls: seq<LogCall>) {
    var r := RunAll(RateLimit.CheckEntry, Probes(calls));
    var answers := AnswersOf(Probes(calls), r.answers, key);
    && RunLog(cfg, calls).windowed == r.entries
    && |Statements(true, key, calls)| == |answers| == |ArgsOf(Probes(calls), key)|
    && LinesUnder(cfg, true, key, calls) == Printed(Statements(true, key, calls), answers)
  }

  lemma PrintedMore(ss: seq<Statement>, answers: seq<Answer>, s: Statement, a: Answer)
    requires |ss| == |answers|
    ensures Printed(ss + [s], answers + [a]) == Printed(ss, answers) + Emit(s, a)
  {
    assert (ss + [s])[..|ss|] == ss && (answers + [a])[..|answers|] == answers;
  }

  lemma AddedByWindow(cfg: Sampler.Config, st: State, c: LogCall)
    requires c.Windowed?
    ensures var (entries, answer) := StepKey(RateLimit.CheckEntry, st.windowed, Call(c.key, RateLimit.Probe(c.window, c.now)));
            Logged(cfg, st, c).windowed == entries && Added(cfg, st, c) == Emit(c.s, answer)
  {
    hide StepKey, Emit;
  }

  lemma OthersLeaveTheWindow(cfg: Sampler.Config, st: State, c: LogCall)
    requires !c.Windowed?
    ensures Logged(cfg, st, c).windowed == st.windowed
  {
    hide StepKey, Emit;
  }

  lemma {:induction false} WindowOfRun(cfg: Sampler.Config, key: string, calls: seq<LogCall>)
    ensures WindowFits(cfg, key, calls)
  {
    if calls != [] {
      var n := |calls| - 1;
      WindowOfRun(cfg, key, calls[..n]);
      WindowMore(cfg, key, calls);
    }
  }

  lemma WindowMore(cfg: Sampler.Config, key: string, calls: seq<LogCall>)
    requires calls != [] && WindowFits(cfg, key, calls[..|calls| - 1])
    ensures WindowFits(cfg, key, calls)
  {
    hide Printed, Emit, StepKey, Logged, Added, RunAll, AnswersOf, ArgsOf;
    var c, before := calls[|calls| - 1], calls[..|calls| - 1];
    var st, probes := RunLog(cfg, before), Probes(before);
    var r := RunAll(RateLimit.CheckEntry, probes);
    if c.Windowed? {
      var probe := Call(c.key, RateLimit.Probe(c.window, c.now));
      var (entries, answer) := StepKey(RateLimit.CheckEntry, r.entries, probe);
      OneMoreCall(RateLimit.CheckEntry, probes, probe);
      OneMoreOf(probes, r.answers, probe, answer, key);
      AddedByWindow(cfg, st, c);
      if c.key == key { PrintedMore(Statements(true, key, before), AnswersOf(probes, r.answers, key), c.s, answer); }
    } else {
      OthersLeaveTheWindow(cfg, st, c);
      assert probes + [] == probes;
    }
    assert Statements(true, key, before) + [] == Statements(true, key, before);
    assert LinesUnder(cfg, true, key, before) + [] == LinesUnder(cfg, true, key, before);
    assert AnswersOf(probes, r.answers, key) + [] == AnswersOf(probes, r.answers, key);
  }

  /** In every run of log calls of all kinds, the statements under one key of the window limiter are
      accounted for by their lines in the run: each left one, is in the count that one shows, or is
      pending at the end. */
  lemma WindowedRunAccount(cfg: Sampler.Config, key: string, calls: seq<LogCall>)
    ensures var lines := LinesUnder(cfg, true, key, calls);
            && Within(lines, RunLog(cfg, calls).lines)
            && |Statements(true, key, calls)| == |lines| + ShownIn(lines) + RateLimit.Pending(Lookup(RunLog(cfg, calls).windowed, key))
  {
    LinesUnderAreThere(cfg, true, key, calls);
    WindowOfRun(cfg, key, calls);
    WindowedLinesAccountForCalls(Probes(calls), key, Statements(true, key, calls));
  }

  /** The same of the sampler. */
  ghost predicate SampleFits(cfg: Sampler.Config, key: string, calls: seq<LogCall>) {
    var r := RunAll(Sampler.Step(cfg), Samples(calls));
    var answers := AnswersOf(Samples(calls), r.answers, key);
    && RunLog(cfg, calls).sampled == r.entries
    && |Statements(false, key, calls)| == |answers| == |ArgsOf(Samples(calls), key)|
    && LinesUnder(cfg, false, key, calls) == Printed(Statements(false, key, calls), answers)
  }

  lemma AddedBySample(cfg: Sampler.Config, st: State, c: LogCall)
    requires c.Plain? || c.Rated?
    ensures var (entries, answer) := StepKey(Sampler.Step(cfg), st.sampled, Call(SampleKey(c), c.now));
            Logged(cfg, st, c).sampled == entries && Added(cfg, st, c) == Emit(c.s, answer)
  {
    hide StepKey, Emit;
  }

  lemma OthersLeaveTheSampler(cfg: Sampler.Config, st: State, c: LogCall)
    requires !c.Plain? && !c.Rated?
    ensures Logged(cfg, st, c).sampled == st.sampled
  {
    hide StepKey, Emit;
  }

  lemma {:induction false} SampleOfRun(cfg: Sampler.Config, key: string, calls: seq<LogCall>)
    ensures SampleFits(cfg, key, calls)
  {
    if calls != [] {
      var n := |calls| - 1;
      SampleOfRun(cfg, key, calls[..n]);
      SampleMore(cfg, key, calls);
    }
  }

  lemma SampleMore(cfg: Sampler.Config, key: string, calls: seq<LogCall>)
    requires calls != [] && SampleFits(cfg, key, calls[..|calls| - 1])
    ensures SampleFits(cfg, key, calls)
  {
    hide Printed, Emit, StepKey, Logged, Added, RunAll, AnswersOf, ArgsOf, SampleKey;
    var c, before := calls[|calls| - 1], calls[..|calls| - 1];
    var st, samples := RunLog(cfg, before), Samples(before);
    var r := RunAll(Sampler.Step(cfg), samples);
    if c.Plain? || c.Rated? {
      var sample := Call(SampleKey(c), c.now);
      var (entries, answer) := StepKey(Sampler.Step(cfg), r.entries, sample);
      OneMoreCall(Sampler.Step(cfg), samples, sample);
      OneMoreOf(samples, r.answers, sample, answer, key);
      AddedBySample(cfg, st, c);
      if SampleKey(c) == key { PrintedMore(Statements(false, key, before), AnswersOf(samples, r.answers, key), c.s, answer); }
    } else {
      OthersLeaveTheSampler(cfg, st, c);
      assert samples + [] == samples;
    }
    assert Statements(false, key, before) + [] == Statements(false, key, before);
    assert LinesUnder(cfg, false, key, before) + [] == LinesUnder(cfg, false, key, before);
    assert AnswersOf(samples, r.answers, key) + [] == AnswersOf(samples, r.answers, key);
  }

  /** In every run of log calls of all kinds, the statements under one key of the sampler are
      accounted for by their lines in the run, up to those that wait to be reported at the end and
      those lost at resets, at most Thereafter - 1 at each. */
  lemma SampledRunAccount(cfg: Sampler.Config, key: string, calls: seq<LogCall>)
    requires cfg.initial > 0 && cfg.thereafter > 0
    ensures var lines, nows := LinesUnder(cfg, false, key, calls), ArgsOf(Samples(calls), key);
            && Within(lines, RunLog(cfg, calls).lines)
            && |Statements(false, key, calls)| == |lines| + ShownIn(lines) + Sampler.Lost(cfg, nows)
                 + Sampler.PeriodRest(cfg, Sampler.Count(Lookup(RunLog(cfg, calls).sampled, key)))
            && 0 <= Sampler.Lost(cfg, nows) <= Sampler.LaterResets(cfg, nows) * (cfg.thereafter - 1)
  {
    LinesUnderAreThere(cfg, false, key, calls);
    SampleOfRun(cfg, key, calls);
    Sampler.Accounting(cfg, Samples(calls), key);
    SampledLinesAccountForCalls(cfg, Samples(calls), key, Statements(false, key, calls));
  }
}
