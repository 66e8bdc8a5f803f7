/** What the counters of the publisher count, over every run: each step of a kind taken in a state
    of a kind, and nothing else. */
module AuditPublisherTallies {
  import opened Wrappers
  import opened Runs
  import opened Counting
  import opened AuditPublisher
  import opened AuditPublisherRuns

  /** The state in which step `i` of a run is taken. */
  function StateAt(cfg: Config, steps: seq<Step>, i: nat): Option<State>
    requires i <= |steps|
  {
    At(NextBy(cfg, false), INITIAL, steps, i)
  }

  /** How many steps of a run are taken in states of which `p` holds. */
  function Taken(cfg: Config, steps: seq<Step>, p: (State, Step) -> bool): nat {
    CountIn(NextBy(cfg, false), INITIAL, steps, p)
  }

  function Loads(): (State, Step) -> bool { (s: State, t: Step) => t.SubmitLoad? }

  function LoadsOpen(): (State, Step) -> bool { (s: State, t: Step) => t.SubmitLoad? && s.breaker.open }

  function SendsFull(cfg: Config): (State, Step) -> bool {
    (s: State, t: Step) => t.SubmitSend? && !s.ending.shut && |s.channel.queue| >= cfg.bufferSize
  }

  function SendsFit(cfg: Config): (State, Step) -> bool {
    (s: State, t: Step) => t.SubmitSend? && !s.ending.shut && |s.channel.queue| < cfg.bufferSize
  }

  function Unready(): (State, Step) -> bool { (s: State, t: Step) => t.AskReady? && !t.ready }

  function Unmarshalled(): (State, Step) -> bool { (s: State, t: Step) => t.Marshal? && !t.ok }

  function Pushes(ok: bool): (State, Step) -> bool { (s: State, t: Step) => t.Push? && t.ok == ok }

  function Adds(): (State, Step) -> bool { (s: State, t: Step) => t.AddFailure? }

  /** A worker that has counted up to the threshold looks and finds the breaker closed. */
  function FindsClosed(cfg: Config): (State, Step) -> bool {
    (s: State, t: Step) => t.TryOpen? && t.w < |s.workers| && s.workers[t.w].Counted? && s.workers[t.w].n >= cfg.threshold
                           && !s.breaker.open
  }

  function IsOpening(): Event -> bool { (e: Event) => e.Opening? }

  ghost predicate TalliesFit(cfg: Config, steps: seq<Step>, s: State) {
    && s.tally.submitted == Taken(cfg, steps, Loads())
    && s.tally.droppedOpen == Taken(cfg, steps, LoadsOpen())
    && s.tally.droppedFull == Taken(cfg, steps, SendsFull(cfg))
    && |s.channel.accepted| == Taken(cfg, steps, SendsFit(cfg))
    && s.tally.notReady == Taken(cfg, steps, Unready())
    && s.tally.marshalFailed == Taken(cfg, steps, Unmarshalled())
    && s.tally.pushFailed == Taken(cfg, steps, Pushes(false))
    && s.tally.pushed == Taken(cfg, steps, Pushes(true))
  }

  lemma TakenOneMore(cfg: Config, steps: seq<Step>, p: (State, Step) -> bool)
    requires steps != [] && StateAt(cfg, steps, |steps| - 1).Some?
    ensures var n := |steps| - 1;
            Taken(cfg, steps, p) == Taken(cfg, steps[..n], p) + if p(StateAt(cfg, steps, n).value, steps[n]) then 1 else 0
  {
    CountOneMore(NextBy(cfg, false), INITIAL, steps, p);
  }

  function One(b: bool): nat { if b then 1 else 0 }

  lemma SubmittingTallies(cfg: Config, s: State, t: Step)
    requires Next(cfg, s, t, false).Some?
    ensures var s' := Next(cfg, s, t, false).value;
            && s'.tally.submitted == s.tally.submitted + One(Loads()(s, t))
            && s'.tally.droppedOpen == s.tally.droppedOpen + One(LoadsOpen()(s, t))
            && s'.tally.droppedFull == s.tally.droppedFull + One(SendsFull(cfg)(s, t))
            && |s'.channel.accepted| == |s.channel.accepted| + One(SendsFit(cfg)(s, t))
  {
    hide Opened;
    if t.TryOpen? && t.w < |s.workers| && s.workers[t.w].Counted? {
      OpenedTallies(cfg, s, t.w, s.workers[t.w].n, s.workers[t.w].at);
    }
  }

  lemma HandlingTallies(cfg: Config, s: State, t: Step)
    requires Next(cfg, s, t, false).Some?
    ensures var s' := Next(cfg, s, t, false).value;
            && s'.tally.notReady == s.tally.notReady + One(Unready()(s, t))
            && s'.tally.marshalFailed == s.tally.marshalFailed + One(Unmarshalled()(s, t))
            && s'.tally.pushFailed == s.tally.pushFailed + One(Pushes(false)(s, t))
            && s'.tally.pushed == s.tally.pushed + One(Pushes(true)(s, t))
  {
    hide Opened;
    if t.TryOpen? && t.w < |s.workers| && s.workers[t.w].Counted? {
      OpenedTallies(cfg, s, t.w, s.workers[t.w].n, s.workers[t.w].at);
    }
  }

  lemma OpenedTallies(cfg: Config, s: State, w: nat, n: nat, at: nat)
    requires w < |s.workers|
    ensures Opened(cfg, s, w, n, at).tally == s.tally && Opened(cfg, s, w, n, at).channel == s.channel
  {
  }

  /** In every run: submitted counts the loads, droppedOpen those of them that found the breaker open,
      droppedFull and accepted the sends by whether the queue had room, and the others the answers of
      the client and the encoder. */
  lemma {:induction false} TalliesAreExact(cfg: Config, steps: seq<Step>, s: State)
    requires Reaches(cfg, steps, s, false)
    ensures TalliesFit(cfg, steps, s)
  {
    if steps != [] {
      var n := |steps| - 1;
      var m := StateAt(cfg, steps, n).value;
      TalliesAreExact(cfg, steps[..n], m);
      TalliesMore(cfg, steps, m, s);
    }
  }

  lemma TalliesMore(cfg: Config, steps: seq<Step>, m: State, s: State)
    requires steps != [] && StateAt(cfg, steps, |steps| - 1) == Some(m) && Next(cfg, m, steps[|steps| - 1], false) == Some(s)
    requires TalliesFit(cfg, steps[..|steps| - 1], m)
    ensures TalliesFit(cfg, steps, s)
  {
    hide Next, Taken, StateAt, Loads, LoadsOpen, SendsFull, SendsFit, Unready, Unmarshalled, Pushes;
    SubmittingTallies(cfg, m, steps[|steps| - 1]);
    HandlingTallies(cfg, m, steps[|steps| - 1]);
    TakenOneMore(cfg, steps, Loads());
    TakenOneMore(cfg, steps, LoadsOpen());
    TakenOneMore(cfg, steps, SendsFull(cfg));
    TakenOneMore(cfg, steps, SendsFit(cfg));
    TakenOneMore(cfg, steps, Unready());
    TakenOneMore(cfg, steps, Unmarshalled());
    TakenOneMore(cfg, steps, Pushes(false));
    TakenOneMore(cfg, steps, Pushes(true));
  }

  // ---------- the breaker ----------

  lemma LogGrows(cfg: Config, s: State, t: Step)
    requires Next(cfg, s, t, false).Some?
    ensures var s' := Next(cfg, s, t, false).value;
            Count(s'.breaker.log, IsOpening()) == Count(s.breaker.log, IsOpening()) + One(FindsClosed(cfg)(s, t))
    ensures var s' := Next(cfg, s, t, false).value;
            Count(s'.breaker.log, IsFailure()) == Count(s.breaker.log, IsFailure()) + One(Adds()(s, t))
  {
    var log, log' := s.breaker.log, Next(cfg, s, t, false).value.breaker.log;
    hide Count;
    if log' != log {
      assert log' == log + [log'[|log|]] && |log'| == |log| + 1;
      CountLast(log, log'[|log|], IsOpening());
      CountLast(log, log'[|log|], IsFailure());
    }
  }

  lemma CountLast(log: seq<Event>, e: Event, p: Event -> bool)
    ensures Count(log + [e], p) == Count(log, p) + One(p(e))
  {
    assert (log + [e])[..|log|] == log;
  }

  /** In every run the breaker opens once for each time that a worker which has counted up to the
      threshold finds it closed, and every failure is counted. */
  lemma {:induction false} OpeningsAreExact(cfg: Config, steps: seq<Step>, s: State)
    requires Reaches(cfg, steps, s, false)
    ensures Count(s.breaker.log, IsOpening()) == Taken(cfg, steps, FindsClosed(cfg))
    ensures Count(s.breaker.log, IsFailure()) == Taken(cfg, steps, Adds())
  {
    if steps != [] {
      var n := |steps| - 1;
      var m := StateAt(cfg, steps, n).value;
      OpeningsAreExact(cfg, steps[..n], m);
      hide Next, Count, Taken, FindsClosed, IsOpening, IsFailure, Adds;
      LogGrows(cfg, m, steps[n]);
      TakenOneMore(cfg, steps, FindsClosed(cfg));
      TakenOneMore(cfg, steps, Adds());
    }
  }

  // ---------- who is sent ----------

  /** Step `i` is the last one of this call: its load, in a state with a closed breaker. */
  ghost predicate LoadedClosed(cfg: Config, steps: seq<Step>, i: nat, call: nat, payload: string) {
    && i < |steps| && steps[i] == SubmitLoad(call, payload)
    && StateAt(cfg, steps, i).Some? && !StateAt(cfg, steps, i).value.breaker.open
    && forall k | i < k < |steps| :: !IsOfCall(steps[k], call)
  }

  predicate IsOfCall(t: Step, call: nat) {
    (t.SubmitLoad? && t.call == call) || (t.SubmitSend? && t.call == call)
  }

  /** Whoever has passed the breaker loaded it while it was closed. */
  ghost predicate PassedLoaded(cfg: Config, steps: seq<Step>, s: State) {
    forall call | call in s.channel.passed :: exists i: nat :: LoadedClosed(cfg, steps, i, call, s.channel.passed[call])
  }

  lemma PassedBefore(cfg: Config, s: State, t: Step, call: nat)
    requires Next(cfg, s, t, false).Some? && call in Next(cfg, s, t, false).value.channel.passed
    requires !Next(cfg, s, t, false).value.ending.crashed
    ensures var passed := Next(cfg, s, t, false).value.channel.passed;
            || (t == SubmitLoad(call, passed[call]) && !s.breaker.open)
            || (call in s.channel.passed && passed[call] == s.channel.passed[call] && !IsOfCall(t, call))
  {
    hide Opened;
    if t.TryOpen? && t.w < |s.workers| && s.workers[t.w].Counted? {
      OpenedTallies(cfg, s, t.w, s.workers[t.w].n, s.workers[t.w].at);
    }
  }

  lemma LoadedStays(cfg: Config, steps: seq<Step>, i: nat, call: nat, payload: string)
    requires steps != [] && LoadedClosed(cfg, steps[..|steps| - 1], i, call, payload) && !IsOfCall(steps[|steps| - 1], call)
    ensures LoadedClosed(cfg, steps, i, call, payload)
  {
    hide Next, Run;
    assert steps[..|steps| - 1][..i] == steps[..i];
  }

  lemma {:induction false} PassedWereLoaded(cfg: Config, steps: seq<Step>, s: State)
    requires Reaches(cfg, steps, s, false) && !s.ending.crashed
    ensures PassedLoaded(cfg, steps, s)
  {
    if steps != [] {
      var n := |steps| - 1;
      var m := StateAt(cfg, steps, n).value;
      PassedWereLoaded(cfg, steps[..n], m);
      hide Next, Run, LoadedClosed, IsOfCall;
      forall call | call in s.channel.passed ensures exists i: nat :: LoadedClosed(cfg, steps, i, call, s.channel.passed[call]) {
        PassedBefore(cfg, m, steps[n], call);
        if steps[n] == SubmitLoad(call, s.channel.passed[call]) && !m.breaker.open {
          LoadedNow(cfg, steps, call, s.channel.passed[call]);
        } else {
          var i: nat :| LoadedClosed(cfg, steps[..n], i, call, m.channel.passed[call]);
          LoadedStays(cfg, steps, i, call, s.channel.passed[call]);
        }
      }
    }
  }

  lemma LoadedNow(cfg: Config, steps: seq<Step>, call: nat, payload: string)
    requires steps != [] && steps[|steps| - 1] == SubmitLoad(call, payload)
    requires StateAt(cfg, steps, |steps| - 1).Some? && !StateAt(cfg, steps, |steps| - 1).value.breaker.open
    ensures LoadedClosed(cfg, steps, |steps| - 1, call, payload)
  {
  }

  /** In every run each send is of a call whose last action before was to find the breaker closed, with
      the payload that it was given. */
  lemma SendsWereLoaded(cfg: Config, steps: seq<Step>, s: State, j: nat) returns (i: nat)
    requires Reaches(cfg, steps, s, false) && j < |steps| && steps[j].SubmitSend?
    ensures StateAt(cfg, steps, j).Some? && steps[j].call in StateAt(cfg, steps, j).value.channel.passed
    ensures LoadedClosed(cfg, steps[..j], i, steps[j].call, StateAt(cfg, steps, j).value.channel.passed[steps[j].call])
  {
    RunPrefix(NextBy(cfg, false), INITIAL, steps, j + 1);
    assert steps[..j + 1][..j] == steps[..j];
    var m := StateAt(cfg, steps, j).value;
    PassedWereLoaded(cfg, steps[..j], m);
    i :| LoadedClosed(cfg, steps[..j], i, steps[j].call, m.channel.passed[steps[j].call]);
  }

  /** So a call that has found the breaker open never sends, unless it begins anew. */
  lemma OpenMeansDropped(cfg: Config, steps: seq<Step>, s: State, i: nat, j: nat)
    requires Reaches(cfg, steps, s, false) && i < j < |steps|
    requires steps[i].SubmitLoad? && StateAt(cfg, steps, i).Some? && StateAt(cfg, steps, i).value.breaker.open
    requires forall k | i < k < j :: !(steps[k].SubmitLoad? && steps[k].call == steps[i].call)
    ensures steps[j] != SubmitSend(steps[i].call)
  {
    assert IsOfCall(steps[..j][i], steps[i].call) && steps[..j][..i] == steps[..i];
    hide Reaches, Next, Run;
    if steps[j] == SubmitSend(steps[i].call) {
      var l := SendsWereLoaded(cfg, steps, s, j);
    }
  }
}
