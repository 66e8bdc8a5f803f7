/**
 Push (amqp.go) by one caller at a time on one unchanging channel, with a broker that confirms
 each publish once and in order: when a nil return means what it seems to mean.
 */
module AmqpPushOnce {
  /** What the caller's side and the broker know of each other: the messages that were published,
      in order, and how many of their confirmations have been received. */
  datatype Link = Link(sent: seq<string>, received: nat)

  datatype Result = Confirmed | NotConnected | TimedOut | ShutDown | Exhausted

  /** What ends a wait: what the call waits for, its deadline, or the end of the client. */
  datatype Event = Expected | Deadline | Done

  /** One attempt: whether the publish goes out, and what ends the wait after it. */
  datatype Attempt = Attempt(sends: bool, event: Event)

  /** Whether the broker accepts the publish with the given number. */
  type Verdicts = nat -> bool

  function Send(link: Link, m: string): Link { link.(sent := link.sent + [m]) }

  function Receive(link: Link): Link { link.(received := link.received + 1) }

  /** What the call has done when it is over, from a given attempt on. */
  function Pushing(link: Link, m: string, plan: nat -> Attempt, verdicts: Verdicts, max: int, attempt: nat): (Link, Result)
    decreases max - attempt
  {
    if attempt >= max then (link, Exhausted)
    else
      var a := plan(attempt);
      var link1 := if a.sends then Send(link, m) else link;
      match a.event
      case Deadline => (link1, TimedOut)
      case Done => (link1, ShutDown)
      case Expected =>
        if !a.sends then Pushing(link1, m, plan, verdicts, max, attempt + 1)
        else if verdicts(link1.received) then (Receive(link1), Confirmed)
        else Pushing(Receive(link1), m, plan, verdicts, max, attempt + 1)
  }

  /** How many of the publishes from `lo` to `hi` the broker accepts. */
  function Accepted(verdicts: Verdicts, lo: nat, hi: nat): (n: nat)
    requires lo <= hi
    decreases hi - lo
  {
    if lo == hi then 0 else Accepted(verdicts, lo, hi - 1) + if verdicts(hi - 1) then 1 else 0
  }

  /** Confirmations that will come and nobody is waiting for. */
  function Leftover(link: Link): int { |link.sent| - link.received }

  predicate Valid(link: Link) { link.received <= |link.sent| }

  /** Everything after the first `n` publishes is a publish of `m`. */
  ghost predicate OnlyAdds(link: Link, link': Link, m: string) {
    link.sent <= link'.sent && forall i | |link.sent| <= i < |link'.sent| :: link'.sent[i] == m
  }

  predicate CutShort(r: Result) { r.TimedOut? || r.ShutDown? }

  // ---------- any link ----------

  /** The first attempt whose wait ends by the deadline or the shutdown, or the number of attempts. */
  function FirstCut(plan: nat -> Attempt, max: int, attempt: nat): (k: nat)
    decreases max - attempt
  {
    if attempt >= max || plan(attempt).event != Expected then attempt else FirstCut(plan, max, attempt + 1)
  }

  /** A call leaves what was left over, and one confirmation more exactly when it is cut short in an
      attempt that has sent. */
  lemma {:induction false} LeftoverNeverShrinks(link: Link, m: string, plan: nat -> Attempt, verdicts: Verdicts,
                                                max: int, attempt: nat)
    requires Valid(link)
    ensures var (link', r) := Pushing(link, m, plan, verdicts, max, attempt);
            && Valid(link') && OnlyAdds(link, link', m)
            && Leftover(link') == Leftover(link) + (if CutShort(r) && plan(FirstCut(plan, max, attempt)).sends then 1 else 0)
            && |link'.sent| - |link.sent| <= (if attempt < max then max - attempt else 0)
    decreases max - attempt
  {
    if attempt < max && plan(attempt).event == Expected {
      var link1 := if plan(attempt).sends then Send(link, m) else link;
      var link2 := if plan(attempt).sends then Receive(link1) else link1;
      LeftoverNeverShrinks(link2, m, plan, verdicts, max, attempt + 1);
    }
  }

  /** A nil return is about the publish that lies as far back as there were confirmations left over:
      the call's last one when there were none, and an earlier one, of this call or another, when
      there were some. */
  lemma {:induction false} NilLagsBehind(link: Link, m: string, plan: nat -> Attempt, verdicts: Verdicts, max: int, attempt: nat)
    requires Valid(link)
    ensures var (link', r) := Pushing(link, m, plan, verdicts, max, attempt);
            r.Confirmed? ==>
              && 0 < link'.received <= |link'.sent| && verdicts(link'.received - 1)
              && link'.received - 1 == |link'.sent| - 1 - Leftover(link)
    decreases max - attempt
  {
    if attempt < max && plan(attempt).event == Expected {
      var link1 := if plan(attempt).sends then Send(link, m) else link;
      var link2 := if plan(attempt).sends then Receive(link1) else link1;
      NilLagsBehind(link2, m, plan, verdicts, max, attempt + 1);
    }
  }

  /** A call of at least one attempt that times out while waiting for the confirmation of its first
      publish leaves that confirmation behind, on any link, and with it no nil return of a later
      call is sure to be true any more. */
  lemma TimedOutPushLeavesOne(link: Link, m: string, verdicts: Verdicts, max: int, next: string)
    requires Valid(link) && max > 0
    ensures var link' := Send(link, m);
            && Pushing(link, m, _ => Attempt(true, Deadline), verdicts, max, 0) == (link', TimedOut)
            && Leftover(link') == Leftover(link) + 1 && !NilIsTrue(link', next)
  {
    NilIsTrueIffClean(Send(link, m), next);
  }

  /** How many of the attempts from `lo` to `hi` send. */
  function Sends(plan: nat -> Attempt, lo: nat, hi: nat): nat
    requires lo <= hi
    decreases hi - lo
  {
    if lo == hi then 0 else (if plan(lo).sends then 1 else 0) + Sends(plan, lo + 1, hi)
  }

  /** The attempt is the call's last one, unless an earlier one was: it waits for nothing any more, or
      receives a positive confirmation. */
  predicate Decides(link: Link, plan: nat -> Attempt, verdicts: Verdicts, attempt: nat, i: nat)
    requires attempt <= i
  {
    plan(i).event != Expected || (plan(i).sends && verdicts(link.received + Sends(plan, attempt, i)))
  }

  ghost predicate NoneDecides(link: Link, plan: nat -> Attempt, verdicts: Verdicts, attempt: nat, n: nat) {
    forall i | attempt <= i < n :: !Decides(link, plan, verdicts, attempt, i)
  }

  /** Seen from after an attempt that has not decided, the others are what they were. */
  lemma DecidesLater(link: Link, m: string, plan: nat -> Attempt, verdicts: Verdicts, attempt: nat, i: nat)
    requires attempt < i
    ensures Decides(Tried(link, m, plan, attempt), plan, verdicts, attempt + 1, i) == Decides(link, plan, verdicts, attempt, i)
  {
  }

  /** The link after an attempt that has not decided. */
  function Tried(link: Link, m: string, plan: nat -> Attempt, attempt: nat): Link {
    if plan(attempt).sends then Receive(Send(link, m)) else link
  }

  lemma NoneDecidesLater(link: Link, m: string, plan: nat -> Attempt, verdicts: Verdicts, attempt: nat, n: nat)
    requires attempt < n && !Decides(link, plan, verdicts, attempt, attempt)
    ensures NoneDecides(Tried(link, m, plan, attempt), plan, verdicts, attempt + 1, n)
            == NoneDecides(link, plan, verdicts, attempt, n)
  {
    hide Decides, Tried;
    var link' := Tried(link, m, plan, attempt);
    if NoneDecides(link, plan, verdicts, attempt, n) {
      var next := attempt + 1;
      forall i | next <= i < n ensures !Decides(link', plan, verdicts, next, i) {
        DecidesLater(link, m, plan, verdicts, attempt, i);
      }
    }
    if NoneDecides(link', plan, verdicts, attempt + 1, n) {
      forall i | attempt <= i < n ensures !Decides(link, plan, verdicts, attempt, i) {
        if attempt < i { DecidesLater(link, m, plan, verdicts, attempt, i); }
      }
    }
  }

  /** The call ends at the first attempt that decides, with the answer that goes with it, having
      published once for every attempt up to then that sends. */
  lemma {:induction false} FirstDecides(link: Link, m: string, plan: nat -> Attempt, verdicts: Verdicts, max: int,
                                        attempt: nat, k: nat)
    requires attempt <= k < max && NoneDecides(link, plan, verdicts, attempt, k) && Decides(link, plan, verdicts, attempt, k)
    ensures var (link', r) := Pushing(link, m, plan, verdicts, max, attempt);
            && r == (match plan(k).event case Deadline => TimedOut case Done => ShutDown case Expected => Confirmed)
            && |link'.sent| == |link.sent| + Sends(plan, attempt, k + 1)
    decreases k - attempt
  {
    if attempt < k {
      assert !Decides(link, plan, verdicts, attempt, attempt);
      NoneDecidesLater(link, m, plan, verdicts, attempt, k);
      DecidesLater(link, m, plan, verdicts, attempt, k);
      FirstDecides(Tried(link, m, plan, attempt), m, plan, verdicts, max, attempt + 1, k);
    }
  }

  /** And it gives up exactly when none of its attempts decides: it has then gone through all of them,
      and each has published and been refused, or could not publish. */
  lemma {:induction false} ExhaustedIffNoneDecides(link: Link, m: string, plan: nat -> Attempt, verdicts: Verdicts, max: int,
                                                   attempt: nat)
    ensures var (link', r) := Pushing(link, m, plan, verdicts, max, attempt);
            && (r.Exhausted? <==> NoneDecides(link, plan, verdicts, attempt, if attempt < max then max else attempt))
            && (r.Exhausted? && attempt <= max ==> |link'.sent| == |link.sent| + Sends(plan, attempt, max))
    decreases max - attempt
  {
    if attempt < max && !Decides(link, plan, verdicts, attempt, attempt) {
      NoneDecidesLater(link, m, plan, verdicts, attempt, max);
      ExhaustedIffNoneDecides(Tried(link, m, plan, attempt), m, plan, verdicts, max, attempt + 1);
    }
  }

  // ---------- nothing left over ----------

  /** On a link with nothing left over, the call's answer is the truth: nil exactly when the
      broker has accepted the message, which it then has once; after the retries, never. */
  lemma {:induction false} CleanPushIsExact(link: Link, m: string, plan: nat -> Attempt, verdicts: Verdicts,
                                            max: int, attempt: nat)
    requires Valid(link) && Leftover(link) == 0
    ensures var (link', r) := Pushing(link, m, plan, verdicts, max, attempt);
            && |link.sent| <= |link'.sent|
            && (r.Confirmed? ==> Accepted(verdicts, |link.sent|, |link'.sent|) == 1)
            && (r.Exhausted? ==> Accepted(verdicts, |link.sent|, |link'.sent|) == 0)
            && (CutShort(r) ==> Accepted(verdicts, |link.sent|, |link'.sent|) <= 1)
            && (!CutShort(r) ==> Leftover(link') == 0)
            && !r.NotConnected?
    decreases max - attempt
  {
    if attempt < max {
      var a := plan(attempt);
      var n := |link.sent|;
      if a.event == Expected {
        var link2 := if a.sends then Receive(Send(link, m)) else link;
        if !a.sends || !verdicts(n) {
          CleanPushIsExact(link2, m, plan, verdicts, max, attempt + 1);
          if a.sends {
            AcceptedFirst(verdicts, n, |Pushing(link2, m, plan, verdicts, max, attempt + 1).0.sent|);
          }
        }
      }
    }
  }

  lemma {:induction false} AcceptedFirst(verdicts: Verdicts, lo: nat, hi: nat)
    requires lo < hi
    ensures Accepted(verdicts, lo, hi) == Accepted(verdicts, lo + 1, hi) + if verdicts(lo) then 1 else 0
    decreases hi - lo
  {
    if lo + 1 < hi {
      AcceptedFirst(verdicts, lo, hi - 1);
    }
  }

  // ---------- something left over ----------

  /** A nil answer stands for a message that the broker has accepted. */
  ghost predicate NilIsTrue(link: Link, m: string) {
    forall plan: nat -> Attempt, verdicts: Verdicts, max: int ::
      var (link', r) := Pushing(link, m, plan, verdicts, max, 0);
      r.Confirmed? ==> |link.sent| <= |link'.sent| && Accepted(verdicts, |link.sent|, |link'.sent|) == 1
  }

  /** And it does so exactly when nothing was left over: with a confirmation outstanding, the
      first one received is not the message's own. */
  lemma NilIsTrueIffClean(link: Link, m: string)
    requires Valid(link)
    ensures NilIsTrue(link, m) <==> Leftover(link) == 0
  {
    if Leftover(link) == 0 {
      forall plan: nat -> Attempt, verdicts: Verdicts, max: int {
        CleanPushIsExact(link, m, plan, verdicts, max, 0);
      }
    } else {
      var plan := (i: nat) => Attempt(true, Expected);
      var verdicts := (i: nat) => i == link.received;
      var (link', r) := Pushing(link, m, plan, verdicts, 1, 0);
      assert r.Confirmed? && link' == Receive(Send(link, m));
      assert Accepted(verdicts, |link.sent|, |link.sent| + 1) == 0;
      assert !NilIsTrue(link, m);
    }
  }

  // ---------- call after call ----------

  /** A call: its message, how its attempts fare, and whether the client is ready. */
  datatype Call = Call(message: string, plan: nat -> Attempt, ready: bool)

  /** A whole call: what becomes of the link, and its answer. */
  function Outcome(link: Link, call: Call, verdicts: Verdicts, max: int): (Link, Result) {
    if call.ready then Pushing(link, call.message, call.plan, verdicts, max, 0) else (link, NotConnected)
  }

  /** The links before and after each call. */
  function Links(link: Link, calls: seq<Call>, verdicts: Verdicts, max: int): (links: seq<Link>)
    ensures |links| == |calls| + 1
  {
    if calls == [] then [link]
    else
      var before := Links(link, calls[..|calls| - 1], verdicts, max);
      before + [Outcome(before[|before| - 1], calls[|calls| - 1], verdicts, max).0]
  }

  lemma LinksStep(link: Link, calls: seq<Call>, verdicts: Verdicts, max: int, i: nat)
    requires i < |calls|
    ensures var links := Links(link, calls, verdicts, max);
            links[0] == link && links[i + 1] == Outcome(links[i], calls[i], verdicts, max).0
  {
    if i + 1 < |calls| {
      LinksStep(link, calls[..|calls| - 1], verdicts, max, i);
    } else if i > 0 {
      LinksStep(link, calls[..|calls| - 1], verdicts, max, i - 1);
    }
  }

  /** As long as no call has been cut short, no confirmation is left over between calls, so that
      every answer is the truth. */
  lemma {:induction false} NothingLeftBetweenCalls(calls: seq<Call>, verdicts: Verdicts, max: int, n: nat)
    requires n <= |calls|
    requires forall i | 0 <= i < n :: !CutShort(Outcome(Links(Link([], 0), calls, verdicts, max)[i], calls[i], verdicts, max).1)
    ensures Valid(Links(Link([], 0), calls, verdicts, max)[n]) && Leftover(Links(Link([], 0), calls, verdicts, max)[n]) == 0
  {
    var links := Links(Link([], 0), calls, verdicts, max);
    if n == 0 {
      if calls != [] { LinksStep(Link([], 0), calls, verdicts, max, 0); }
    } else {
      NothingLeftBetweenCalls(calls, verdicts, max, n - 1);
      LinksStep(Link([], 0), calls, verdicts, max, n - 1);
      LeftoverNeverShrinks(links[n - 1], calls[n - 1].message, calls[n - 1].plan, verdicts, max, 0);
    }
  }

  /** So each call adds its own message only, and returns nil when the broker has accepted one
      of its publishes, and gives up when it has accepted none. */
  lemma AnswersAreTrue(calls: seq<Call>, verdicts: Verdicts, max: int, n: nat)
    requires n < |calls|
    requires forall i | 0 <= i < n :: !CutShort(Outcome(Links(Link([], 0), calls, verdicts, max)[i], calls[i], verdicts, max).1)
    ensures var links := Links(Link([], 0), calls, verdicts, max);
            var r := Outcome(links[n], calls[n], verdicts, max).1;
            && OnlyAdds(links[n], links[n + 1], calls[n].message)
            && (r.Confirmed? ==> Accepted(verdicts, |links[n].sent|, |links[n + 1].sent|) == 1)
            && (r.Exhausted? || r.NotConnected? ==> Accepted(verdicts, |links[n].sent|, |links[n + 1].sent|) == 0)
  {
    var links := Links(Link([], 0), calls, verdicts, max);
    NothingLeftBetweenCalls(calls, verdicts, max, n);
    LinksStep(Link([], 0), calls, verdicts, max, n);
    LeftoverNeverShrinks(links[n], calls[n].message, calls[n].plan, verdicts, max, 0);
    CleanPushIsExact(links[n], calls[n].message, calls[n].plan, verdicts, max, 0);
  }

  // ---------- the program ----------

  class AmqpClient {
    var ready: bool
    var link: Link

    /** Push. */
    method Push(m: string, plan: nat -> Attempt, verdicts: Verdicts, maxRetries: int) returns (r: Result)
      requires Valid(link)
      modifies `link
      ensures Valid(link)
      ensures (link, r) == Outcome(old(link), Call(m, plan, ready), verdicts, maxRetries)
    {
      if !ready {
        return NotConnected;
      }
      var attempt := 0;
      while attempt < maxRetries
        invariant 0 <= attempt && Valid(link)
        invariant Pushing(old(link), m, plan, verdicts, maxRetries, 0) == Pushing(link, m, plan, verdicts, maxRetries, attempt)
      {
        var sent := plan(attempt).sends;
        if sent {
          link := Send(link, m);
        }
        match plan(attempt).event {
          case Done => return ShutDown;
          case Deadline => return TimedOut;
          case Expected =>
            if sent {
              var ack := verdicts(link.received);
              link := Receive(link);
              if ack {
                return Confirmed;
              }
            }
        }
        attempt := attempt + 1;
      }
      r := Exhausted;
    }
  }
}
