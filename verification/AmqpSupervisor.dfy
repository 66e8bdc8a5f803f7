/**
 The supervisor of the AMQP client (amqp.go): it dials, initialises a channel, watches, and starts
 again.  Other goroutines read the client's fields at any moment, so what is claimed is claimed
 after every single write.  What the broker and the clock do is a script; Close is not followed.
 */
module AmqpSupervisor {
  import opened Wrappers

  /** What is true of a channel that the library has opened. */
  datatype Facts = Facts(conn: nat, confirm: bool, passiveFailed: bool, declared: bool)

  /** Whose events a listener gets. */
  datatype Source = Closing(conn: nat) | ChannelClosing(chan: nat) | Confirming(chan: nat)

  /** The library's side: connections and channels are numbered as they are opened. */
  datatype Library = Library(conns: nat, chans: seq<Facts>, listeners: map<nat, Source>, made: nat)

  datatype Activity = Starting | Dialing | AwaitingRedial | Initialising | AwaitingReInit | Watching | Ended

  /** The fields that other goroutines can see. */
  datatype View = View(isReady: bool, connection: Option<nat>, channel: Option<nat>,
                       notifyConnClose: Option<nat>, notifyChanClose: Option<nat>, notifyConfirm: Option<nat>)

  datatype Snapshot = Snapshot(doing: Activity, view: View, lib: Library)

  /** The channel can be published on, and its end will be noticed. */
  ghost predicate Usable(v: View, lib: Library) {
    && v.connection.Some? && v.channel.Some? && v.channel.value < |lib.chans|
    && v.notifyConnClose.Some? && v.notifyConnClose.value in lib.listeners
    && v.notifyChanClose.Some? && v.notifyChanClose.value in lib.listeners
    && v.notifyConfirm.Some? && v.notifyConfirm.value in lib.listeners
    && var facts := lib.chans[v.channel.value];
    && facts.conn == v.connection.value && facts.confirm && facts.declared && !facts.passiveFailed
    && lib.listeners[v.notifyConnClose.value] == Closing(v.connection.value)
    && lib.listeners[v.notifyChanClose.value] == ChannelClosing(v.channel.value)
    && lib.listeners[v.notifyConfirm.value] == Confirming(v.channel.value)
  }

  /** The client says that it is ready exactly while the supervisor watches, and is right. */
  ghost predicate Good(s: Snapshot) {
    && (s.doing != Ended ==> (s.view.isReady <==> s.doing == Watching))
    && (s.view.isReady ==> Usable(s.view, s.lib))
  }

  predicate Follows(a: Activity, b: Activity) {
    || a == b
    || match a
       case Starting => b.Dialing?
       case Dialing => b.AwaitingRedial? || b.Initialising?
       case AwaitingRedial => b.Dialing? || b.Ended?
       case Initialising => b.AwaitingReInit? || b.Watching?
       case AwaitingReInit => b.Initialising? || b.Dialing? || b.Ended?
       case Watching => b.Initialising? || b.Dialing? || b.Ended?
       case Ended => false
  }

  /** From one moment to the next: the connection changes while dialing, the channel while
      initialising, and nothing while the client stays ready. */
  ghost predicate Steady(s: Snapshot, s': Snapshot) {
    && Follows(s.doing, s'.doing)
    && (s'.view.connection != s.view.connection || s'.view.notifyConnClose != s.view.notifyConnClose ==> s'.doing == Dialing)
    && (s'.view.channel != s.view.channel || s'.view.notifyChanClose != s.view.notifyChanClose
        || s'.view.notifyConfirm != s.view.notifyConfirm
        ==> s.doing == Initialising && s'.doing == Initialising)
    && (s.view.isReady && s'.view.isReady ==> s'.view == s.view)
  }

  ghost predicate AllGood(seen: seq<Snapshot>) {
    && (forall i | 0 <= i < |seen| :: Good(seen[i]))
    && (forall i | 0 < i < |seen| :: Steady(seen[i - 1], seen[i]))
  }

  /** From one moment to another throughout which the client was ready, nothing has changed for
      those who use it, and what they use was good all along. */
  lemma {:induction false} ReadyIsLasting(seen: seq<Snapshot>, i: nat, j: nat)
    requires AllGood(seen) && i <= j < |seen|
    requires forall k | i <= k <= j :: seen[k].view.isReady
    ensures seen[j].view == seen[i].view && Usable(seen[i].view, seen[j].lib)
  {
    if i < j {
      ReadyIsLasting(seen, i, j - 1);
      assert Steady(seen[j - 1], seen[j]);
    }
    assert Good(seen[j]);
  }

  /** Readiness is taken back before anything is taken away: the connection is replaced only
      while dialing and the channel only while initialising, when the client is not ready. */
  lemma ReplacedOnlyWhenUnready(seen: seq<Snapshot>, i: nat)
    requires AllGood(seen) && 0 < i < |seen| && seen[i].view.(isReady := seen[i - 1].view.isReady) != seen[i - 1].view
    ensures !seen[i].view.isReady
  {
    assert Steady(seen[i - 1], seen[i]) && Good(seen[i - 1]) && Good(seen[i]);
  }

  /** How the library answers during init. */
  datatype Answers = Answers(opens: bool, confirms: bool, found: bool, reopens: bool, reconfirms: bool, declares: bool)

  /** Init succeeds: the queue is found on the first channel, or declared on a second one. */
  predicate Succeeds(a: Answers) {
    a.opens && a.confirms && (a.found || (a.reopens && a.reconfirms && a.declares))
  }

  /** What init leads to: the client is watched, or init is tried again later. */
  function WaitsAfter(a: Answers): Activity { if Succeeds(a) then Watching else AwaitingReInit }

  /** What a select of the supervisor receives: the end of the client, the close of the
      connection, or what makes it go round again (the timer, the close of the channel). */
  datatype Event = Done | ConnClosed | Again

  /** One round of handleReInit: init, and the event that ends the wait after it. */
  datatype Round = Round(answers: Answers, event: Event)

  /** One round of handleReconnect: a dial that fails, with the event after it, or the rounds
      of handleReInit on the new connection. */
  datatype Dial = Fails(done: bool) | Connects(rounds: seq<Round>)

  /** How handleReInit is left, if it is within the rounds it is followed for. */
  datatype Leaving = ShutDown | Reconnect | NotYet

  function Leaves(rounds: seq<Round>): Leaving {
    if rounds == [] then NotYet
    else match rounds[0].event
      case Done => ShutDown
      case ConnClosed => Reconnect
      case Again => Leaves(rounds[1..])
  }

  /** Whether the supervisor has come to its end. */
  predicate ShutsDown(dials: seq<Dial>) {
    && dials != []
    && match dials[0]
       case Fails(done) => done || ShutsDown(dials[1..])
       case Connects(rounds) => Leaves(rounds).ShutDown? || (Leaves(rounds).Reconnect? && ShutsDown(dials[1..]))
  }

  class AmqpClient {
    var isReady: bool
    var connection: Option<nat>
    var channel: Option<nat>
    var notifyConnClose: Option<nat>
    var notifyChanClose: Option<nat>
    var notifyConfirm: Option<nat>
    var lib: Library
    ghost var doing: Activity
    ghost var seen: seq<Snapshot>

    ghost function Now(): Snapshot
      reads this
    {
      Snapshot(doing, View(isReady, connection, channel, notifyConnClose, notifyChanClose, notifyConfirm), lib)
    }

    /** Every moment so far was good, and the present is the last of them. */
    ghost predicate Valid()
      reads this
    {
      && AllGood(seen) && seen != [] && seen[|seen| - 1] == Now()
      && forall l | l in lib.listeners :: l < lib.made
    }

    /** NewAmqpClient, before its goroutine runs. */
    constructor ()
      ensures Valid() && doing == Starting && !isReady
    {
      isReady, connection, channel := false, None, None;
      notifyConnClose, notifyChanClose, notifyConfirm := None, None, None;
      lib := Library(0, [], map[], 0);
      doing := Starting;
      seen := [Snapshot(Starting, View(false, None, None, None, None, None), Library(0, [], map[], 0))];
    }

    /** The moment is recorded. */
    ghost method Note()
      requires AllGood(seen) && seen != [] && Good(Now()) && Steady(seen[|seen| - 1], Now())
      requires forall l | l in lib.listeners :: l < lib.made
      modifies `seen
      ensures Valid() && Extends(old(seen), seen, if isReady && !old(seen)[|old(seen)| - 1].view.isReady then 1 else 0)
      ensures seen == old(seen) + [Now()]
    {
      assert AllGood(seen + [Now()]) by {
        hide Good, Steady;
      }
      OneMoreMoment(seen, Now());
      seen := seen + [Now()];
    }

    /** A write of isReady under the client's lock; with it the supervisor turns to `next`. */
    method SetReady(ready: bool, ghost next: Activity)
      requires Valid() && Follows(doing, next) && next != Ended
      requires ready == (next == Watching) && (ready ==> Usable(Now().view, lib))
      modifies `isReady, `doing, `seen
      ensures Valid() && Extends(old(seen), seen, if ready && !old(isReady) then 1 else 0) && doing == next && isReady == ready
    {
      isReady := ready;
      doing := next;
      Note();
    }

    ghost method Turn(next: Activity)
      requires Valid() && Follows(doing, next) && ((!isReady && next != Watching) || next == Ended)
      modifies `doing, `seen
      ensures Valid() && Extends(old(seen), seen, 0) && doing == next && seen == old(seen) + [Now()]
    {
      doing := next;
      Note();
    }

    /** changeConnection. */
    method ChangeConnection(conn: nat)
      requires Valid() && doing == Dialing
      modifies `connection, `notifyConnClose, `lib, `seen
      ensures Valid() && Extends(old(seen), seen, 0) && ListensTo(conn)
      ensures lib.conns == old(lib.conns) && lib.chans == old(lib.chans)
    {
      connection := Some(conn);
      Note();
      var l := lib.made;
      lib := lib.(made := lib.made + 1);
      notifyConnClose := Some(l);
      Note();
      lib := lib.(listeners := lib.listeners[l := Closing(conn)]);
      Note();
    }

    /** changeChannel. */
    method ChangeChannel(chan: nat)
      requires Valid() && doing == Initialising && !isReady && connection.Some? && ListensTo(connection.value)
      requires chan < |lib.chans| && lib.chans[chan] == Facts(connection.value, true, false, true)
      modifies `channel, `notifyChanClose, `notifyConfirm, `lib, `seen
      ensures Valid() && Extends(old(seen), seen, 0) && Usable(Now().view, lib) && channel == Some(chan)
      ensures lib.conns == old(lib.conns) && lib.chans == old(lib.chans) && ListensTo(connection.value)
    {
      hide AllGood, Good, Steady, Begins;
      SetChannel(chan);
      Register(notifyChanClose.value, ChannelClosing(chan));
      Register(notifyConfirm.value, Confirming(chan));
    }

    /** The three fields of a channel, with new listeners. */
    method SetChannel(chan: nat)
      requires Valid() && doing == Initialising && !isReady
      modifies `channel, `notifyChanClose, `notifyConfirm, `lib, `seen
      ensures Valid() && Extends(old(seen), seen, 0) && channel == Some(chan)
      ensures notifyChanClose == Some(old(lib.made)) && notifyConfirm == Some(old(lib.made) + 1)
      ensures lib == old(lib).(made := old(lib.made) + 2)
    {
      hide AllGood, Good, Steady, Begins;
      channel := Some(chan);
      NoteChannel();
      var close := lib.made;
      lib := lib.(made := lib.made + 1);
      notifyChanClose := Some(close);
      NoteChannel();
      var confirm := lib.made;
      lib := lib.(made := lib.made + 1);
      notifyConfirm := Some(confirm);
      NoteChannel();
    }

    /** NotifyClose and NotifyPublish of the library. */
    method Register(l: nat, source: Source)
      requires Valid() && doing == Initialising && !isReady && l < lib.made
      modifies `lib, `seen
      ensures Valid() && Extends(old(seen), seen, 0) && lib == old(lib).(listeners := old(lib.listeners)[l := source])
    {
      hide AllGood, Good, Steady, Begins;
      lib := lib.(listeners := lib.listeners[l := source]);
      NoteChannel();
    }

    /** The moment is recorded while the client initialises. */
    ghost method NoteChannel()
      requires AllGood(seen) && seen != [] && doing == Initialising && !isReady
      requires forall l | l in lib.listeners :: l < lib.made
      requires var last := seen[|seen| - 1];
               last.doing == Initialising && last.view.connection == connection && last.view.notifyConnClose == notifyConnClose
      modifies `seen
      ensures Valid() && Extends(old(seen), seen, 0)
    {
      Note();
    }

    /** The close listener is that of the connection held. */
    ghost predicate ListensTo(conn: nat)
      reads this
    {
      && connection == Some(conn) && notifyConnClose.Some? && notifyConnClose.value in lib.listeners
      && lib.listeners[notifyConnClose.value] == Closing(conn)
    }

    /** conn.Channel, when it succeeds. */
    method OpenChannel(conn: nat) returns (chan: nat)
      requires Valid() && doing == Initialising
      modifies `lib, `seen
      ensures Valid() && Extends(old(seen), seen, 0) && (old(ListensTo(conn)) ==> ListensTo(conn))
      ensures chan == |old(lib.chans)| && lib.chans == old(lib.chans) + [Facts(conn, false, false, false)]
    {
      chan := |lib.chans|;
      lib := lib.(chans := lib.chans + [Facts(conn, false, false, false)]);
      Note();
    }

    /** The broker has answered a request on a channel. */
    method Learn(conn: nat, chan: nat, facts: Facts)
      requires Valid() && doing == Initialising && chan < |lib.chans|
      modifies `lib, `seen
      ensures Valid() && Extends(old(seen), seen, 0) && (old(ListensTo(conn)) ==> ListensTo(conn))
      ensures lib.chans == old(lib.chans)[chan := facts]
    {
      lib := lib.(chans := lib.chans[chan := facts]);
      Note();
    }

    /** init: it succeeds exactly when the broker lets it, and then the client is ready to use
        the channel opened last; otherwise the fields have not been touched. */
    method Init(conn: nat, a: Answers) returns (ok: bool)
      requires Valid() && doing == Initialising && !isReady && ListensTo(conn)
      modifies this
      ensures Valid() && Extends(old(seen), seen, if ok then 1 else 0) && ListensTo(conn)
      ensures ok <==> Succeeds(a)
      ensures ok ==> isReady && doing == Watching && channel == Some(|lib.chans| - 1)
      ensures !ok ==> doing == Initialising && Now().view == old(Now().view)
    {
      hide AllGood, Good, Steady, Begins, Usable;
      var ch;
      ok, ch := PrepareChannel(conn, a);
      if !ok {
        return;
      }
      ChangeChannel(ch);
      SetReady(true, Watching);
    }

    /** The part of init that only talks to the broker. */
    method PrepareChannel(conn: nat, a: Answers) returns (ok: bool, ch: nat)
      requires Valid() && doing == Initialising && !isReady && ListensTo(conn)
      modifies `lib, `seen
      ensures Valid() && Extends(old(seen), seen, 0) && ListensTo(conn)
      ensures ok <==> Succeeds(a)
      ensures ok ==> lib.chans != [] && ch == |lib.chans| - 1 && lib.chans[ch] == Facts(conn, true, false, true)
    {
      hide AllGood, Good, Steady, Begins;
      ok, ch := false, 0;
      if !a.opens {
        return;
      }
      ch := OpenChannel(conn);
      if !a.confirms {
        return;
      }
      Learn(conn, ch, lib.chans[ch].(confirm := true));
      ok, ch := FindQueue(conn, ch, a);
    }

    /** The passive declare on the channel `first`, and what follows when it fails. */
    method FindQueue(conn: nat, first: nat, a: Answers) returns (ok: bool, ch: nat)
      requires Valid() && doing == Initialising && !isReady && ListensTo(conn)
      requires lib.chans != [] && first == |lib.chans| - 1 && lib.chans[first] == Facts(conn, true, false, false)
      modifies `lib, `seen
      ensures Valid() && Extends(old(seen), seen, 0) && ListensTo(conn)
      ensures ok <==> a.found || (a.reopens && a.reconfirms && a.declares)
      ensures ok ==> lib.chans != [] && ch == |lib.chans| - 1 && lib.chans[ch] == Facts(conn, true, false, true)
    {
      if a.found {
        Learn(conn, first, lib.chans[first].(declared := true));
        return true, first;
      }
      Learn(conn, first, lib.chans[first].(passiveFailed := true));
      ok, ch := DeclareOnFreshChannel(conn, a);
    }

    /** The broker closes a channel on which a passive declare fails: another one is needed. */
    method DeclareOnFreshChannel(conn: nat, a: Answers) returns (ok: bool, ch: nat)
      requires Valid() && doing == Initialising && !isReady && ListensTo(conn)
      modifies `lib, `seen
      ensures Valid() && Extends(old(seen), seen, 0) && ListensTo(conn)
      ensures ok <==> a.reopens && a.reconfirms && a.declares
      ensures ok ==> lib.chans != [] && ch == |lib.chans| - 1 && lib.chans[ch] == Facts(conn, true, false, true)
    {
      ok, ch := false, 0;
      if !a.reopens {
        return;
      }
      ch := OpenChannel(conn);
      if !a.reconfirms {
        return;
      }
      Learn(conn, ch, lib.chans[ch].(confirm := true));
      if !a.declares {
        return;
      }
      Learn(conn, ch, lib.chans[ch].(declared := true));
      ok := true;
    }

    /** handleReInit, on a new connection. */
    method HandleReInit(conn: nat, rounds: seq<Round>) returns (leaving: Leaving)
      requires Valid() && doing == Dialing && !isReady && ListensTo(conn)
      modifies this
      ensures Valid() && Extends(old(seen), seen, Successes(rounds)) && leaving == Leaves(rounds)
      ensures leaving.ShutDown? ==> doing == Ended && |old(seen)| < |seen| - 1
                                    && seen[|seen| - 2].doing == WaitsAfter(LastRound(rounds).answers)
      ensures leaving.Reconnect? ==> doing == WaitsAfter(LastRound(rounds).answers)
      ensures leaving.NotYet? ==> doing == Initialising
    {
      hide AllGood, Good, Leaves, Begins, LastRound, Successes, Steady;
      assert rounds[0..] == rounds;
      SetReady(false, Initialising);
      ghost var begun: nat := 0;
      for i := 0 to |rounds|
        invariant Valid() && Extends(old(seen), seen, begun) && doing == Initialising && !isReady && ListensTo(conn)
        invariant Leaves(rounds) == Leaves(rounds[i..]) && Successes(rounds) == begun + Successes(rounds[i..])
        invariant !Leaves(rounds).NotYet? ==> LastRound(rounds) == LastRound(rounds[i..])
      {
        LeavesNext(rounds, i);
        Attend(conn, rounds[i].answers);
        begun := begun + if Succeeds(rounds[i].answers) then 1 else 0;
        match rounds[i].event {
          case Done =>
            Turn(Ended);
            return ShutDown;
          case ConnClosed =>
            return Reconnect;
          case Again =>
        }
        SetReady(false, Initialising);
      }
      LeavesNext(rounds, |rounds|);
      leaving := NotYet;
    }

    /** init, up to the wait that follows it. */
    method Attend(conn: nat, a: Answers)
      requires Valid() && doing == Initialising && !isReady && ListensTo(conn)
      modifies this
      ensures Valid() && Extends(old(seen), seen, if Succeeds(a) then 1 else 0) && ListensTo(conn)
      ensures doing == WaitsAfter(a)
      ensures |old(seen)| < |seen|
    {
      hide AllGood, Good, Steady, Begins;
      var ok := Init(conn, a);
      if !ok {
        Turn(AwaitingReInit);
      }
    }

    /** connect, when the dial succeeds. */
    method Connect() returns (conn: nat)
      requires Valid() && doing == Dialing && !isReady
      modifies this
      ensures Valid() && Extends(old(seen), seen, 0) && doing == Dialing && !isReady && ListensTo(conn)
      ensures conn == old(lib.conns) && lib.conns == conn + 1
    {
      conn := lib.conns;
      lib := lib.(conns := conn + 1);
      Note();
      ChangeConnection(conn);
    }

    /** handleReconnect. */
    method HandleReconnect(dials: seq<Dial>) returns (ended: bool)
      requires Valid() && doing == Starting
      modifies this
      ensures Valid() && Extends(old(seen), seen, DialSuccesses(dials)) && ended == ShutsDown(dials)
      ensures ended ==> doing == Ended
    {
      hide AllGood, Good, Steady, Begins, Leaves, ShutsDown, Successes, DialSuccesses;
      assert dials[0..] == dials;
      ghost var begun: nat := 0;
      var i := 0;
      while i < |dials|
        invariant 0 <= i <= |dials|
        invariant Valid() && Extends(old(seen), seen, begun) && Follows(doing, Dialing)
        invariant ShutsDown(dials) == ShutsDown(dials[i..]) && DialSuccesses(dials) == begun + DialSuccesses(dials[i..])
      {
        ShutsDownNext(dials, i);
        SetReady(false, Dialing);
        match dials[i] {
          case Fails(done) =>
            Turn(AwaitingRedial);
            if done {
              Turn(Ended);
              return true;
            }
          case Connects(rounds) =>
            var conn := Connect();
            var leaving := HandleReInit(conn, rounds);
            begun := begun + Successes(rounds);
            if leaving != Reconnect {
              return leaving == ShutDown;
            }
        }
        i := i + 1;
      }
      ShutsDownNext(dials, |dials|);
      ended := false;
    }
  }

  /** How often readiness has begun. */
  ghost function Begins(seen: seq<Snapshot>): nat {
    if seen == [] then 0
    else
      var n := |seen| - 1;
      Begins(seen[..n]) + if seen[n].view.isReady && !(n > 0 && seen[n - 1].view.isReady) then 1 else 0
  }

  /** More moments, in which readiness has begun `n` times. */
  ghost predicate Extends(seen: seq<Snapshot>, seen': seq<Snapshot>, n: nat) {
    seen <= seen' && Begins(seen') == Begins(seen) + n
  }

  lemma OneMoreMoment(seen: seq<Snapshot>, now: Snapshot)
    requires seen != []
    ensures Extends(seen, seen + [now], if now.view.isReady && !seen[|seen| - 1].view.isReady then 1 else 0)
  {
    assert (seen + [now])[..|seen|] == seen;
  }

  lemma ExtendsOn(a: seq<Snapshot>, b: seq<Snapshot>, c: seq<Snapshot>, m: nat, n: nat)
    requires Extends(a, b, m) && Extends(b, c, n)
    ensures Extends(a, c, m + n)
  {
  }

  /** Readiness has begun among the later moments exactly when there is a ready one among them. */
  lemma {:induction false} BeginsIffReady(seen: seq<Snapshot>, seen': seq<Snapshot>, n: nat)
    requires Extends(seen, seen', n) && seen != [] && !seen[|seen| - 1].view.isReady
    ensures n > 0 <==> exists i | |seen| <= i < |seen'| :: seen'[i].view.isReady
  {
    if |seen| < |seen'| {
      var last := |seen'| - 1;
      var m := n - if seen'[last].view.isReady && !seen'[last - 1].view.isReady then 1 else 0;
      BeginsGrow(seen, seen'[..last]);
      BeginsIffReady(seen, seen'[..last], m);
      assert seen'[last].view.isReady && seen'[last - 1].view.isReady ==> last - 1 >= |seen|;
    } else {
      assert seen' == seen;
    }
  }

  lemma {:induction false} BeginsGrow(seen: seq<Snapshot>, seen': seq<Snapshot>)
    requires seen <= seen'
    ensures Begins(seen) <= Begins(seen')
  {
    if |seen| < |seen'| {
      BeginsGrow(seen, seen'[..|seen'| - 1]);
    } else {
      assert seen' == seen;
    }
  }

  // ---------- which rounds are gone through ----------

  /** How many of the rounds gone through succeed. */
  function Successes(rounds: seq<Round>): nat {
    if rounds == [] then 0
    else (if Succeeds(rounds[0].answers) then 1 else 0) + if rounds[0].event.Again? then Successes(rounds[1..]) else 0
  }

  function DialSuccesses(dials: seq<Dial>): nat {
    if dials == [] then 0
    else
      match dials[0]
      case Fails(done) => if done then 0 else DialSuccesses(dials[1..])
      case Connects(rounds) => Successes(rounds) + if Leaves(rounds).Reconnect? then DialSuccesses(dials[1..]) else 0
  }

  /** The round in which the wait is left. */
  function LastRound(rounds: seq<Round>): Round
    requires !Leaves(rounds).NotYet?
  {
    if rounds[0].event.Again? then LastRound(rounds[1..]) else rounds[0]
  }

  /** A round is gone through when all rounds before it only went round again. */
  ghost predicate Reached(rounds: seq<Round>, k: nat) {
    k < |rounds| && forall j | 0 <= j < k :: rounds[j].event.Again?
  }

  /** A dial is made when all dials before it failed without the end or were left for a new one. */
  ghost predicate Dialed(dials: seq<Dial>, d: nat) {
    && d < |dials|
    && forall e | 0 <= e < d ::
         match dials[e] { case Fails(done) => !done case Connects(rounds) => Leaves(rounds).Reconnect? }
  }

  lemma {:induction false} SuccessIsReached(rounds: seq<Round>)
    ensures Successes(rounds) > 0 <==> exists k: nat :: Reached(rounds, k) && Succeeds(rounds[k].answers)
  {
    if rounds != [] {
      SuccessIsReached(rounds[1..]);
      if Succeeds(rounds[0].answers) {
        assert Reached(rounds, 0);
      } else if rounds[0].event.Again? {
        if Successes(rounds) > 0 {
          var k: nat :| Reached(rounds[1..], k) && Succeeds(rounds[1..][k].answers);
          assert Reached(rounds, k + 1);
        }
        if k: nat :| Reached(rounds, k) && Succeeds(rounds[k].answers) {
          assert Reached(rounds[1..], k - 1);
        }
      }
    }
  }

  /** A round of a dial that is made is gone through and succeeds. */
  ghost predicate SucceedsAt(dials: seq<Dial>, d: nat, k: nat) {
    Dialed(dials, d) && dials[d].Connects? && Reached(dials[d].rounds, k) && Succeeds(dials[d].rounds[k].answers)
  }

  lemma {:induction false} DialSuccessIsReached(dials: seq<Dial>)
    ensures DialSuccesses(dials) > 0 <==> exists d: nat, k: nat :: SucceedsAt(dials, d, k)
  {
    if dials != [] {
      hide Successes, Reached, Leaves;
      DialSuccessIsReached(dials[1..]);
      if dials[0].Connects? { SuccessIsReached(dials[0].rounds); }
      if DialSuccesses(dials) > 0 {
        if dials[0].Connects? && Successes(dials[0].rounds) > 0 {
          var k: nat :| Reached(dials[0].rounds, k) && Succeeds(dials[0].rounds[k].answers);
          assert SucceedsAt(dials, 0, k);
        } else {
          var d: nat, k: nat :| SucceedsAt(dials[1..], d, k);
          assert SucceedsAt(dials, d + 1, k);
        }
      }
      if d: nat, k: nat :| SucceedsAt(dials, d, k) {
        if d > 0 { assert SucceedsAt(dials[1..], d - 1, k); }
      }
    }
  }

  lemma LeavesNext(rounds: seq<Round>, i: nat)
    requires i <= |rounds|
    ensures i == |rounds| ==> Leaves(rounds[i..]).NotYet?
    ensures i < |rounds| ==> Leaves(rounds[i..]) == match rounds[i].event
                               case Done => ShutDown
                               case ConnClosed => Reconnect
                               case Again => Leaves(rounds[i + 1..])
    ensures Successes(rounds[i..]) == if i == |rounds| then 0
                                      else (if Succeeds(rounds[i].answers) then 1 else 0)
                                           + if rounds[i].event.Again? then Successes(rounds[i + 1..]) else 0
    ensures !Leaves(rounds[i..]).NotYet? ==>
              LastRound(rounds[i..]) == if rounds[i].event.Again? then LastRound(rounds[i + 1..]) else rounds[i]
  {
    if i < |rounds| {
      assert rounds[i..][1..] == rounds[i + 1..];
    }
  }

  lemma ShutsDownNext(dials: seq<Dial>, i: nat)
    requires i <= |dials|
    ensures i == |dials| ==> !ShutsDown(dials[i..])
    ensures i < |dials| ==> (ShutsDown(dials[i..]) <==>
              match dials[i]
              case Fails(done) => done || ShutsDown(dials[i + 1..])
              case Connects(rounds) => Leaves(rounds).ShutDown? || (Leaves(rounds).Reconnect? && ShutsDown(dials[i + 1..])))
    ensures DialSuccesses(dials[i..]) ==
            if i == |dials| then 0
            else match dials[i]
                 case Fails(done) => if done then 0 else DialSuccesses(dials[i + 1..])
                 case Connects(rounds) =>
                   Successes(rounds) + if Leaves(rounds).Reconnect? then DialSuccesses(dials[i + 1..]) else 0
  {
    if i < |dials| {
      assert dials[i..][1..] == dials[i + 1..];
    }
  }

  /** What HandleReconnect promises of its moments: the client is ready at some of them exactly when
      some round that is gone through succeeds, and at each of these moments it can be used. */
  lemma ReadyIffARoundSucceeds(seen: seq<Snapshot>, seen': seq<Snapshot>, dials: seq<Dial>)
    requires Extends(seen, seen', DialSuccesses(dials)) && AllGood(seen')
    requires seen != [] && !seen[|seen| - 1].view.isReady
    ensures (exists i | |seen| <= i < |seen'| :: seen'[i].view.isReady) <==> exists d: nat, k: nat :: SucceedsAt(dials, d, k)
    ensures forall i | 0 <= i < |seen'| && seen'[i].view.isReady :: Usable(seen'[i].view, seen'[i].lib)
  {
    BeginsIffReady(seen, seen', DialSuccesses(dials));
    DialSuccessIsReached(dials);
    assert forall i | 0 <= i < |seen'| :: Good(seen'[i]);
  }
}
