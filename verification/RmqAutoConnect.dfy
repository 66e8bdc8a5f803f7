/**
 The RabbitMQ connection that reconnects by itself (rmq-autoconnect.go): what it dials and opens,
 and how often that is closed.  The reconnect loop runs beside users who declare queues; both hold
 the mutex while they change the fields, and users come in whenever it is free.
 */
module RmqAutoConnect {
  import opened Wrappers
  import opened Counting

  /** A channel by the connection that it was opened on, and how often Close was called on it. */
  datatype Chan = Chan(conn: nat, closes: nat)

  /** All that was ever dialed and opened, with the calls of Close; the queues that were declared
      on channels, in order. */
  datatype Ledger = Ledger(conns: seq<nat>, chans: seq<Chan>, declared: seq<(nat, string)>)

  /** The fields of the object, and what is not yet or no longer in a field but in the hands of connect. */
  datatype Holding = Holding(conn: Option<nat>, ch: Option<nat>, newConn: Option<nat>, newCh: Option<nat>)

  /** Nothing is closed twice, and what is not closed is held. */
  ghost predicate Tidy(l: Ledger, h: Holding) {
    && (forall c | 0 <= c < |l.conns| :: l.conns[c] <= 1 && (l.conns[c] == 0 ==> h.conn == Some(c) || h.newConn == Some(c)))
    && (forall k | 0 <= k < |l.chans| ::
          l.chans[k].closes <= 1 && (l.chans[k].closes == 0 ==> h.ch == Some(k) || h.newCh == Some(k)))
    && (h.ch.Some? ==> h.ch.value < |l.chans| && l.chans[h.ch.value].closes == 0 && h.conn == Some(l.chans[h.ch.value].conn))
    && (h.conn.Some? ==> h.conn.value < |l.conns|)
  }

  /** Everything is closed, once. */
  ghost predicate AllClosed(l: Ledger) {
    (forall c | 0 <= c < |l.conns| :: l.conns[c] == 1) && (forall k | 0 <= k < |l.chans| :: l.chans[k].closes == 1)
  }

  datatype Moment = Moment(ledger: Ledger, holding: Holding)

  ghost predicate AllTidy(seen: seq<Moment>) {
    forall i | 0 <= i < |seen| :: Tidy(seen[i].ledger, seen[i].holding)
  }

  /** Nothing that was closed opens again, and nothing disappears. */
  ghost predicate Continues(l: Ledger, l': Ledger) {
    && |l.conns| <= |l'.conns| && (forall c | 0 <= c < |l.conns| :: l.conns[c] <= l'.conns[c])
    && |l.chans| <= |l'.chans|
    && (forall k | 0 <= k < |l.chans| ::
          l.chans[k].closes <= l'.chans[k].closes && l.chans[k].conn == l'.chans[k].conn)
    && l.declared <= l'.declared
  }

  /** A call of DeclareQueues by a user, and which of its queues the broker accepts. */
  datatype UserCall = UserCall(queues: seq<string>, accepts: nat -> bool)

  /** How many of the queues are declared: all of them, or those up to the first refusal. */
  function Attempts(queues: seq<string>, accepts: nat -> bool, i: nat): (n: nat)
    requires i <= |queues|
    ensures i <= n <= |queues|
    decreases |queues| - i
  {
    if i == |queues| then i else if !accepts(i) then i + 1 else Attempts(queues, accepts, i + 1)
  }

  lemma OneMoreAttempt(queues: seq<string>, accepts: nat -> bool, i: nat)
    requires i < |queues|
    ensures Attempts(queues, accepts, i) == if accepts(i) then Attempts(queues, accepts, i + 1) else i + 1
  {
  }

  /** That is: none before the last attempt is refused, and short of all of them the last one is. */
  lemma {:induction false} AttemptsStopAtTheFirstRefusal(queues: seq<string>, accepts: nat -> bool, i: nat)
    requires i <= |queues|
    ensures var n := Attempts(queues, accepts, i);
            && (forall k: nat | i <= k < n - 1 :: accepts(k))
            && (n < |queues| ==> i < n && !accepts(n - 1))
    decreases |queues| - i
  {
    if i < |queues| && accepts(i) {
      AttemptsStopAtTheFirstRefusal(queues, accepts, i + 1);
    }
  }

  /** The queues that are declared, in order. */
  function Tried(queues: seq<string>, accepts: nat -> bool): seq<string> { queues[..Attempts(queues, accepts, 0)] }

  function OnChannel(ch: nat, queues: seq<string>): seq<(nat, string)> {
    seq(|queues|, i requires 0 <= i < |queues| => (ch, queues[i]))
  }

  // ---------- how long connect waits ----------

  const MAX_TRIAL_SECOND := 3
  const MAX_TRIAL_MINUTE := 7

  /** The delay after the failure of a trial, in seconds. */
  function Delay(trial: nat): nat {
    if trial <= MAX_TRIAL_SECOND then 30 else if trial <= MAX_TRIAL_MINUTE then 600 else 3600
  }

  function Between(lo: nat, x: nat, hi: nat): nat
    requires lo <= hi
  {
    if x < lo then 0 else if x < hi then x - lo else hi - lo
  }

  /** All delays of a number of failures: three of half a minute, four of ten, then hours. */
  function Waited(failures: nat): nat {
    30 * Between(0, failures, 3) + 600 * Between(3, failures, 7) + 3600 * (if failures < 7 then 0 else failures - 7)
  }

  /** How connect fares: the dials that fail before one succeeds, whether the channel opens, and
      the users who come in while the mutex is free. */
  datatype Attempt = Attempt(failures: nat, opens: bool, users: nat -> seq<UserCall>) {
    ghost predicate NoUsers() { forall i: nat :: users(i) == [] }
  }

  /** What follows when the connection closes: the users that come in before, the new connection,
      those between the look at the list and its declaration, what the broker accepts of it, and
      those after. */
  datatype Recovery = Recovery(before: seq<UserCall>, attempt: Attempt, between: seq<UserCall>,
                               accepts: nat -> bool, after: seq<UserCall>) {
    ghost predicate NoUsers() { before == [] && attempt.NoUsers() && between == [] && after == [] }
  }

  /** One turn of the reconnect loop: it sees that it is cancelled, or that the connection has
      closed, or nothing. */
  datatype Turn = Cancelled | Closes(recovery: Recovery) | Nothing(users: seq<UserCall>)

  /** What some turns of the loop come to: whether a connection is held, and how many were dialed. */
  datatype Progress = Progress(held: bool, dials: nat)

  /** A turn: while a connection is held its close is followed by one more dial, which leads to a
      connection exactly when the channel opens on it; after that has failed the loop only polls. */
  function AfterTurn(p: Progress, t: Turn): Progress {
    if t.Closes? && p.held then Progress(t.recovery.attempt.opens, p.dials + 1) else p
  }

  /** The turns up to the one in which the loop sees that it is cancelled. */
  ghost function AfterTurns(turns: seq<Turn>, held: bool): Progress {
    if turns == [] then Progress(held, 0)
    else
      var n := |turns| - 1;
      var before := AfterTurns(turns[..n], held);
      if Cancelled in turns[..n] then before else AfterTurn(before, turns[n])
  }

  /** The loop dials as often as a connection that it holds closes before it is cancelled. */
  lemma {:induction false} DialsPerClose(turns: seq<Turn>)
    requires Cancelled !in turns && forall t | t in turns && t.Closes? :: t.recovery.attempt.opens
    ensures AfterTurns(turns, true) == Progress(true, Count(turns, (t: Turn) => t.Closes?))
  {
    if turns != [] {
      DialsPerClose(turns[..|turns| - 1]);
    }
  }

  lemma {:induction false} NothingAfterCancelled(turns: seq<Turn>, i: nat, held: bool)
    requires i < |turns| && turns[i].Cancelled? && Cancelled !in turns[..i]
    ensures AfterTurns(turns, held) == AfterTurns(turns[..i], held)
  {
    var n := |turns| - 1;
    if i < n {
      assert turns[..n][..i] == turns[..i] && turns[..n][i] in turns[..n];
      NothingAfterCancelled(turns[..n], i, held);
    } else {
      assert turns[..n] == turns[..i];
    }
  }

  lemma OneMoreTurn(turns: seq<Turn>, i: nat, held: bool)
    requires i < |turns| && Cancelled !in turns[..i]
    ensures AfterTurns(turns[..i + 1], held) == AfterTurn(AfterTurns(turns[..i], held), turns[i])
  {
    assert turns[..i + 1][..i] == turns[..i];
  }

  class RMqAutoConnect {
    var conn: Option<nat>
    var ch: Option<nat>
    var declaredQueues: seq<string>
    var ledger: Ledger
    ghost var newConn: Option<nat>
    ghost var newCh: Option<nat>
    ghost var seen: seq<Moment>

    ghost function Now(): Moment
      reads this
    {
      Moment(ledger, Holding(conn, ch, newConn, newCh))
    }

    /** Every moment so far was tidy, and the present is the last of them. */
    ghost predicate Valid()
      reads this
    {
      AllTidy(seen) && seen != [] && seen[|seen| - 1] == Now()
    }

    /** Outside of connect. */
    ghost predicate Settled()
      reads this
    {
      Valid() && newConn.None? && newCh.None?
    }

    constructor ()
      ensures Settled() && conn.None? && ch.None? && declaredQueues == [] && ledger == Ledger([], [], [])
    {
      conn, ch, declaredQueues, ledger := None, None, [], Ledger([], [], []);
      newConn, newCh := None, None;
      seen := [Moment(Ledger([], [], []), Holding(None, None, None, None))];
    }

    ghost method Note()
      requires AllTidy(seen) && seen != [] && Tidy(Now().ledger, Now().holding)
      modifies `seen
      ensures Valid() && old(seen) <= seen
    {
      seen := seen + [Now()];
    }

    method CloseChannel(k: nat)
      requires k < |ledger.chans|
      modifies `ledger
      ensures var ch := old(ledger).chans[k];
              ledger == old(ledger).(chans := old(ledger).chans[k := ch.(closes := ch.closes + 1)])
    {
      ledger := ledger.(chans := ledger.chans[k := ledger.chans[k].(closes := ledger.chans[k].closes + 1)]);
    }

    method CloseConnection(c: nat)
      requires c < |ledger.conns|
      modifies `ledger
      ensures ledger == old(ledger).(conns := old(ledger).conns[c := old(ledger).conns[c] + 1])
    {
      ledger := ledger.(conns := ledger.conns[c := ledger.conns[c] + 1]);
    }

    /** resetLocked, under the mutex, when the connection held has not been closed. */
    method ResetLocked()
      requires Settled() && (conn.Some? ==> ledger.conns[conn.value] == 0)
      modifies this
      ensures Settled() && Continues(old(ledger), ledger) && old(seen) <= seen
      ensures conn.None? && ch.None? && AllClosed(ledger) && |ledger.conns| == |old(ledger.conns)|
      ensures declaredQueues == old(declaredQueues) && ledger.declared == old(ledger.declared)
    {
      if ch.Some? {
        CloseChannel(ch.value);
      }
      if conn.Some? {
        CloseConnection(conn.value);
      }
      ch := None;
      conn := None;
      Note();
    }

    /** DeclareQueues, which holds the mutex throughout: the list is remembered, and declared in
        order on the channel up to the first refusal. */
    method DeclareQueues(queues: seq<string>, accepts: nat -> bool) returns (ok: bool)
      requires Valid()
      modifies `declaredQueues, `ledger, `seen
      ensures Valid() && old(seen) <= seen && declaredQueues == queues
      ensures ledger.conns == old(ledger.conns) && ledger.chans == old(ledger.chans)
      ensures ledger.declared == old(ledger.declared) +
                if ch.None? then [] else OnChannel(ch.value, Tried(queues, accepts))
      ensures ok <==> ch.Some? && forall k: nat | k < |queues| :: accepts(k)
    {
      hide AllTidy, Tidy, OnChannel, Attempts;
      declaredQueues := queues;
      if ch.None? {
        return false;
      }
      assert OnChannel(ch.value, queues[..0]) == [] by { NoneDeclared(ch.value, queues); }
      for i := 0 to |queues|
        invariant Valid() && old(seen) <= seen && declaredQueues == queues
        invariant ledger.conns == old(ledger.conns) && ledger.chans == old(ledger.chans)
        invariant ledger.declared == old(ledger.declared) + OnChannel(ch.value, queues[..i])
        invariant forall k: nat | k < i :: accepts(k)
        invariant Attempts(queues, accepts, 0) == Attempts(queues, accepts, i)
      {
        OneMoreDeclared(ch.value, queues, i);
        OneMoreAttempt(queues, accepts, i);
        DeclareOne(ch.value, queues[i]);
        if !accepts(i) {
          return false;
        }
      }
      ok := true;
    }

    method DeclareOne(k: nat, queue: string)
      requires Valid()
      modifies `ledger, `seen
      ensures Valid() && old(seen) <= seen
      ensures ledger == old(ledger).(declared := old(ledger.declared) + [(k, queue)])
    {
      ledger := ledger.(declared := ledger.declared + [(k, queue)]);
      Note();
    }

    /** Users come in while the mutex is free. */
    method LetUsersIn(users: seq<UserCall>)
      requires Valid()
      modifies `declaredQueues, `ledger, `seen
      ensures Valid() && old(seen) <= seen && declaredQueues == Wanted(old(declaredQueues), users)
      ensures ledger.conns == old(ledger.conns) && ledger.chans == old(ledger.chans) && old(ledger.declared) <= ledger.declared
      ensures users == [] ==> ledger == old(ledger) && declaredQueues == old(declaredQueues)
    {
      for i := 0 to |users|
        invariant Valid() && old(seen) <= seen
        invariant declaredQueues == Wanted(old(declaredQueues), users[..i])
        invariant ledger.conns == old(ledger.conns) && ledger.chans == old(ledger.chans)
        invariant old(ledger.declared) <= ledger.declared
        invariant i == 0 ==> ledger == old(ledger)
      {
        hide AllTidy, OnChannel, Attempts;
        var _ := DeclareQueues(users[i].queues, users[i].accepts);
        assert users[..i + 1][i] == users[i];
      }
      assert users[..|users|] == users;
    }

    /** connect, with nothing held. */
    method Connect(a: Attempt) returns (ok: bool, waited: nat)
      requires Settled() && conn.None? && ch.None? && AllClosed(ledger)
      modifies this
      ensures Settled() && Continues(old(ledger), ledger) && old(seen) <= seen
      ensures ok == a.opens && waited == Waited(a.failures)
      ensures a.NoUsers() ==> declaredQueues == old(declaredQueues) && ledger.declared == old(ledger.declared)
      ensures |ledger.conns| == |old(ledger.conns)| + 1
      ensures ok ==> conn == Some(|ledger.conns| - 1) && ledger.conns[|ledger.conns| - 1] == 0 && ch.Some?
      ensures !ok ==> conn.None? && ch.None? && AllClosed(ledger) && |ledger.chans| == |old(ledger.chans)|
    {
      hide AllTidy, Tidy, AllClosed, Continues;
      waited := 0;
      for trial := 1 to a.failures + 1
        invariant Settled() && conn.None? && ch.None? && AllClosed(ledger) && seen == old(seen) && ledger == old(ledger)
        invariant waited == Waited(trial - 1)
      {
        waited := waited + Delay(trial);
      }
      ok := Establish(a);
    }

    /** The rest of connect, from the dial that succeeds. */
    method Establish(a: Attempt) returns (ok: bool)
      requires Settled() && conn.None? && ch.None? && AllClosed(ledger)
      modifies this
      ensures Settled() && Continues(old(ledger), ledger) && old(seen) <= seen && ok == a.opens
      ensures a.NoUsers() ==> declaredQueues == old(declaredQueues) && ledger.declared == old(ledger.declared)
      ensures |ledger.conns| == |old(ledger.conns)| + 1
      ensures ok ==> conn == Some(|ledger.conns| - 1) && ledger.conns[|ledger.conns| - 1] == 0 && ch.Some?
      ensures !ok ==> conn.None? && ch.None? && AllClosed(ledger) && |ledger.chans| == |old(ledger.chans)|
    {
      hide AllTidy, Tidy, AllClosed, Continues, Wanted;
      ghost var l := ledger;
      var dialed := Dial();
      LetUsersIn(a.users(0));
      Hold(dialed);
      LetUsersIn(a.users(1));
      if !a.opens {
        CloseAgain(dialed);
        LetUsersIn(a.users(2));
        LetGo(dialed);
        OneMoreClosed(l, ledger);
        return false;
      }
      var chan := Open(dialed);
      LetUsersIn(a.users(2));
      HoldChannel(dialed, chan);
      OneMoreOpen(l, ledger, dialed);
      ok := true;
    }

    method CloseAgain(dialed: nat)
      requires Valid() && dialed < |ledger.conns| && ledger.conns[dialed] == 0
      requires conn == Some(dialed) && ch.None? && newConn.None? && newCh.None?
      modifies `ledger, `seen
      ensures Valid() && old(seen) <= seen && ledger == old(ledger).(conns := old(ledger.conns)[dialed := 1])
    {
      CloseConnection(dialed);
      Note();
    }

    method LetGo(dialed: nat)
      requires Valid() && conn == Some(dialed) && ch.None? && dialed < |ledger.conns| && ledger.conns[dialed] == 1
      modifies `conn, `seen
      ensures Valid() && old(seen) <= seen && conn.None?
    {
      conn := None;
      Note();
    }

    method HoldChannel(dialed: nat, chan: nat)
      requires Valid() && conn == Some(dialed) && newConn.None? && newCh == Some(chan) && ch.None?
      requires chan < |ledger.chans| && ledger.chans[chan] == Chan(dialed, 0)
      modifies `ch, `newCh, `seen
      ensures Valid() && old(seen) <= seen && ch == Some(chan) && newCh.None?
    {
      newCh := None;
      ch := Some(chan);
      Note();
    }

    method Dial() returns (dialed: nat)
      requires Settled() && conn.None? && ch.None? && AllClosed(ledger)
      modifies this
      ensures Valid() && old(seen) <= seen && newConn == Some(dialed) && newCh.None? && conn.None? && ch.None?
      ensures dialed == |old(ledger.conns)| && ledger == old(ledger).(conns := old(ledger.conns) + [0])
      ensures declaredQueues == old(declaredQueues)
    {
      dialed := |ledger.conns|;
      ledger := ledger.(conns := ledger.conns + [0]);
      newConn := Some(dialed);
      Note();
    }

    method Open(dialed: nat) returns (chan: nat)
      requires Valid() && conn == Some(dialed) && ch.None? && newConn.None? && newCh.None?
      modifies `ledger, `newCh, `seen
      ensures Valid() && old(seen) <= seen && newCh == Some(chan)
      ensures chan == |old(ledger.chans)| && ledger == old(ledger).(chans := old(ledger.chans) + [Chan(dialed, 0)])
    {
      chan := |ledger.chans|;
      ledger := ledger.(chans := ledger.chans + [Chan(dialed, 0)]);
      newCh := Some(chan);
      Note();
    }

    method Hold(dialed: nat)
      requires Valid() && newConn == Some(dialed) && conn.None? && ch.None? && dialed < |ledger.conns|
      modifies `conn, `newConn, `seen
      ensures Valid() && old(seen) <= seen && conn == Some(dialed) && newConn.None?
    {
      conn := Some(dialed);
      newConn := None;
      Note();
    }

    /** What is held is open, between the turns of the loop. */
    ghost predicate HeldIsOpen()
      reads this
      requires Valid()
    {
      conn.Some? ==> ledger.conns[conn.value] == 0
    }

    lemma NothingHeld()
      requires Settled() && conn.None?
      ensures ch.None? && AllClosed(ledger)
    {
      assert Tidy(Now().ledger, Now().holding);
    }

    /** The list is looked at without the mutex, and then declared with it.  A list that a user
        gives in between is lost. */
    method Redeclare(between: seq<UserCall>, accepts: nat -> bool) returns (ok: bool)
      requires Settled()
      modifies `declaredQueues, `ledger, `seen
      ensures Settled() && old(seen) <= seen && declaredQueues == old(declaredQueues)
      ensures ledger.conns == old(ledger.conns) && ledger.chans == old(ledger.chans) && old(ledger.declared) <= ledger.declared
      ensures declaredQueues == Wanted(old(declaredQueues), between) <==>
                between == [] || between[|between| - 1].queues == old(declaredQueues)
      ensures between == [] ==>
                ledger.declared == old(ledger.declared) + if ch.None? then [] else OnChannel(ch.value, Tried(declaredQueues, accepts))
    {
      hide AllTidy, Tidy, OnChannel, Attempts;
      var queues := declaredQueues;
      LetUsersIn(between);
      ok := DeclareQueues(queues, accepts);
    }

    /** The connection has closed. */
    method Recover(r: Recovery) returns (ok: bool)
      requires Settled() && HeldIsOpen()
      modifies this
      ensures Settled() && HeldIsOpen() && Continues(old(ledger), ledger) && old(seen) <= seen && ok == r.attempt.opens
      ensures |ledger.conns| == |old(ledger.conns)| + 1 && (conn.Some? <==> ok)
      ensures r.NoUsers() ==> declaredQueues == old(declaredQueues)
      ensures r.NoUsers() && ok ==>
                ch.Some? && ledger.declared == old(ledger.declared) + OnChannel(ch.value, Tried(declaredQueues, r.accepts))
    {
      hide AllTidy, Tidy, OnChannel, Attempts, AllClosed, Continues, Wanted;
      ghost var l := ledger;
      LetUsersIn(r.before);
      SameResources(l, ledger);
      ghost var l1 := ledger;
      ResetLocked();
      ContinuesOn(l, l1, ledger);
      l1 := ledger;
      var waited;
      ok, waited := Connect(r.attempt);
      ContinuesOn(l, l1, ledger);
      if !ok {
        return;
      }
      l1 := ledger;
      var _ := Redeclare(r.between, r.accepts);
      SameResources(l1, ledger);
      ContinuesOn(l, l1, ledger);
      l1 := ledger;
      LetUsersIn(r.after);
      SameResources(l1, ledger);
      ContinuesOn(l, l1, ledger);
    }

    /** The goroutine of reconnect, followed for some turns; `stopped` when it has returned. */
    method ReconnectLoop(turns: seq<Turn>) returns (stopped: bool)
      requires Settled() && HeldIsOpen()
      modifies this
      ensures Settled() && HeldIsOpen() && Continues(old(ledger), ledger) && old(seen) <= seen
      ensures stopped <==> Cancelled in turns
      ensures |old(ledger.conns)| <= |ledger.conns|
      ensures Progress(conn.Some?, |ledger.conns| - |old(ledger.conns)|) == AfterTurns(turns, old(conn.Some?))
    {
      hide AllTidy, Tidy, Continues, Wanted, AfterTurns;
      stopped := false;
      assert AfterTurns(turns[..0], conn.Some?) == Progress(conn.Some?, 0) by { NoTurns(turns, conn.Some?); }
      NothingHappened(ledger);
      for i := 0 to |turns|
        invariant Settled() && HeldIsOpen() && Continues(old(ledger), ledger) && old(seen) <= seen
        invariant Cancelled !in turns[..i] && !stopped
        invariant |old(ledger.conns)| <= |ledger.conns|
        invariant Progress(conn.Some?, |ledger.conns| - |old(ledger.conns)|) == AfterTurns(turns[..i], old(conn.Some?))
      {
        OneMoreTurn(turns, i, old(conn.Some?));
        ghost var l := ledger;
        match turns[i] {
          case Cancelled =>
            NothingAfterCancelled(turns, i, old(conn.Some?));
            return true;
          case Nothing(users) =>
            LetUsersIn(users);
            SameResources(l, ledger);
          case Closes(recovery) =>
            if conn.Some? {
              var _ := Recover(recovery);
            } else {
              NothingHappened(ledger);
            }
        }
        ContinuesOn(old(ledger), l, ledger);
      }
      assert turns[..|turns|] == turns;
    }

    /** stop, once the loop has returned. */
    method Stop()
      requires Settled() && HeldIsOpen()
      modifies this
      ensures Settled() && Continues(old(ledger), ledger) && old(seen) <= seen && |ledger.conns| == |old(ledger.conns)|
      ensures conn.None? && ch.None? && AllClosed(ledger) && declaredQueues == old(declaredQueues)
    {
      ResetLocked();
    }

    /** startConnection, the loop that it starts, and stop: everything that was dialed and opened
        in between has been closed once. */
    method Session(a: Attempt, turns: seq<Turn>) returns (stopped: bool)
      requires Settled() && conn.None? && ledger == Ledger([], [], [])
      modifies this
      ensures Settled() && old(seen) <= seen
      ensures stopped <==> !a.opens || Cancelled in turns
      ensures stopped ==> AllClosed(ledger) && conn.None? && ch.None?
      ensures |ledger.conns| == 1 + if a.opens then AfterTurns(turns, true).dials else 0
    {
      hide AllTidy, Tidy, Continues;
      NothingHeld();
      var ok, waited := Connect(a);
      stopped := !ok;
      if ok {
        stopped := ReconnectLoop(turns);
      }
      if stopped {
        Stop();
      }
    }
  }

  lemma NoTurns(turns: seq<Turn>, held: bool)
    ensures AfterTurns(turns[..0], held) == Progress(held, 0)
  {
  }

  lemma NothingHappened(l: Ledger)
    ensures Continues(l, l)
  {
  }

  lemma SameResources(l: Ledger, l': Ledger)
    requires l'.conns == l.conns && l'.chans == l.chans && l.declared <= l'.declared
    ensures Continues(l, l')
  {
  }

  lemma ContinuesOn(l: Ledger, m: Ledger, l': Ledger)
    requires Continues(l, m) && Continues(m, l')
    ensures Continues(l, l')
  {
  }

  /** A connection was dialed and closed. */
  lemma OneMoreClosed(l: Ledger, l': Ledger)
    requires AllClosed(l) && l'.conns == (l.conns + [0])[|l.conns| := 1] && l'.chans == l.chans && l.declared <= l'.declared
    ensures AllClosed(l') && Continues(l, l')
  {
  }

  /** A connection was dialed and a channel opened on it. */
  lemma OneMoreOpen(l: Ledger, l': Ledger, dialed: nat)
    requires l'.conns == l.conns + [0] && l'.chans == l.chans + [Chan(dialed, 0)] && l.declared <= l'.declared
    ensures Continues(l, l')
  {
  }

  lemma NoneDeclared(ch: nat, queues: seq<string>)
    ensures OnChannel(ch, queues[..0]) == []
  {
  }

  lemma OneMoreDeclared(ch: nat, queues: seq<string>, i: nat)
    requires i < |queues|
    ensures OnChannel(ch, queues[..i]) + [(ch, queues[i])] == OnChannel(ch, queues[..i + 1])
  {
  }

  /** The list that the users want declared: the last one they gave. */
  function Wanted(queues: seq<string>, users: seq<UserCall>): seq<string> {
    if users == [] then queues else users[|users| - 1].queues
  }
}
