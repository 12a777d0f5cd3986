/** What the gateway's fields mean, told from the events of a run: who signed it out, how many attempts have failed,
    when it last heard from the server, and what its status says. */
module GatewayHistory {
  import opened Options
  import opened GatewayModel
  import opened GatewayPromises

  // ---- Signing out ----

  /** The session's token was refused. */
  predicate Unauthorized(e: Event) { e.TicketFails? && e.unauthorized }

  /** In any state, the user becomes signed out by a refused token and by nothing else. */
  lemma SignedOutExactlyWhen(s: State, e: Event)
    requires Enabled(s, e)
    ensures Unauthorized(e) ==> Apply(s, e).gate.status == SignedOut
    ensures s.gate.status != SignedOut && Apply(s, e).gate.status == SignedOut ==> Unauthorized(e)
  {
    hide Backoff;
  }

  lemma {:induction false} RunNeverSignedOut(s: State, events: seq<Event>)
    requires Legal(s, events) && s.gate.status != SignedOut && forall e :: e in events ==> !Unauthorized(e)
    ensures Run(s, events).gate.status != SignedOut
    decreases |events|
  {
    hide Enabled, Apply, Unauthorized;
    if events != [] {
      assert events[0] in events && forall e :: e in events[1..] ==> e in events;
      SignedOutExactlyWhen(s, events[0]);
      RunNeverSignedOut(Apply(s, events[0]), events[1..]);
    }
  }

  /** While no token is refused, a gateway whose connects do not overlap keeps trying: from the first `connect()` until
      the user hangs up there is always exactly one driver. */
  lemma KeepsTrying(events: seq<Event>)
    requires Legal(START, events) && Serial(START, events) && forall e :: e in events ==> !Unauthorized(e)
    ensures var s := Run(START, events);
      s.gate.status != SignedOut && (s.begun && !s.gate.closedByUser ==> Drivers(s) == 1)
  {
    hide Run, Legal, Serial, Drivers, LiveSockets;
    RunNeverSignedOut(START, events);
    ExactlyOneDriver(events);
  }

  /** After any other failure to get a ticket the gateway is disconnected and, unless the user has hung up, one timer
      runs, set for the next attempt; a refused token leaves no new timer. */
  lemma FailureRetriesExactlyWhen(events: seq<Event>, fetch: Id, unauthorized: bool)
    requires Legal(START, events) && fetch in Run(START, events).browser.fetches
    ensures var s := Run(START, events); var s' := Apply(s, TicketFails(fetch, unauthorized));
      && Enabled(s, TicketFails(fetch, unauthorized))
      && s'.browser.fetches == s.browser.fetches - {fetch}
      && (if unauthorized then s'.gate.status == SignedOut && s'.browser.timeouts == s.browser.timeouts
          else if s.gate.closedByUser then s'.gate.status == Disconnected && s'.browser.timeouts == s.browser.timeouts
          else
            && s'.gate.status == Disconnected
            && s'.browser.timeouts == map[s.browser.nextId := Backoff(s.gate.attempts)])
  {
    hide Run, Legal, Backoff;
    StartTidy();
    RunTidy(START, events);
    var s := Run(START, events);
    assert s.browser.timeouts.Keys == Held(s.gate.reconnectTimer);
    assert s.browser.timeouts - Held(s.gate.reconnectTimer) == map[];
  }

  // ---- Failed attempts and the wait ----

  /** The connection, or the attempt at one, is lost while the user wants it. */
  predicate Loses(s: State, e: Event) {
    && !s.gate.closedByUser
    && ((e.TicketFails? && !e.unauthorized)
        || (e.Closes? && e.socket in s.browser.sockets && s.browser.sockets[e.socket].attached))
  }

  predicate OpensUp(s: State, e: Event) {
    e.Opens? && e.socket in s.browser.sockets && s.browser.sockets[e.socket].attached
  }

  function LossesNext(s: State, e: Event, was: nat): nat {
    if OpensUp(s, e) then 0 else if Loses(s, e) then was + 1 else was
  }

  /** How many attempts were lost since a connection last opened. */
  ghost function Losses(s: State, events: seq<Event>, was: nat): nat
    requires Legal(s, events)
    decreases |events|
  {
    if events == [] then was else Losses(Apply(s, events[0]), events[1..], LossesNext(s, events[0], was))
  }

  /** The wait set for is that of the losses so far. */
  ghost predicate WaitsFor(s: State, losses: nat) {
    s.gate.attempts == losses
    && (s.gate.reconnectTimer.Some? ==>
          losses > 0 && s.browser.timeouts == map[s.gate.reconnectTimer.value := Backoff(losses - 1)])
  }

  lemma StepWaits(s: State, e: Event, losses: nat)
    requires OneDriver(s) && Enabled(s, e) && (e.Connect? ==> s.browser.fetches == {}) && WaitsFor(s, losses)
    ensures WaitsFor(Apply(s, e), LossesNext(s, e, losses))
  {
    hide Backoff;
    assert s.browser.timeouts - Held(s.gate.reconnectTimer) == map[];
  }

  lemma {:induction false} RunWaits(s: State, events: seq<Event>, losses: nat)
    requires OneDriver(s) && Legal(s, events) && Serial(s, events) && WaitsFor(s, losses)
    ensures WaitsFor(Run(s, events), Losses(s, events, losses))
    decreases |events|
  {
    hide OneDriver, WaitsFor, Enabled, Apply, LossesNext;
    if events != [] {
      StepWaits(s, events[0], losses);
      StepOneDriver(s, events[0]);
      RunWaits(Apply(s, events[0]), events[1..], LossesNext(s, events[0], losses));
    }
  }

  function Doubled(n: nat): nat { if n == 0 then 1000 else 2 * Doubled(n - 1) }

  lemma {:induction false} BackoffDoubles(n: nat)
    ensures BASE_BACKOFF_MS * Power(n) == Doubled(n)
    ensures Backoff(n) == if Doubled(n) < 30_000 then Doubled(n) else 30_000
  {
    if n > 0 { BackoffDoubles(n - 1); }
  }

  /** Over serial runs, a reconnect timer is always set for a second doubled once for each loss in a row but the first,
      and for no more than thirty; an opened connection starts the count anew. */
  lemma WaitsDouble(events: seq<Event>)
    requires Legal(START, events) && Serial(START, events)
    ensures var s := Run(START, events); var losses := Losses(START, events, 0);
      && s.gate.attempts == losses
      && (s.gate.reconnectTimer.None? ==> s.browser.timeouts == map[])
      && (s.gate.reconnectTimer.Some? ==>
            losses > 0
            && s.browser.timeouts == map[s.gate.reconnectTimer.value :=
                                           if Doubled(losses - 1) < 30_000 then Doubled(losses - 1) else 30_000])
  {
    hide Run, Legal, Serial, OneDriver, Losses, Backoff, Doubled;
    StartOneDriver();
    RunWaits(START, events, 0);
    var losses := Losses(START, events, 0);
    if losses > 0 { BackoffDoubles(losses - 1); }
    StartTidy();
    RunTidy(START, events);
  }

  // ---- When the server was last heard ----

  function HeardNext(s: State, e: Event, was: nat): nat {
    if (e.Opens? || e.Frame?) && e.socket in s.browser.sockets && s.browser.sockets[e.socket].attached
    then e.now
    else was
  }

  /** When a connection last opened or a frame last came in. */
  ghost function LastHeard(s: State, events: seq<Event>, was: nat): nat
    requires Legal(s, events)
    decreases |events|
  {
    if events == [] then was else LastHeard(Apply(s, events[0]), events[1..], HeardNext(s, events[0], was))
  }

  lemma StepHeard(s: State, e: Event)
    requires Enabled(s, e)
    ensures Apply(s, e).gate.lastFrameAt == HeardNext(s, e, s.gate.lastFrameAt)
  {
    hide Backoff;
  }

  lemma {:induction false} RunHeard(s: State, events: seq<Event>)
    requires Legal(s, events)
    ensures Run(s, events).gate.lastFrameAt == LastHeard(s, events, s.gate.lastFrameAt)
    decreases |events|
  {
    hide Enabled, Apply, HeardNext;
    if events != [] {
      StepHeard(s, events[0]);
      RunHeard(Apply(s, events[0]), events[1..]);
    }
  }

  /** A heartbeat closes the current socket if and only if something was heard once, but nothing for more than forty
      seconds; it does nothing else to any field or any other socket. */
  lemma TickClosesExactlyWhen(events: seq<Event>, interval: Id, now: nat)
    requires Legal(START, events) && interval in Run(START, events).browser.intervals
    ensures var s := Run(START, events); var s' := Apply(s, Ticks(interval, now));
      var heard := LastHeard(START, events, 0);
      && Enabled(s, Ticks(interval, now))
      && s'.gate == s.gate && s'.browser.(sockets := s.browser.sockets) == s.browser && s'.begun == s.begun
      && s'.browser.sockets.Keys == s.browser.sockets.Keys
      && forall id :: id in s.browser.sockets ==>
           s'.browser.sockets[id] ==
             if heard != 0 && now > heard + 40_000 && s.gate.ws == Some(id) && !s.browser.sockets[id].phase.Closed?
             then s.browser.sockets[id].(phase := Phase.Closing) else s.browser.sockets[id]
  {
    hide Run, Legal, LastHeard;
    RunHeard(START, events);
    StartTidy();
    RunTidy(START, events);
  }

  /** An error on a socket that still has its handlers closes that socket, and does nothing else. */
  lemma ErrorCloses(s: State, socket: Id)
    requires Enabled(s, Errors(socket))
    ensures var s' := Apply(s, Errors(socket)); var was := s.browser.sockets[socket];
      s' == s.(browser := s.browser.(sockets := s.browser.sockets[socket :=
               if was.attached then was.(phase := Phase.Closing) else was]))
  {
    assert s.browser.sockets[socket := s.browser.sockets[socket]] == s.browser.sockets;
  }

  // ---- What the status says ----

  /** The status while the user wants a connection, by what drives it. */
  ghost predicate Tells(s: State) {
    && (s.browser.fetches != {} ==> s.gate.closedByUser || s.gate.status == Connecting)
    && (s.gate.reconnectTimer.Some? ==> s.gate.status == Disconnected)
    && (s.gate.ws.Some? && s.gate.ws.value in s.browser.sockets ==>
          match s.browser.sockets[s.gate.ws.value].phase
          case Dialing => s.gate.status == Connecting
          case Open => s.gate.status == Connected
          case Closing => s.gate.status in {Connecting, Connected}
          case Closed => s.gate.status == Disconnected)
    && (s.gate.closedByUser ==> s.gate.status in {Disconnected, SignedOut})
    && (!s.begun ==> s.gate.status == Disconnected)
  }

  lemma StepTells(s: State, e: Event)
    requires OneDriver(s) && Tells(s) && Enabled(s, e) && (e.Connect? ==> s.browser.fetches == {})
    ensures Tells(Apply(s, e))
  {
    hide Backoff;
  }

  lemma {:induction false} RunTells(s: State, events: seq<Event>)
    requires OneDriver(s) && Tells(s) && Legal(s, events) && Serial(s, events)
    ensures Tells(Run(s, events))
    decreases |events|
  {
    hide OneDriver, Tells, Enabled, Apply;
    if events != [] {
      StepTells(s, events[0]);
      StepOneDriver(s, events[0]);
      RunTells(Apply(s, events[0]), events[1..]);
    }
  }

  /** Over serial runs the status says what is going on: connecting while a ticket is fetched or a socket dialled,
      connected while one is open, disconnected while a timer waits or after hanging up. */
  lemma StatusTells(events: seq<Event>)
    requires Legal(START, events) && Serial(START, events)
    ensures Tells(Run(START, events))
  {
    hide Run, Legal, Serial, OneDriver, Tells;
    StartOneDriver();
    StartTells();
    RunTells(START, events);
  }

  lemma StartTells()
    ensures Tells(START)
  {}
}
