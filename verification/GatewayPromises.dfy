/** One driver for the connection, over every run of events. */
module GatewayPromises {
  import opened Options
  import opened GatewayModel
  import opened FiniteSets

  /** True of every reachable state, however the gateway is used: the timer and heartbeat fields name exactly the ones
      the browser runs, so none is ever orphaned, and nothing is numbered twice. */
  ghost predicate Tidy(s: State) {
    && s.browser.timeouts.Keys == Held(s.gate.reconnectTimer)
    && s.browser.intervals == Held(s.gate.heartbeatTimer)
    && (s.gate.ws.Some? ==> s.gate.ws.value in s.browser.sockets)
    && (forall id :: id in s.browser.sockets ==> id < s.browser.nextId)
    && (forall id :: id in s.browser.fetches ==> id < s.browser.nextId)
  }

  /** The current socket has not closed. */
  predicate Up(s: State) {
    s.gate.ws.Some? && s.gate.ws.value in s.browser.sockets && !s.browser.sockets[s.gate.ws.value].phase.Closed?
  }

  /** True while `connect()` is never called over a pending fetch. */
  ghost predicate OneDriver(s: State) {
    && Tidy(s)
    && (forall id ::
          id in s.browser.sockets && s.browser.sockets[id].attached && !s.browser.sockets[id].phase.Closed? ==>
            s.gate.ws == Some(id))
    && (s.gate.ws.Some? ==> s.browser.sockets[s.gate.ws.value].attached)
    && (s.browser.fetches != {} ==>
          s.gate.ws.None? && s.gate.reconnectTimer.None? && exists f :: s.browser.fetches == {f})
    && (s.gate.reconnectTimer.Some? ==> !Up(s))
    && (s.gate.closedByUser ==>
          s.gate.ws.None? && s.gate.reconnectTimer.None? && s.gate.heartbeatTimer.None?)
    && (s.gate.status == SignedOut ==> s.browser.fetches == {} && s.gate.reconnectTimer.None? && !Up(s))
    && (s.gate.status == Connected ==> Up(s) && !s.browser.sockets[s.gate.ws.value].phase.Dialing?)
    && (s.begun && !s.gate.closedByUser && s.gate.status != SignedOut ==>
          s.browser.fetches != {} || s.gate.reconnectTimer.Some? || Up(s))
    && (!s.begun ==> s.browser.fetches == {})
  }

  lemma LiveIsCurrent(s: State)
    requires OneDriver(s)
    ensures LiveSockets(s) == if Up(s) then {s.gate.ws.value} else {}
  {}

  lemma StepTidy(s: State, e: Event)
    requires Tidy(s) && Enabled(s, e)
    ensures Tidy(Apply(s, e))
  {
    hide Backoff;
  }

  lemma StepOneDriver(s: State, e: Event)
    requires OneDriver(s) && Enabled(s, e) && (e.Connect? ==> s.browser.fetches == {})
    ensures OneDriver(Apply(s, e))
  {
    hide Backoff;
    StepTidy(s, e);
  }

  lemma DriversAtMostOne(s: State)
    requires OneDriver(s)
    ensures Drivers(s) <= 1
    ensures s.begun && !s.gate.closedByUser && s.gate.status != SignedOut ==> Drivers(s) == 1
  {
    LiveIsCurrent(s);
  }

  lemma {:induction false} RunTidy(s: State, events: seq<Event>)
    requires Tidy(s) && Legal(s, events)
    ensures Tidy(Run(s, events))
    decreases |events|
  {
    hide Tidy, Apply, Enabled;
    if events != [] {
      StepTidy(s, events[0]);
      RunTidy(Apply(s, events[0]), events[1..]);
    }
  }

  lemma {:induction false} RunOneDriver(s: State, events: seq<Event>)
    requires OneDriver(s) && Legal(s, events) && Serial(s, events)
    ensures OneDriver(Run(s, events))
    decreases |events|
  {
    hide OneDriver, Apply, Enabled;
    if events != [] {
      StepOneDriver(s, events[0]);
      RunOneDriver(Apply(s, events[0]), events[1..]);
    }
  }

  lemma StartOneDriver()
    ensures OneDriver(START)
  {}

  /** No timer or heartbeat is ever orphaned, however `connect()` and `disconnect()` are called: at most one of each
      runs, and it is the one the gateway can cancel. */
  lemma NoOrphans(events: seq<Event>)
    requires Legal(START, events)
    ensures var s := Run(START, events);
      && s.browser.timeouts.Keys == Held(s.gate.reconnectTimer)
      && s.browser.intervals == Held(s.gate.heartbeatTimer)
  {
    hide Run, Legal;
    RunTidy(START, events);
  }

  /** At most one of a ticket fetch, a reconnect timer and a live socket drives the connection; exactly one does from
      the first `connect()` on, unless the user hung up or the session was refused. A connected status means a socket
      that opened and has not closed. */
  lemma ExactlyOneDriver(events: seq<Event>)
    requires Legal(START, events) && Serial(START, events)
    ensures var s := Run(START, events);
      && Drivers(s) <= 1
      && (s.begun && !s.gate.closedByUser && s.gate.status != SignedOut ==> Drivers(s) == 1)
      && (s.gate.status == SignedOut ==> Drivers(s) == 0)
      && (s.gate.status == Connected ==> s.gate.ws.Some? && LiveSockets(s) == {s.gate.ws.value})
  {
    hide Run, Legal, Serial;
    StartOneDriver();
    RunOneDriver(START, events);
    DriversAtMostOne(Run(START, events));
    LiveIsCurrent(Run(START, events));
  }

  /** The condition is exact: where calls have been serial so far, the next `connect()` leaves exactly one driver when
      no ticket is being fetched, and only then. */
  lemma ConnectIsSafeExactlyWhen(events: seq<Event>)
    requires Legal(START, events) && Serial(START, events)
    ensures Drivers(Apply(Run(START, events), Connect)) == 1 <==> Run(START, events).browser.fetches == {}
  {
    hide Run, Legal, Serial, OneDriver, Drivers;
    var s := Run(START, events);
    StartOneDriver();
    RunOneDriver(START, events);
    if s.browser.fetches == {} {
      StepOneDriver(s, Connect);
      DriversAtMostOne(Apply(s, Connect));
    } else {
      OverlapMakesTwo(events);
    }
  }

  /** A `connect()` over a pending fetch puts two drivers there at once, in any reachable state. */
  lemma OverlapMakesTwo(events: seq<Event>)
    requires Legal(START, events) && Run(START, events).browser.fetches != {}
    ensures Drivers(Apply(Run(START, events), Connect)) >= 2
  {
    hide Run, Legal, LiveSockets;
    RunTidy(START, events);
    var s := Run(START, events);
    var f :| f in s.browser.fetches;
    var s' := Apply(s, Connect);
    BeginFetches(s);
    assert {f, s.browser.nextId} <= s'.browser.fetches;
    SubsetSize({f, s.browser.nextId}, s'.browser.fetches);
  }

  lemma BeginFetches(s: State)
    ensures BeginConnect(s).browser.fetches == s.browser.fetches + {s.browser.nextId}
  {}

  lemma Then(s: State, e: Event, rest: seq<Event>)
    requires Enabled(s, e) && Legal(Apply(s, e), rest)
    ensures Legal(s, [e] + rest) && Run(s, [e] + rest) == Run(Apply(s, e), rest)
  {
    assert ([e] + rest)[1..] == rest;
  }

  /** Two overlapping calls really do end with two sockets carrying handlers, and hanging up then leaves one of them
      alive. */
  lemma OverlapLeavesASocket() returns (events: seq<Event>)
    ensures Legal(START, events) && LiveSockets(Run(START, events)) == {2}
    ensures events == [Connect] + ([Connect] + ([TicketArrives(0)] + ([TicketArrives(1)] + ([Disconnect] + []))))
  {
    hide Legal, Run;
    var s1 := Apply(START, Connect);
    var s2 := Apply(s1, Connect);
    assert s2.browser == Browser(map[], map[], {}, {0, 1}, 2);
    var s3 := Apply(s2, TicketArrives(0));
    assert s3.browser == Browser(map[2 := Socket(true, Dialing)], map[], {}, {1}, 3);
    var s4 := Apply(s3, TicketArrives(1));
    assert s4.browser == Browser(map[2 := Socket(true, Dialing), 3 := Socket(true, Dialing)], map[], {}, {}, 4);
    var s5 := Apply(s4, Disconnect);
    assert s5.browser.sockets == map[2 := Socket(true, Dialing), 3 := Socket(false, Closing)];
    Ends(s5);
    Then(s4, Disconnect, []);
    Then(s3, TicketArrives(1), [Disconnect] + []);
    Then(s2, TicketArrives(0), [TicketArrives(1)] + ([Disconnect] + []));
    Then(s1, Connect, [TicketArrives(0)] + ([TicketArrives(1)] + ([Disconnect] + [])));
    Then(START, Connect, [Connect] + ([TicketArrives(0)] + ([TicketArrives(1)] + ([Disconnect] + []))));
    events := [Connect] + ([Connect] + ([TicketArrives(0)] + ([TicketArrives(1)] + ([Disconnect] + []))));
  }

  lemma Ends(s: State)
    ensures Legal(s, []) && Run(s, []) == s
  {}

  ghost predicate NoConnect(events: seq<Event>) { forall e :: e in events ==> !e.Connect? }

  /** Nothing runs and nothing can start by itself. */
  ghost predicate HungUp(s: State) {
    && s.gate.closedByUser && s.gate.ws.None? && LiveSockets(s) == {}
    && s.browser.timeouts == map[] && s.browser.intervals == {}
  }

  lemma BareUnlessLive(s: State)
    ensures forall id :: id in s.browser.sockets && id !in LiveSockets(s) ==>
      !s.browser.sockets[id].attached || s.browser.sockets[id].phase.Closed?
  {}

  lemma StepStaysHungUp(s: State, e: Event)
    requires Tidy(s) && HungUp(s) && Enabled(s, e) && !e.Connect?
    ensures HungUp(Apply(s, e))
  {
    var s' := Apply(s, e);
    BareUnlessLive(s);
    forall id | id in LiveSockets(s') ensures id in LiveSockets(s) {}
  }

  lemma {:induction false} StaysHungUp(s: State, events: seq<Event>)
    requires Tidy(s) && HungUp(s) && Legal(s, events) && NoConnect(events)
    ensures HungUp(Run(s, events))
    decreases |events|
  {
    hide Tidy, HungUp, Apply, Enabled;
    if events != [] {
      var e := events[0];
      assert e in events && forall x :: x in events[1..] ==> x in events;
      StepTidy(s, e);
      StepStaysHungUp(s, e);
      StaysHungUp(Apply(s, e), events[1..]);
    }
  }

  lemma HangingUp(s: State)
    requires Tidy(s)
    ensures HungUp(Apply(s, Disconnect)) <==> LiveSockets(s) <= Held(s.gate.ws)
  {
    var s' := Apply(s, Disconnect);
    assert LiveSockets(s') == LiveSockets(s) - Held(s.gate.ws);
  }

  /** In every run, however calls overlap: after `disconnect()` there is no socket, timer or heartbeat, and none appears
      until the next `connect()`, if and only if no socket but the current one was still live. */
  lemma DisconnectHoldsExactlyWhen(events: seq<Event>)
    requires Legal(START, events)
    ensures var s := Run(START, events); var off := Apply(s, Disconnect);
      (forall later :: Legal(off, later) && NoConnect(later) ==> HungUp(Run(off, later)))
      <==> LiveSockets(s) <= Held(s.gate.ws)
  {
    hide Run, Legal, HungUp, LiveSockets, Tidy;
    StartTidy();
    RunTidy(START, events);
    var s := Run(START, events);
    var off := Apply(s, Disconnect);
    HangingUp(s);
    StepTidy(s, Disconnect);
    if LiveSockets(s) <= Held(s.gate.ws) {
      forall later | Legal(off, later) && NoConnect(later) ensures HungUp(Run(off, later)) {
        StaysHungUp(off, later);
      }
    } else {
      Ends(off);
      assert NoConnect([]);
    }
  }

  lemma StartTidy()
    ensures Tidy(START)
  {}

  /** Serial calls are enough for that. */
  lemma DisconnectHolds(events: seq<Event>, later: seq<Event>)
    requires Legal(START, events) && Serial(START, events)
    requires Legal(Apply(Run(START, events), Disconnect), later) && NoConnect(later)
    ensures HungUp(Run(Apply(Run(START, events), Disconnect), later))
  {
    hide Run, Legal, Serial, NoConnect, OneDriver, LiveSockets, HungUp;
    StartOneDriver();
    RunOneDriver(START, events);
    LiveIsCurrent(Run(START, events));
    DisconnectHoldsExactlyWhen(events);
  }

  // ---- The heartbeat ----

  /** Nobody calls `connect()` while a ticket is being fetched or a heartbeat runs. */
  ghost predicate Calm(s: State, events: seq<Event>)
    requires Legal(s, events)
    decreases |events|
  {
    events == [] ||
    ((events[0].Connect? ==> s.browser.fetches == {} && s.gate.heartbeatTimer.None?)
     && Calm(Apply(s, events[0]), events[1..]))
  }

  /** A heartbeat runs only over a current socket that has opened and not closed. */
  ghost predicate BeatsOverOpen(s: State) {
    s.gate.heartbeatTimer.Some? ==>
      s.gate.ws.Some? && s.gate.ws.value in s.browser.sockets
      && s.browser.sockets[s.gate.ws.value].phase in {Phase.Open, Phase.Closing}
  }

  lemma StepBeats(s: State, e: Event)
    requires OneDriver(s) && BeatsOverOpen(s) && Enabled(s, e)
    requires e.Connect? ==> s.browser.fetches == {} && s.gate.heartbeatTimer.None?
    ensures BeatsOverOpen(Apply(s, e))
  {}

  lemma {:induction false} RunBeats(s: State, events: seq<Event>)
    requires OneDriver(s) && BeatsOverOpen(s) && Legal(s, events) && Calm(s, events)
    ensures BeatsOverOpen(Run(s, events))
    decreases |events|
  {
    hide OneDriver, BeatsOverOpen, Apply, Enabled;
    if events != [] {
      StepBeats(s, events[0]);
      StepOneDriver(s, events[0]);
      RunBeats(Apply(s, events[0]), events[1..]);
    }
  }

  /** Where `connect()` is only ever called with no ticket being fetched and no heartbeat running, no tick ever meets a
      socket that is still being dialled. */
  lemma HeartbeatSparesTheDialling(events: seq<Event>)
    requires Legal(START, events) && Calm(START, events)
    ensures BeatsOverOpen(Run(START, events))
  {
    hide Run, Legal, OneDriver, Calm;
    StartOneDriver();
    RunBeats(START, events);
  }

  /** A heartbeat over a socket being dialled. */
  predicate BeatsOverDialling(s: State) {
    && s.gate.heartbeatTimer.Some? && s.gate.ws.Some? && s.gate.ws.value in s.browser.sockets
    && s.browser.sockets[s.gate.ws.value].phase.Dialing?
  }

  /** A `connect()` that finds no ticket being fetched and no socket live but the current one leaves one driver,
      whatever happened before. */
  lemma FreshConnect(s: State)
    requires Tidy(s) && LiveSockets(s) <= Held(s.gate.ws) && s.browser.fetches == {}
    ensures OneDriver(Apply(s, Connect))
  {
    var s' := Apply(s, Connect);
    BareUnlessLive(s);
    assert s'.browser.fetches == {s.browser.nextId};
  }

  lemma {:induction false} NoConnectIsCalm(s: State, events: seq<Event>)
    requires Legal(s, events) && NoConnect(events)
    ensures Calm(s, events)
    decreases |events|
  {
    hide Apply, Enabled;
    if events != [] {
      assert events[0] in events && forall e :: e in events[1..] ==> e in events;
      NoConnectIsCalm(Apply(s, events[0]), events[1..]);
    }
  }

  /** Some events, none of them a `connect()`, lead to a heartbeat over a socket being dialled. */
  ghost predicate LeadsToBeating(s: State, later: seq<Event>) {
    Legal(s, later) && NoConnect(later) && BeatsOverDialling(Run(s, later))
  }

  lemma BeatingAfter(s: State, e: Event, rest: seq<Event>)
    requires Enabled(s, e) && !e.Connect? && LeadsToBeating(Apply(s, e), rest)
    ensures LeadsToBeating(s, [e] + rest)
  {
    hide Apply, Enabled, Legal, Run;
    Then(s, e, rest);
  }

  lemma BeatingNow(s: State)
    requires BeatsOverDialling(s)
    ensures LeadsToBeating(s, [])
  {}

  /** A ticket that arrives while a heartbeat runs. */
  lemma TicketUnderHeartbeat(s: State, fetch: Id)
    requires fetch in s.browser.fetches && s.gate.heartbeatTimer.Some? && !s.gate.closedByUser
    ensures LeadsToBeating(s, [TicketArrives(fetch)] + [])
  {
    BeatingNow(Apply(s, TicketArrives(fetch)));
    BeatingAfter(s, TicketArrives(fetch), []);
  }

  /** A socket being dialled that opens while a ticket is still being fetched. */
  lemma OpensUnderFetch(s: State, socket: Id, fetch: Id)
    requires socket in s.browser.sockets && s.browser.sockets[socket] == Socket(true, Dialing)
    requires fetch in s.browser.fetches && !s.gate.closedByUser
    ensures LeadsToBeating(s, [Opens(socket, 1)] + ([TicketArrives(fetch)] + []))
  {
    TicketUnderHeartbeat(Apply(s, Opens(socket, 1)), fetch);
    BeatingAfter(s, Opens(socket, 1), [TicketArrives(fetch)] + []);
  }

  /** A live socket other than the current one, with a ticket being fetched: if it is being dialled it opens first; if
      it has opened, it closes after the ticket's own socket was dialled, and the reconnect it schedules dials another
      while that one's heartbeat runs. */
  lemma StrayLeadsToBeating(s: State, stray: Id, fetch: Id) returns (later: seq<Event>)
    requires Tidy(s) && stray in LiveSockets(s) && fetch in s.browser.fetches && !s.gate.closedByUser
    ensures LeadsToBeating(s, later)
  {
    hide LeadsToBeating;
    if s.browser.sockets[stray].phase.Dialing? {
      OpensUnderFetch(s, stray, fetch);
      later := [Opens(stray, 1)] + ([TicketArrives(fetch)] + []);
    } else {
      var socket, timer := s.browser.nextId, s.browser.nextId + 1;
      var s1 := Apply(s, TicketArrives(fetch));
      var s2 := Apply(s1, Closes(stray));
      assert s2.gate.reconnectTimer == Some(timer) && s2.browser.sockets[socket] == Socket(true, Dialing);
      var s3 := Apply(s2, Opens(socket, 1));
      var s4 := Apply(s3, TimerFires(timer));
      var last := s3.browser.nextId;
      assert last in s4.browser.fetches && s4.gate.heartbeatTimer.Some?;
      TicketUnderHeartbeat(s4, last);
      BeatingAfter(s3, TimerFires(timer), [TicketArrives(last)] + []);
      BeatingAfter(s2, Opens(socket, 1), [TimerFires(timer)] + ([TicketArrives(last)] + []));
      BeatingAfter(s1, Closes(stray), [Opens(socket, 1)] + ([TimerFires(timer)] + ([TicketArrives(last)] + [])));
      later := [Closes(stray)] + ([Opens(socket, 1)] + ([TimerFires(timer)] + ([TicketArrives(last)] + [])));
      BeatingAfter(s, TicketArrives(fetch), later);
      later := [TicketArrives(fetch)] + later;
    }
  }

  /** An earlier ticket still being fetched: its socket opens before the later ticket arrives. */
  lemma OverlapLeadsToBeating(s: State, earlier: Id, fetch: Id) returns (later: seq<Event>)
    requires Tidy(s) && earlier != fetch && {earlier, fetch} <= s.browser.fetches && !s.gate.closedByUser
    ensures LeadsToBeating(s, later)
  {
    hide LeadsToBeating;
    var s1 := Apply(s, TicketArrives(earlier));
    OpensUnderFetch(s1, s.browser.nextId, fetch);
    later := [Opens(s.browser.nextId, 1)] + ([TicketArrives(fetch)] + []);
    BeatingAfter(s, TicketArrives(earlier), later);
    later := [TicketArrives(earlier)] + later;
  }

  /** What a `connect()` must find so that no heartbeat runs over a socket being dialled until the next one. */
  ghost predicate Settled(s: State) {
    s.browser.fetches == {} && s.gate.heartbeatTimer.None? && LiveSockets(s) <= Held(s.gate.ws)
  }

  /** In every run, however calls overlapped so far: whatever happens after a `connect()` and before the next, no
      heartbeat runs over a socket being dialled, if and only if at the call no ticket was being fetched, no heartbeat
      was running and no socket but the current one was live. */
  lemma ConnectLeavesHeartbeatExactlyWhen(events: seq<Event>)
    requires Legal(START, events)
    ensures var s := Run(START, events);
      (forall later :: !LeadsToBeating(Apply(s, Connect), later)) <==> Settled(s)
  {
    hide Run, Legal, Tidy, OneDriver, BeatsOverOpen, Calm, LiveSockets;
    StartTidy();
    RunTidy(START, events);
    var s := Run(START, events);
    if Settled(s) {
      FreshConnect(s);
      SilentConnect(s);
      var s1 := Apply(s, Connect);
      forall later ensures !LeadsToBeating(s1, later) {
        if Legal(s1, later) && NoConnect(later) {
          NoConnectIsCalm(s1, later);
          RunBeats(s1, later);
          NotBoth(Run(s1, later));
        }
      }
    } else {
      var later := UnsettledBeats(s);
    }
  }

  lemma SilentConnect(s: State)
    requires s.gate.heartbeatTimer.None?
    ensures BeatsOverOpen(Apply(s, Connect))
  {}

  lemma NotBoth(s: State)
    requires BeatsOverOpen(s)
    ensures !BeatsOverDialling(s)
  {}

  lemma UnsettledBeats(s: State) returns (later: seq<Event>)
    requires Tidy(s) && !Settled(s)
    ensures LeadsToBeating(Apply(s, Connect), later)
  {
    hide LeadsToBeating;
    var s1, fetch := Apply(s, Connect), s.browser.nextId;
    StepTidy(s, Connect);
    if s.gate.heartbeatTimer.Some? {
      TicketUnderHeartbeat(s1, fetch);
      later := [TicketArrives(fetch)] + [];
    } else if s.browser.fetches != {} {
      var earlier :| earlier in s.browser.fetches;
      later := OverlapLeadsToBeating(s1, earlier, fetch);
    } else {
      var stray :| stray in LiveSockets(s) && stray !in Held(s.gate.ws);
      StrayStaysLive(s, stray);
      later := StrayLeadsToBeating(s1, stray, fetch);
    }
  }

  lemma StrayStaysLive(s: State, stray: Id)
    requires Tidy(s) && stray in LiveSockets(s) && stray !in Held(s.gate.ws)
    ensures stray in LiveSockets(Apply(s, Connect))
  {}

  /** In a run without overlaps only the heartbeat can make the difference. */
  lemma SerialConnectLeavesHeartbeat(events: seq<Event>)
    requires Legal(START, events) && Serial(START, events)
    ensures var s := Run(START, events);
      (forall later :: !LeadsToBeating(Apply(s, Connect), later))
      <==> s.browser.fetches == {} && s.gate.heartbeatTimer.None?
  {
    hide Run, Legal, Serial, OneDriver, LiveSockets, LeadsToBeating;
    StartOneDriver();
    RunOneDriver(START, events);
    LiveIsCurrent(Run(START, events));
    ConnectLeavesHeartbeatExactlyWhen(events);
  }

  /** `connect()` on a live connection leaves the old heartbeat running; until the new socket opens, a tick that finds
      the last frame old closes the socket being dialled. */
  lemma StaleHeartbeatClosesTheNewSocket(s: State, now: nat)
    requires OneDriver(s) && s.gate.heartbeatTimer.Some? && s.browser.fetches == {} && s.gate.lastFrameAt != 0
    requires now > s.gate.lastFrameAt + DEAD_CONNECTION_MS
    ensures var fetch, socket := s.browser.nextId, s.browser.nextId + 1;
      var s1 := Apply(s, Connect);
      && Enabled(s1, TicketArrives(fetch))
      && var s2 := Apply(s1, TicketArrives(fetch));
         && s2.gate.ws == Some(socket) && s2.browser.sockets[socket].phase == Dialing
         && Enabled(s2, Ticks(s.gate.heartbeatTimer.value, now))
         && Apply(s2, Ticks(s.gate.heartbeatTimer.value, now)).browser.sockets[socket].phase == Closing
  {}

  // ---- Backoff ----

  lemma {:induction false} PowerGrows(m: nat, n: nat)
    requires m <= n
    ensures 1 <= Power(m) <= Power(n)
    decreases n - m
  {
    if m < n { PowerGrows(m, n - 1); }
    else { PowerPositive(m); }
  }

  lemma {:induction false} PowerPositive(n: nat)
    ensures Power(n) >= 1
  {
    if n > 0 { PowerPositive(n - 1); }
  }

  /** Waits never shrink while attempts fail, double until the cap, and jitter keeps each between 0.7 and 30 seconds. */
  lemma BackoffBounds(m: nat, n: nat, factor: real)
    requires m <= n && 0.7 <= factor <= 1.0
    ensures Backoff(m) <= Backoff(n)
    ensures Backoff(m + 1) == if 2 * Backoff(m) < MAX_BACKOFF_MS then 2 * Backoff(m) else MAX_BACKOFF_MS
    ensures 700.0 <= Jittered(n, factor) <= 30000.0
  {
    BackoffGrows(m, n);
    BackoffWithin(n);
    hide Backoff;
    JitterBounds(Backoff(n) as real, factor);
  }

  lemma BackoffGrows(m: nat, n: nat)
    requires m <= n
    ensures Backoff(m) <= Backoff(n)
    ensures Backoff(m + 1) == if 2 * Backoff(m) < MAX_BACKOFF_MS then 2 * Backoff(m) else MAX_BACKOFF_MS
  {
    PowerGrows(m, n);
  }

  lemma BackoffWithin(n: nat)
    ensures BASE_BACKOFF_MS <= Backoff(n) <= MAX_BACKOFF_MS
  {
    PowerPositive(n);
  }

  lemma JitterBounds(delay: real, factor: real)
    requires 1000.0 <= delay <= 30000.0 && 0.7 <= factor <= 1.0
    ensures 700.0 <= delay * factor <= 30000.0
  {
    assert delay * factor >= 1000.0 * factor;
    assert delay * factor <= delay * 1.0;
  }
}
