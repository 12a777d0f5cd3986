/** The gateway client as an object, over the browser it runs in. */
module Gateways {
  import opened Options
  import opened GatewayModel
  import opened GatewayPromises

  /** The browser's sockets, timers and requests. */
  class Runtime {
    var sockets: map<Id, Socket>
    var timeouts: map<Id, nat>
    var intervals: set<Id>
    var fetches: set<Id>
    var nextId: Id

    ghost function View(): Browser
      reads this
    {
      Browser(sockets, timeouts, intervals, fetches, nextId)
    }

    constructor ()
      ensures View() == START.browser
    {
      sockets, timeouts, intervals, fetches, nextId := map[], map[], {}, {}, 0;
    }

    method SetTimeout(delay: nat) returns (id: Id)
      modifies `timeouts, `nextId
      ensures id == old(nextId) && nextId == id + 1 && timeouts == old(timeouts)[id := delay]
    {
      id := nextId;
      timeouts, nextId := timeouts[id := delay], id + 1;
    }

    method SetInterval() returns (id: Id)
      modifies `intervals, `nextId
      ensures id == old(nextId) && nextId == id + 1 && intervals == old(intervals) + {id}
    {
      id := nextId;
      intervals, nextId := intervals + {id}, id + 1;
    }

    method Fetch() returns (id: Id)
      modifies `fetches, `nextId
      ensures id == old(nextId) && nextId == id + 1 && fetches == old(fetches) + {id}
    {
      id := nextId;
      fetches, nextId := fetches + {id}, id + 1;
    }

    method Dial() returns (id: Id)
      modifies `sockets, `nextId
      ensures id == old(nextId) && nextId == id + 1 && sockets == old(sockets)[id := Socket(true, Dialing)]
    {
      id := nextId;
      sockets, nextId := sockets[id := Socket(true, Dialing)], id + 1;
    }

    method Close(id: Id)
      modifies `sockets
      ensures sockets == if id in old(sockets) then old(sockets)[id := ClosedBy(old(sockets)[id])] else old(sockets)
    {
      if id in sockets {
        sockets := sockets[id := ClosedBy(sockets[id])];
      }
    }
  }

  class Gateway {
    const runtime: Runtime
    var ws: Option<Id>
    var reconnectTimer: Option<Id>
    var heartbeatTimer: Option<Id>
    var lastFrameAt: nat
    var attempts: nat
    var closedByUser: bool
    var status: Status
    ghost var begun: bool

    ghost function View(): State
      reads this, runtime
    {
      State(Gate(ws, reconnectTimer, heartbeatTimer, lastFrameAt, attempts, closedByUser, status),
            runtime.View(), begun)
    }

    constructor ()
      ensures fresh(runtime) && View() == START
    {
      runtime := new Runtime();
      ws, reconnectTimer, heartbeatTimer := None, None, None;
      lastFrameAt, attempts, closedByUser, status, begun := 0, 0, false, Disconnected, false;
    }

    method ClearReconnectTimer()
      modifies this, runtime
      ensures View() == ClearTimer(old(View()))
    {
      if reconnectTimer.Some? {
        runtime.timeouts := runtime.timeouts - {reconnectTimer.value};
        reconnectTimer := None;
      }
    }

    method StopHeartbeat()
      modifies this, runtime
      ensures View() == GatewayModel.StopHeartbeat(old(View()))
    {
      if heartbeatTimer.Some? {
        runtime.intervals := runtime.intervals - {heartbeatTimer.value};
        heartbeatTimer := None;
      }
    }

    method StartHeartbeat()
      modifies this, runtime
      ensures View() == GatewayModel.StartHeartbeat(old(View()))
    {
      StopHeartbeat();
      var id := runtime.SetInterval();
      heartbeatTimer := Some(id);
    }

    /** Handlers come off before the close, so the old socket cannot schedule a reconnect of its own. */
    method DetachSocket()
      modifies this, runtime
      ensures View() == Detach(old(View()))
    {
      if ws.None? {
        return;
      }
      var id := ws.value;
      if id in runtime.sockets {
        runtime.sockets := runtime.sockets[id := runtime.sockets[id].(attached := false)];
        runtime.Close(id);
      }
      ws := None;
    }

    method ScheduleReconnect()
      modifies this, runtime
      ensures View() == GatewayModel.ScheduleReconnect(old(View()))
    {
      if reconnectTimer.Some? {
        runtime.timeouts := runtime.timeouts - {reconnectTimer.value};
      }
      var delay := Backoff(attempts);
      attempts := attempts + 1;
      var id := runtime.SetTimeout(delay);
      reconnectTimer := Some(id);
    }

    /** Up to the ticket fetch; the rest follows when the ticket does. */
    method Connect()
      modifies this, runtime
      ensures View() == BeginConnect(old(View()))
      ensures Tidy(old(View())) ==> Tidy(View())
      ensures OneDriver(old(View())) && old(View()).browser.fetches == {} ==> OneDriver(View())
    {
      hide Tidy, OneDriver;
      StepKeeps(View(), Event.Connect);
      closedByUser := false;
      ClearReconnectTimer();
      DetachSocket();
      status := Connecting;
      var fetch := runtime.Fetch();
      begun := true;
    }

    method OnTicket(fetch: Id)
      requires Enabled(View(), TicketArrives(fetch))
      modifies this, runtime
      ensures View() == Apply(old(View()), TicketArrives(fetch))
      ensures Tidy(old(View())) ==> Tidy(View())
      ensures OneDriver(old(View())) ==> OneDriver(View())
    {
      hide Tidy, OneDriver;
      StepKeeps(View(), TicketArrives(fetch));
      runtime.fetches := runtime.fetches - {fetch};
      if closedByUser {
        return;
      }
      var id := runtime.Dial();
      ws := Some(id);
    }

    method OnTicketError(fetch: Id, unauthorized: bool)
      requires Enabled(View(), TicketFails(fetch, unauthorized))
      modifies this, runtime
      ensures View() == Apply(old(View()), TicketFails(fetch, unauthorized))
      ensures Tidy(old(View())) ==> Tidy(View())
      ensures OneDriver(old(View())) ==> OneDriver(View())
    {
      hide Tidy, OneDriver;
      StepKeeps(View(), TicketFails(fetch, unauthorized));
      runtime.fetches := runtime.fetches - {fetch};
      if unauthorized {
        status := SignedOut;
        return;
      }
      status := Disconnected;
      if !closedByUser {
        ScheduleReconnect();
      }
    }

    method OnOpen(socket: Id, now: nat)
      requires Enabled(View(), Opens(socket, now))
      modifies this, runtime
      ensures View() == Apply(old(View()), Opens(socket, now))
      ensures Tidy(old(View())) ==> Tidy(View())
      ensures OneDriver(old(View())) ==> OneDriver(View())
    {
      hide Tidy, OneDriver;
      StepKeeps(View(), Opens(socket, now));
      var attached := runtime.sockets[socket].attached;
      runtime.sockets := runtime.sockets[socket := runtime.sockets[socket].(phase := Open)];
      if attached {
        attempts, lastFrameAt, status := 0, now, Connected;
        StartHeartbeat();
      }
    }

    method OnClose(socket: Id)
      requires Enabled(View(), Closes(socket))
      modifies this, runtime
      ensures View() == Apply(old(View()), Closes(socket))
      ensures Tidy(old(View())) ==> Tidy(View())
      ensures OneDriver(old(View())) ==> OneDriver(View())
    {
      hide Tidy, OneDriver;
      StepKeeps(View(), Closes(socket));
      var attached := runtime.sockets[socket].attached;
      runtime.sockets := runtime.sockets[socket := runtime.sockets[socket].(phase := Closed)];
      if attached {
        StopHeartbeat();
        status := Disconnected;
        if !closedByUser {
          ScheduleReconnect();
        }
      }
    }

    method OnTimer(timer: Id)
      requires Enabled(View(), TimerFires(timer))
      modifies this, runtime
      ensures View() == Apply(old(View()), TimerFires(timer))
      ensures Tidy(old(View())) ==> Tidy(View())
      ensures OneDriver(old(View())) ==> OneDriver(View())
    {
      hide Tidy, OneDriver;
      StepKeeps(View(), TimerFires(timer));
      runtime.timeouts := runtime.timeouts - {timer};
      Connect();
    }

    /** A heartbeat that finds the last frame too old closes the socket; its close event schedules the reconnect. */
    method OnTick(interval: Id, now: nat)
      requires Enabled(View(), Ticks(interval, now))
      modifies this, runtime
      ensures View() == Apply(old(View()), Ticks(interval, now))
      ensures Tidy(old(View())) ==> Tidy(View())
      ensures OneDriver(old(View())) ==> OneDriver(View())
    {
      hide Tidy, OneDriver;
      StepKeeps(View(), Ticks(interval, now));
      if lastFrameAt != 0 && now > lastFrameAt + DEAD_CONNECTION_MS {
        if ws.Some? {
          runtime.Close(ws.value);
        }
      }
    }

    method Disconnect()
      modifies this, runtime
      ensures View() == Apply(old(View()), Event.Disconnect)
      ensures Tidy(old(View())) ==> Tidy(View())
      ensures OneDriver(old(View())) ==> OneDriver(View())
    {
      hide Tidy, OneDriver;
      StepKeeps(View(), Event.Disconnect);
      closedByUser := true;
      ClearReconnectTimer();
      StopHeartbeat();
      DetachSocket();
      status := Disconnected;
    }
  }

  /** What every event keeps, in the object as in the transition system. */
  lemma StepKeeps(s: State, e: Event)
    requires Enabled(s, e)
    ensures Tidy(s) ==> Tidy(Apply(s, e))
    ensures OneDriver(s) && (e.Connect? ==> s.browser.fetches == {}) ==> OneDriver(Apply(s, e))
  {
    hide Tidy, OneDriver;
    if Tidy(s) { StepTidy(s, e); }
    if OneDriver(s) && (e.Connect? ==> s.browser.fetches == {}) { StepOneDriver(s, e); }
  }
}
