/** The realtime connection: what keeps it alive is at any moment a ticket being fetched, a reconnect timer, or a
    socket. */
module GatewayModel {
  import opened Options

  type Id = nat

  const HEARTBEAT_MS: nat := 20_000
  const DEAD_CONNECTION_MS: nat := 2 * HEARTBEAT_MS
  const MAX_BACKOFF_MS: nat := 30_000
  const BASE_BACKOFF_MS: nat := 1_000

  datatype Phase = Dialing | Open | Closing | Closed

  /** A socket the browser knows; `attached` while it still has its handlers. */
  datatype Socket = Socket(attached: bool, phase: Phase)

  datatype Status = Connecting | Connected | Disconnected | SignedOut

  /** What the browser runs for the gateway; of a timeout, the delay it was set with, before jitter. Ids are never used
      twice. */
  datatype Browser = Browser(
    sockets: map<Id, Socket>, timeouts: map<Id, nat>, intervals: set<Id>, fetches: set<Id>, nextId: Id)

  datatype Gate = Gate(
    ws: Option<Id>, reconnectTimer: Option<Id>, heartbeatTimer: Option<Id>, lastFrameAt: nat, attempts: nat,
    closedByUser: bool, status: Status)

  /** `begun` says that `connect()` has been called at least once. */
  datatype State = State(gate: Gate, browser: Browser, begun: bool)

  datatype Event =
    | Connect
    | Disconnect
    | TicketArrives(fetch: Id)
    | TicketFails(fetch: Id, unauthorized: bool)
    | Opens(socket: Id, now: nat)
    | Frame(socket: Id, now: nat)
    | Errors(socket: Id)
    | Closes(socket: Id)
    | TimerFires(timer: Id)
    | Ticks(interval: Id, now: nat)

  const START := State(
    Gate(None, None, None, 0, 0, false, Disconnected), Browser(map[], map[], {}, {}, 0), false)

  function Held(id: Option<Id>): set<Id> { if id.Some? then {id.value} else {} }

  function ClearTimer(s: State): State {
    s.(gate := s.gate.(reconnectTimer := None),
       browser := s.browser.(timeouts := s.browser.timeouts - Held(s.gate.reconnectTimer)))
  }

  function StopHeartbeat(s: State): State {
    s.(gate := s.gate.(heartbeatTimer := None),
       browser := s.browser.(intervals := s.browser.intervals - Held(s.gate.heartbeatTimer)))
  }

  function ClosedBy(socket: Socket): Socket {
    socket.(phase := if socket.phase.Closed? then Closed else Closing)
  }

  function WithSocket(s: State, id: Id, socket: Socket): State {
    s.(browser := s.browser.(sockets := s.browser.sockets[id := socket]))
  }

  function CloseSocket(s: State, id: Id): State {
    if id in s.browser.sockets then WithSocket(s, id, ClosedBy(s.browser.sockets[id])) else s
  }

  /** Take the handlers off the current socket, then close it. */
  function Detach(s: State): State {
    if s.gate.ws.None? then s
    else
      var id := s.gate.ws.value;
      var bare := if id in s.browser.sockets
                  then WithSocket(s, id, ClosedBy(s.browser.sockets[id]).(attached := false)) else s;
      bare.(gate := bare.gate.(ws := None))
  }

  function ScheduleReconnect(s: State): State {
    var cleared := ClearTimer(s);
    var id := s.browser.nextId;
    var timeouts := cleared.browser.timeouts[id := Backoff(s.gate.attempts)];
    cleared.(gate := cleared.gate.(attempts := s.gate.attempts + 1, reconnectTimer := Some(id)),
             browser := cleared.browser.(timeouts := timeouts, nextId := id + 1))
  }

  function StartHeartbeat(s: State): State {
    var stopped := StopHeartbeat(s);
    var id := s.browser.nextId;
    stopped.(gate := stopped.gate.(heartbeatTimer := Some(id)),
             browser := stopped.browser.(intervals := stopped.browser.intervals + {id}, nextId := id + 1))
  }

  /** `connect()` up to its ticket fetch. */
  function BeginConnect(s: State): State {
    var ready := Detach(ClearTimer(s.(gate := s.gate.(closedByUser := false))));
    var id := ready.browser.nextId;
    State(ready.gate.(status := Connecting),
          ready.browser.(fetches := ready.browser.fetches + {id}, nextId := id + 1), true)
  }

  /** The connection is down: try again later unless the user hung up. */
  function Lost(s: State): State {
    var down := s.(gate := s.gate.(status := Disconnected));
    if s.gate.closedByUser then down else ScheduleReconnect(down)
  }

  predicate Enabled(s: State, e: Event) {
    match e
    case Connect => true
    case Disconnect => true
    case TicketArrives(fetch) => fetch in s.browser.fetches
    case TicketFails(fetch, _) => fetch in s.browser.fetches
    case Opens(id, _) => id in s.browser.sockets && s.browser.sockets[id].phase.Dialing?
    case Frame(id, _) => id in s.browser.sockets && s.browser.sockets[id].phase.Open?
    case Errors(id) => id in s.browser.sockets && !s.browser.sockets[id].phase.Closed?
    case Closes(id) => id in s.browser.sockets && !s.browser.sockets[id].phase.Closed?
    case TimerFires(timer) => timer in s.browser.timeouts
    case Ticks(interval, _) => interval in s.browser.intervals
  }

  function Settle(s: State, fetch: Id): State {
    s.(browser := s.browser.(fetches := s.browser.fetches - {fetch}))
  }

  function NewSocket(s: State): State {
    var id := s.browser.nextId;
    s.(gate := s.gate.(ws := Some(id)),
       browser := s.browser.(sockets := s.browser.sockets[id := Socket(true, Dialing)], nextId := id + 1))
  }

  function Apply(s: State, e: Event): State
    requires Enabled(s, e)
  {
    match e
    case Connect => BeginConnect(s)
    case Disconnect =>
      var off := Detach(StopHeartbeat(ClearTimer(s)));
      off.(gate := off.gate.(closedByUser := true, status := Disconnected))
    case TicketArrives(fetch) =>
      var settled := Settle(s, fetch);
      if s.gate.closedByUser then settled else NewSocket(settled)
    case TicketFails(fetch, unauthorized) =>
      var settled := Settle(s, fetch);
      if unauthorized then settled.(gate := settled.gate.(status := SignedOut)) else Lost(settled)
    case Opens(id, now) =>
      var answered := WithSocket(s, id, s.browser.sockets[id].(phase := Open));
      if s.browser.sockets[id].attached
      then StartHeartbeat(answered.(gate := answered.gate.(attempts := 0, lastFrameAt := now, status := Connected)))
      else answered
    case Frame(id, now) =>
      if s.browser.sockets[id].attached then s.(gate := s.gate.(lastFrameAt := now)) else s
    case Errors(id) => if s.browser.sockets[id].attached then CloseSocket(s, id) else s
    case Closes(id) =>
      var gone := WithSocket(s, id, s.browser.sockets[id].(phase := Closed));
      if s.browser.sockets[id].attached then Lost(StopHeartbeat(gone)) else gone
    case TimerFires(timer) =>
      BeginConnect(s.(browser := s.browser.(timeouts := s.browser.timeouts - {timer})))
    case Ticks(_, now) =>
      if s.gate.lastFrameAt != 0 && now > s.gate.lastFrameAt + DEAD_CONNECTION_MS && s.gate.ws.Some?
      then CloseSocket(s, s.gate.ws.value) else s
  }

  ghost predicate Legal(s: State, events: seq<Event>)
    decreases |events|
  {
    events == [] || (Enabled(s, events[0]) && Legal(Apply(s, events[0]), events[1..]))
  }

  ghost function Run(s: State, events: seq<Event>): State
    requires Legal(s, events)
    decreases |events|
  {
    if events == [] then s else Run(Apply(s, events[0]), events[1..])
  }

  /** Nobody calls `connect()` while the ticket of an earlier call is still being fetched. */
  ghost predicate Serial(s: State, events: seq<Event>)
    requires Legal(s, events)
    decreases |events|
  {
    events == [] ||
    ((events[0].Connect? ==> s.browser.fetches == {}) && Serial(Apply(s, events[0]), events[1..]))
  }

  /** Sockets that can still bring the connection up or tell that it went down. */
  function LiveSockets(s: State): set<Id> {
    set id | id in s.browser.sockets && s.browser.sockets[id].attached && !s.browser.sockets[id].phase.Closed?
  }

  /** How many things are driving the connection. */
  function Drivers(s: State): nat {
    |s.browser.fetches| + |s.browser.timeouts| + |LiveSockets(s)|
  }

  // ---- Backoff ----

  function Power(n: nat): nat { if n == 0 then 1 else 2 * Power(n - 1) }

  /** Milliseconds before the next attempt, before jitter. */
  function Backoff(attempts: nat): nat {
    var delay := BASE_BACKOFF_MS * Power(attempts);
    if delay < MAX_BACKOFF_MS then delay else MAX_BACKOFF_MS
  }

  /** Jitter keeps between seven and ten tenths of it. */
  function Jittered(attempts: nat, factor: real): real
    requires 0.7 <= factor <= 1.0
  {
    Backoff(attempts) as real * factor
  }
}
