/**
  `useWebSocket` (lib/websocket.ts) as a sequential, event-stepped state
  machine. The browser's single-threaded event loop delivers one event at a
  time: host calls, reconnect-timer expiries, and socket events. Every socket
  the client ever created is kept, indexed by creation order (its generation),
  because the code never detaches a socket's handlers: a late event from an
  old socket still runs the shared handlers.
 */
module WebSocketClient {
  import opened Base
  import opened JsText
  import opened Notifications

  /**
    Hook options and the environment `connect` reads. `envUrl` is
    NEXT_PUBLIC_WS_URL ("" when unset); `urlAccepted` says whether the
    WebSocket constructor accepts the resulting URL instead of throwing.
   */
  datatype Config = Config(
    userId: string,
    envUrl: string,
    pageProtocol: string,
    pageHost: string,
    urlAccepted: bool,
    reconnectInterval: int,
    maxReconnectAttempts: int)

  const DefaultReconnectInterval: int := 3000
  const DefaultMaxReconnectAttempts: int := 5

  /** The endpoint: the configured host, or ws(s)://page-host, then "/ws/" and the user id. */
  function SocketUrl(cfg: Config): (url: string)
    ensures |url| >= |cfg.userId| + 4 && url[|url| - |cfg.userId| - 4..] == "/ws/" + cfg.userId
    ensures cfg.envUrl != "" ==> StartsWith(url, cfg.envUrl)
    ensures cfg.envUrl == "" && cfg.pageProtocol == "https:" ==> StartsWith(url, "wss://" + cfg.pageHost + "/")
    ensures cfg.envUrl == "" && cfg.pageProtocol != "https:" ==> StartsWith(url, "ws://" + cfg.pageHost + "/")
    ensures cfg.envUrl != "" ==> |url| == |cfg.envUrl| + 4 + |cfg.userId|
    ensures cfg.envUrl == "" && cfg.pageProtocol == "https:" ==> |url| == 6 + |cfg.pageHost| + 4 + |cfg.userId|
    ensures cfg.envUrl == "" && cfg.pageProtocol != "https:" ==> |url| == 5 + |cfg.pageHost| + 4 + |cfg.userId|
  {
    var scheme := if cfg.pageProtocol == "https:" then "wss:" else "ws:";
    var host := if cfg.envUrl != "" then cfg.envUrl else scheme + "//" + cfg.pageHost;
    assert host + "/ws/" + cfg.userId == host + ("/ws/" + cfg.userId);
    host + "/ws/" + cfg.userId
  }

  /** Two users on the same endpoint never share a URL: the user id is recoverable from it. */
  lemma SocketUrlSeparatesUsers(cfg: Config, other: string)
    ensures SocketUrl(cfg) == SocketUrl(cfg.(userId := other)) <==> cfg.userId == other
  {
    var a, b := SocketUrl(cfg), SocketUrl(cfg.(userId := other));
    if a == b {
      assert |cfg.userId| == |other|;
      assert a[|a| - |cfg.userId| - 4..][4..] == cfg.userId;
      assert b[|b| - |other| - 4..][4..] == other;
    }
  }

  /** A page served over https with no configured URL connects to `wss://<page host>/ws/<user>`. */
  lemma SocketUrlOnSecurePage(cfg: Config)
    requires cfg.envUrl == "" && cfg.pageProtocol == "https:"
    ensures SocketUrl(cfg) == "wss://" + cfg.pageHost + "/ws/" + cfg.userId
  {
  }

  datatype ReadyState = Connecting | Open | Closing | Closed

  datatype Socket = Socket(url: string, state: ReadyState)

  /** Calls into the host's optional callbacks, in the order they happened. */
  datatype Callback = OnConnect | OnDisconnect | OnError(socket: nat) | OnNotification(n: Notification)

  /**
    `current` is wsRef.current (a generation), `attempts` is
    reconnectAttemptsRef, `pending` the armed reconnect timers, `timerRef`
    reconnectTimeoutRef (the last timer armed), `notifications` the history
    state, `sent` the frames written by `sendMessage` with their socket.
   */
  datatype Client = Client(
    sockets: seq<Socket>,
    current: Option<nat>,
    isConnected: bool,
    attempts: int,
    pending: set<nat>,
    timerRef: Option<nat>,
    nextTimer: nat,
    notifications: seq<Notification>,
    callbacks: seq<Callback>,
    sent: seq<(nat, string)>)

  /** The hook's initial state, before the mount effect calls `connect`. */
  const Fresh: Client := Client([], None, false, 0, {}, None, 0, [], [], [])

  /** How many automatic reconnects the options allow (a negative option allows none). */
  function Budget(cfg: Config): nat
  {
    Max(0, cfg.maxReconnectAttempts)
  }

  predicate Inv(cfg: Config, c: Client)
  {
    && 0 <= c.attempts <= Budget(cfg)
    && |c.notifications| <= HistoryLimit
    && (c.current.Some? ==> c.current.value < |c.sockets|)
    && (forall t :: t in c.pending ==> t < c.nextTimer)
    && (c.timerRef.Some? ==> c.timerRef.value < c.nextTimer)
  }

  /**
    `connect`: nothing without a user id or when the constructor throws;
    otherwise a new socket, made current, with no check of any existing one.
   */
  function Connect(cfg: Config, c: Client): (r: Client)
    ensures cfg.userId == "" || !cfg.urlAccepted ==> r == c
    ensures cfg.userId != "" && cfg.urlAccepted ==>
      && |r.sockets| == |c.sockets| + 1
      && r.sockets[..|c.sockets|] == c.sockets
      && r.sockets[|c.sockets|] == Socket(SocketUrl(cfg), Connecting)
      && r.current == Some(|c.sockets|)
      && r.(sockets := c.sockets, current := c.current) == c
  {
    if cfg.userId == "" || !cfg.urlAccepted then c
    else c.(sockets := c.sockets + [Socket(SocketUrl(cfg), Connecting)], current := Some(|c.sockets|))
  }

  /** `ws.onopen`: connected, counter reset, `onConnect` called. */
  function HandleOpen(c: Client, g: nat): (r: Client)
    requires g < |c.sockets|
    ensures r.isConnected && r.attempts == 0
    ensures r.sockets == c.sockets[g := c.sockets[g].(state := Open)]
    ensures r.callbacks == c.callbacks + [OnConnect]
    ensures r.pending == c.pending && r.notifications == c.notifications
  {
    c.(sockets := c.sockets[g := c.sockets[g].(state := Open)], isConnected := true, attempts := 0,
       callbacks := c.callbacks + [OnConnect])
  }

  /** `ws.onmessage`: only a delivered notification touches the history and the callbacks. */
  function HandleMessage(c: Client, frame: Parsed, now: string): (r: Client)
    ensures !Normalise(frame, now).Deliver? ==> r == c
    ensures Normalise(frame, now).Deliver? ==>
      var n := Normalise(frame, now).n;
      && r.notifications == AddToHistory(c.notifications, n)
      && r.callbacks == c.callbacks + [OnNotification(n)]
      && r.(notifications := c.notifications, callbacks := c.callbacks) == c
  {
    match Normalise(frame, now)
    case Deliver(n) => c.(notifications := AddToHistory(c.notifications, n), callbacks := c.callbacks + [OnNotification(n)])
    case _ => c
  }

  /**
    `ws.onclose`, for whichever socket closed: disconnected, `onDisconnect`
    called, and while the counter is below the maximum it is incremented and
    one more reconnect timer is armed (and remembered in the timer ref).
   */
  function HandleClose(cfg: Config, c: Client, g: nat): (r: Client)
    requires g < |c.sockets|
    ensures !r.isConnected && r.callbacks == c.callbacks + [OnDisconnect]
    ensures r.sockets == c.sockets[g := c.sockets[g].(state := Closed)]
    ensures c.attempts < cfg.maxReconnectAttempts ==>
      r.attempts == c.attempts + 1 && r.pending == c.pending + {c.nextTimer} && r.timerRef == Some(c.nextTimer)
    ensures c.attempts >= cfg.maxReconnectAttempts ==>
      r.attempts == c.attempts && r.pending == c.pending && r.timerRef == c.timerRef
  {
    var closed := c.(sockets := c.sockets[g := c.sockets[g].(state := Closed)], isConnected := false,
                     callbacks := c.callbacks + [OnDisconnect]);
    if c.attempts < cfg.maxReconnectAttempts then
      closed.(attempts := c.attempts + 1, pending := c.pending + {c.nextTimer},
              timerRef := Some(c.nextTimer), nextTimer := c.nextTimer + 1)
    else closed
  }

  /** `ws.onerror`: only `onError` is called. */
  function HandleError(c: Client, g: nat): (r: Client)
    ensures r == c.(callbacks := c.callbacks + [OnError(g)])
  {
    c.(callbacks := c.callbacks + [OnError(g)])
  }

  /** `WebSocket.close()`: a connecting or open socket starts closing; its close event comes later. */
  function CloseSocket(s: Socket): Socket
  {
    if s.state == Connecting || s.state == Open then s.(state := Closing) else s
  }

  /**
    `disconnect`: cancels only the timer in the timer ref, starts closing the
    current socket and forgets it. Its close handler stays attached.
   */
  function Disconnect(c: Client): (r: Client)
    ensures r.pending == (if c.timerRef.Some? then c.pending - {c.timerRef.value} else c.pending)
    ensures r.current == None
    ensures |r.sockets| == |c.sockets|
    ensures forall g :: 0 <= g < |c.sockets| && Some(g) != c.current ==> r.sockets[g] == c.sockets[g]
    ensures c.current.Some? && c.current.value < |c.sockets| ==>
      r.sockets[c.current.value] == CloseSocket(c.sockets[c.current.value])
    ensures r.attempts == c.attempts && r.timerRef == c.timerRef && r.isConnected == c.isConnected
  {
    var cancelled := if c.timerRef.Some? then c.pending - {c.timerRef.value} else c.pending;
    var sockets :=
      if c.current.Some? && c.current.value < |c.sockets|
      then c.sockets[c.current.value := CloseSocket(c.sockets[c.current.value])]
      else c.sockets;
    c.(pending := cancelled, sockets := sockets, current := None)
  }

  /**
    `reconnect`: disconnect, reset the counter, connect. The timer in the
    timer ref is cancelled and the previous current socket starts closing
    whether or not the new connection is made; the other sockets, the
    history and the callbacks are untouched.
   */
  function Reconnect(cfg: Config, c: Client): (r: Client)
    ensures r.attempts == 0
    ensures r.pending == (if c.timerRef.Some? then c.pending - {c.timerRef.value} else c.pending)
    ensures r.timerRef == c.timerRef && r.isConnected == c.isConnected
    ensures r.notifications == c.notifications && r.callbacks == c.callbacks && r.sent == c.sent
    ensures |r.sockets| >= |c.sockets|
    ensures forall g :: 0 <= g < |c.sockets| && Some(g) != c.current ==> r.sockets[g] == c.sockets[g]
    ensures c.current.Some? && c.current.value < |c.sockets| ==>
      r.sockets[c.current.value] == CloseSocket(c.sockets[c.current.value])
    ensures cfg.userId != "" && cfg.urlAccepted ==>
      |r.sockets| == |c.sockets| + 1 && r.current == Some(|c.sockets|) && r.sockets[|c.sockets|].state == Connecting
    ensures cfg.userId == "" || !cfg.urlAccepted ==> |r.sockets| == |c.sockets| && r.current == None
  {
    Connect(cfg, Disconnect(c).(attempts := 0))
  }

  /** The socket in wsRef.current, when it is open. */
  predicate CurrentOpen(c: Client)
  {
    c.current.Some? && c.current.value < |c.sockets| && c.sockets[c.current.value].state == Open
  }

  /** `sendMessage`: forwarded verbatim on the current socket only when it is open. */
  function SendMessage(c: Client, message: string): (r: Client)
    ensures CurrentOpen(c) ==> r == c.(sent := c.sent + [(c.current.value, message)])
    ensures !CurrentOpen(c) ==> r == c
  {
    if CurrentOpen(c) then c.(sent := c.sent + [(c.current.value, message)]) else c
  }

  /** `clearNotifications`. */
  function ClearNotifications(c: Client): (r: Client)
    ensures r.notifications == [] && r.(notifications := c.notifications) == c
  {
    c.(notifications := [])
  }

  datatype Event =
    | HostConnect
    | HostDisconnect
    | HostReconnect
    | HostSend(message: string)
    | HostClear
    | ReconnectTimer(timer: nat)
    | SocketOpen(socket: nat)
    | SocketMessage(socket: nat, frame: Parsed, now: string)
    | SocketError(socket: nat)
    | SocketClose(socket: nat)

  /** A socket that has not yet delivered its close event. */
  predicate Live(c: Client, g: nat)
  {
    g < |c.sockets| && c.sockets[g].state != Closed
  }

  /**
    One event. The browser delivers `open` only to a connecting socket,
    `message` only to an open one, `error`/`close` only before the socket is
    closed, and a timer only while it is armed; other events change nothing.
   */
  function Step(cfg: Config, c: Client, e: Event): (r: Client)
    ensures |r.sockets| >= |c.sockets|
    ensures e.HostReconnect? ==> r.attempts == 0
    ensures e.SocketMessage? && !Normalise(e.frame, e.now).Deliver? ==> r == c
  {
    match e
    case HostConnect => Connect(cfg, c)
    case HostDisconnect => Disconnect(c)
    case HostReconnect => Reconnect(cfg, c)
    case HostSend(m) => SendMessage(c, m)
    case HostClear => ClearNotifications(c)
    case ReconnectTimer(t) => if t in c.pending then Connect(cfg, c.(pending := c.pending - {t})) else c
    case SocketOpen(g) => if g < |c.sockets| && c.sockets[g].state == Connecting then HandleOpen(c, g) else c
    case SocketMessage(g, frame, now) =>
      if g < |c.sockets| && c.sockets[g].state == Open then HandleMessage(c, frame, now) else c
    case SocketError(g) => if Live(c, g) then HandleError(c, g) else c
    case SocketClose(g) => if Live(c, g) then HandleClose(cfg, c, g) else c
  }

  /** Every event keeps the counter within 0..maxReconnectAttempts and the history within 50. */
  lemma StepKeepsInv(cfg: Config, c: Client, e: Event)
    requires Inv(cfg, c)
    ensures Inv(cfg, Step(cfg, c, e))
  {
    match e
    case HostConnect =>
    case HostDisconnect =>
    case HostReconnect =>
    case HostSend(_) =>
    case HostClear =>
    case ReconnectTimer(_) =>
    case SocketOpen(_) =>
    case SocketMessage(_, _, _) =>
    case SocketError(_) =>
    case SocketClose(_) =>
  }

  /**
    The counter moves only on a close below the maximum, and then by one;
    only such a close arms a timer; at the maximum a close arms nothing.
   */
  lemma StepCounter(cfg: Config, c: Client, e: Event)
    ensures var r := Step(cfg, c, e);
      && (c.attempts >= 0 && r.attempts > c.attempts ==>
            e.SocketClose? && c.attempts < cfg.maxReconnectAttempts && r.attempts == c.attempts + 1)
      && (!(r.pending <= c.pending) ==> e.SocketClose? && c.attempts < cfg.maxReconnectAttempts)
      && (e.SocketClose? && c.attempts >= cfg.maxReconnectAttempts ==>
            r.pending == c.pending && r.attempts == c.attempts)
  {
  }

  /**
    Sockets are created only by a host `connect` or `reconnect` or by an
    armed timer, and `open` on a connecting socket connects and resets the counter.
   */
  lemma StepSockets(cfg: Config, c: Client, e: Event)
    ensures var r := Step(cfg, c, e);
      && (|r.sockets| > |c.sockets| ==>
            e.HostConnect? || e.HostReconnect? || (e.ReconnectTimer? && e.timer in c.pending))
      && (e.SocketOpen? && e.socket < |c.sockets| && c.sockets[e.socket].state == Connecting ==>
            r.isConnected && r.attempts == 0)
  {
  }

  /** Only a message or a clear touches the history, and only a send on an open socket sends. */
  lemma StepOutputs(cfg: Config, c: Client, e: Event)
    ensures var r := Step(cfg, c, e);
      && (r.notifications != c.notifications ==> e.SocketMessage? || e.HostClear?)
      && (r.sent != c.sent ==> e.HostSend? && CurrentOpen(c))
  {
  }

  function Run(cfg: Config, c: Client, events: seq<Event>): Client
    decreases |events|
  {
    if |events| == 0 then c else Run(cfg, Step(cfg, c, events[0]), events[1..])
  }

  /** Whatever happens, the counter stays within 0..maxReconnectAttempts and the history within 50. */
  lemma {:induction false} RunKeepsInv(cfg: Config, c: Client, events: seq<Event>)
    requires Inv(cfg, c)
    ensures Inv(cfg, Run(cfg, c, events))
    decreases |events|
  {
    if |events| > 0 {
      StepKeepsInv(cfg, c, events[0]);
      RunKeepsInv(cfg, Step(cfg, c, events[0]), events[1..]);
    }
  }

  /** From the hook's first render on, every reachable state keeps the invariant. */
  lemma ReachableKeepsInv(cfg: Config, events: seq<Event>)
    ensures Inv(cfg, Run(cfg, Fresh, events))
  {
    RunKeepsInv(cfg, Fresh, events);
  }

  function MessageEvents(g: nat, frames: seq<(Parsed, string)>): (es: seq<Event>)
    ensures |es| == |frames|
    decreases |frames|
  {
    if |frames| == 0 then [] else [SocketMessage(g, frames[0].0, frames[0].1)] + MessageEvents(g, frames[1..])
  }

  /** The notifications a sequence of (frame, receipt time) pairs yields, in arrival order. */
  function Delivered(frames: seq<(Parsed, string)>): seq<Notification>
    decreases |frames|
  {
    if |frames| == 0 then []
    else
      var o := Normalise(frames[0].0, frames[0].1);
      (if o.Deliver? then [o.n] else []) + Delivered(frames[1..])
  }

  function NotificationCallbacks(ns: seq<Notification>): seq<Callback>
    decreases |ns|
  {
    if |ns| == 0 then [] else [OnNotification(ns[0])] + NotificationCallbacks(ns[1..])
  }

  /**
    Frames on an open socket reach `onNotification` in arrival order, with
    heartbeats and unreadable frames left out, and the history holds them
    newest first.
   */
  lemma {:induction false} FramesDeliveredInOrder(cfg: Config, c: Client, g: nat, frames: seq<(Parsed, string)>)
    requires g < |c.sockets| && c.sockets[g].state == Open
    ensures Run(cfg, c, MessageEvents(g, frames)).callbacks == c.callbacks + NotificationCallbacks(Delivered(frames))
    ensures Run(cfg, c, MessageEvents(g, frames)).notifications == AddAllToHistory(c.notifications, Delivered(frames))
    decreases |frames|
  {
    if |frames| > 0 {
      var c1 := Step(cfg, c, SocketMessage(g, frames[0].0, frames[0].1));
      assert MessageEvents(g, frames)[1..] == MessageEvents(g, frames[1..]);
      FramesDeliveredInOrder(cfg, c1, g, frames[1..]);
      var o := Normalise(frames[0].0, frames[0].1);
      if o.Deliver? {
        assert Delivered(frames) == [o.n] + Delivered(frames[1..]);
        assert NotificationCallbacks(Delivered(frames)) == [OnNotification(o.n)] + NotificationCallbacks(Delivered(frames[1..]));
      } else {
        assert Delivered(frames) == Delivered(frames[1..]);
      }
    }
  }

  /** Nothing is left that could open a socket on its own: no armed timer, every socket closed. */
  predicate Quiescent(c: Client)
  {
    c.pending == {} && forall g :: 0 <= g < |c.sockets| ==> c.sockets[g].state == Closed
  }

  /**
    Once the budget is spent and the last socket has closed, no event other
    than a host `connect`/`reconnect` ever creates a socket again.
   */
  lemma {:induction false} QuiescentStaysQuiet(cfg: Config, c: Client, events: seq<Event>)
    requires Quiescent(c)
    requires forall i :: 0 <= i < |events| ==> !events[i].HostConnect? && !events[i].HostReconnect?
    ensures Quiescent(Run(cfg, c, events)) && Run(cfg, c, events).sockets == c.sockets
    decreases |events|
  {
    if |events| > 0 {
      var c1 := Step(cfg, c, events[0]);
      assert c1.sockets == c.sockets && Quiescent(c1) by {
        match events[0]
        case HostDisconnect =>
        case HostSend(_) =>
        case HostClear =>
        case ReconnectTimer(_) =>
        case SocketOpen(_) =>
        case SocketMessage(_, _, _) =>
        case SocketError(_) =>
        case SocketClose(_) =>
      }
      QuiescentStaysQuiet(cfg, c1, events[1..]);
    }
  }

  /** With the counter at its maximum, closing the last live socket leaves the client quiescent. */
  lemma ExhaustedCloseIsFinal(cfg: Config, c: Client, g: nat)
    requires c.attempts >= cfg.maxReconnectAttempts && c.pending == {}
    requires Live(c, g)
    requires forall h :: 0 <= h < |c.sockets| && h != g ==> c.sockets[h].state == Closed
    ensures Quiescent(Step(cfg, c, SocketClose(g)))
  {
  }

  /** After exhaustion a host `reconnect` resets the counter and starts a connecting socket. */
  lemma ReconnectLeavesExhaustion(cfg: Config, c: Client)
    requires Quiescent(c) && cfg.userId != "" && cfg.urlAccepted
    ensures var r := Step(cfg, c, HostReconnect);
      r.attempts == 0 && r.current == Some(|c.sockets|) && r.sockets[|c.sockets|].state == Connecting
  {
  }

  /**
    `disconnect` does not stop reconnection: the close it causes still runs
    the attached handler, which arms a timer while budget remains, and that
    timer then creates a new socket.
   */
  lemma DisconnectStillReconnects(cfg: Config, c: Client)
    requires Inv(cfg, c) && CurrentOpen(c)
    requires c.attempts < cfg.maxReconnectAttempts && cfg.userId != "" && cfg.urlAccepted
    ensures
      var g := c.current.value;
      var c1 := Step(cfg, c, HostDisconnect);
      var c2 := Step(cfg, c1, SocketClose(g));
      var c3 := Step(cfg, c2, ReconnectTimer(c.nextTimer));
      && c1.sockets[g].state == Closing
      && c.nextTimer in c2.pending && c2.attempts == c.attempts + 1
      && |c3.sockets| == |c.sockets| + 1 && c3.current == Some(|c.sockets|)
  {
    var g := c.current.value;
    var c1 := Step(cfg, c, HostDisconnect);
    assert c1.sockets[g] == CloseSocket(c.sockets[g]);
    assert Live(c1, g);
  }

  /** `connect` has no guard: called while connected it opens a second socket and leaves the first open. */
  lemma ConnectWhileConnected(cfg: Config, c: Client)
    requires CurrentOpen(c) && cfg.userId != "" && cfg.urlAccepted
    ensures
      var r := Step(cfg, c, HostConnect);
      |r.sockets| == |c.sockets| + 1 && r.sockets[c.current.value].state == Open
  {
  }

  /**
    A socket left behind by `reconnect` still counts: its close event
    increments the counter and arms a timer although the new socket is fine.
   */
  lemma StaleSocketCloseCounts(cfg: Config, c: Client)
    requires Inv(cfg, c) && CurrentOpen(c) && cfg.userId != "" && cfg.urlAccepted
    requires 0 < cfg.maxReconnectAttempts
    ensures
      var old_ := c.current.value;
      var c1 := Step(cfg, c, HostReconnect);
      var c2 := Step(cfg, c1, SocketClose(old_));
      && c1.current == Some(|c.sockets|) && c1.current != Some(old_)
      && c2.attempts == 1 && c.nextTimer in c2.pending
  {
    var g := c.current.value;
    var c1 := Step(cfg, c, HostReconnect);
    assert Disconnect(c).sockets[g] == CloseSocket(c.sockets[g]);
    assert c1.sockets[g] == Disconnect(c).sockets[g];
    assert Live(c1, g);
  }

  /**
    Two timers armed (by a stale socket's close and the current one's); a
    later `disconnect` cancels only the one in the timer ref, and the other
    still fires and connects.
   */
  lemma DisconnectMissesEarlierTimer(cfg: Config, c: Client, t: nat)
    requires t in c.pending && c.timerRef.Some? && c.timerRef.value != t
    requires cfg.userId != "" && cfg.urlAccepted
    ensures
      var c1 := Step(cfg, c, HostDisconnect);
      var c2 := Step(cfg, c1, ReconnectTimer(t));
      t in c1.pending && |c2.sockets| == |c.sockets| + 1
  {
  }
}
