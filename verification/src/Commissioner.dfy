/** The connected commissioner handle: the exchange loop and the session
    lifecycle.  The socket is an input: whether a handshake and each send
    succeed, and the messages that arrive before the timeout.  Message packing
    and TLV parsing are parameters, and so is the effect of relay traffic on the
    joiner sessions. */
module CommissionerClient {
  import opened Bytes
  import opened Coap

  const DEFAULT_MM_PORT: U16 := 61631
  const MAX_TLV_LENGTH: nat := 0xffff

  datatype State = Disabled | Connected | Petitioning | Active

  datatype Verdict = Accept | Pending | Reject

  datatype UdpRx = UdpRx(source: Bytes, sourcePort: U16, destinationPort: U16, payload: Bytes)

  datatype Notification =
    | DatasetChange
    | DiagGetAnswer(data: Bytes)
    | PanIdReport(channelMask: nat, panId: U16)
    | EnergyScan(channelMask: nat, energyList: Bytes)
    | RelayRx(udpPort: U16, routerLocator: U16, iid: Bytes, payload: Bytes)

  datatype Event =
    | DatasetChanged
    | DiagnosticAnswer(peer: Bytes, data: Bytes)
    | PanIdConflict(peer: Bytes, channelMask: nat, panId: U16)
    | EnergyReport(peer: Bytes, channelMask: nat, energyList: Bytes)
    | JoinerMessage(joinerId: Bytes, port: U16, payload: Bytes)
    | JoinerProgress(joinerId: Bytes, finalized: Option<bool>)
    | KeepAliveResponse(verdict: Verdict)

  datatype PetitionAnswer = PetitionAnswer(verdict: Verdict, sessionId: Option<U16>)

  datatype Env = Env(
    borderAgent: Bytes,
    udpRx: CoapMessage -> Result<Option<UdpRx>>,
    udpTx: (U16, Bytes, Bytes, U16, Bytes) -> Result<CoapMessage>,
    notification: CoapMessage -> Result<Option<Notification>>,
    request: (Purpose, U16, Bytes) -> CoapMessage,
    petitionAnswer: CoapMessage -> Result<PetitionAnswer>,
    stateTlv: CoapMessage -> Result<Option<Verdict>>,
    meshLocalPrefix: Bytes -> Result<Option<Bytes>>)

  datatype Purpose = PetitionFor(commissionerId: Bytes) | KeepAliveFor(sessionId: U16, keep: bool) | DatasetFor

  /** What handling one relayed joiner datagram did. */
  datatype Relay = Relay(
    events: seq<Event>, sent: seq<CoapMessage>, nextMessageId: U16, sessions: set<Bytes>, error: Option<Error>)

  /** A received datagram, whether an answer to it can be sent, and the effect
      of handing it to the joiner relay, should that happen. */
  datatype Arrival = Arrival(wire: Bytes, sends: bool, relay: Relay)

  datatype Io = Io(connects: bool, sends: bool, arrivals: seq<Arrival>)

  datatype Route = Direct | Proxied(destination: Bytes, port: U16)

  datatype Kind = Request | Acknowledge | RelayTx

  /** A message sent, and how many messages had arrived by then. */
  datatype Sent = Sent(kind: Kind, at: nat, message: CoapMessage)

  /** `sent`, `arrived`, `changedAt` and `prefixAt` are history: everything
      sent, the number of messages received, and the arrivals that last announced
      a dataset change and that supplied the cached prefix. */
  datatype Handle = Handle(
    commissionerId: Bytes, state: State, sessionId: Option<U16>, dtls: bool, nextMessageId: U16, events: seq<Event>,
    prefix: Option<Bytes>, handler: bool, joinerSessions: set<Bytes>,
    sent: seq<Sent>, arrived: nat, changedAt: nat, prefixAt: nat)
  {
    function Queue(e: Event): Handle { this.(events := events + [e]) }

    function Log(kind: Kind, m: CoapMessage): Handle { this.(sent := sent + [Sent(kind, arrived, m)]) }
  }

  function Connect(commissionerId: Bytes): Handle {
    Handle(commissionerId, Connected, None, false, 0, [], None, false, {}, [], 0, 0, 0)
  }

  // ----- Sending

  function NextIdentity(h: Handle): Handle {
    h.(nextMessageId := (h.nextMessageId + 1) % 0x1_0000)
  }

  function Token(h: Handle): Bytes { BigEndian(h.nextMessageId, 2) }

  function SendWire(h: Handle, kind: Kind, m: CoapMessage, sends: bool): (Handle, Result<()>) {
    if Encode(m).Err? then (h, Err(Encode(m).error))
    else if !h.dtls then (h, Err(InvalidState))
    else if !sends then (h, Err(Transport))
    else (h.Log(kind, m), Ok(()))
  }

  function AckIfConfirmable(h: Handle, m: CoapMessage, sends: bool): (Handle, Result<()>) {
    if m.ty.Confirmable? then SendWire(h, Acknowledge, EmptyAck(m.messageId), sends) else (h, Ok(()))
  }

  /** The acknowledgement travels back through the UDP proxy. */
  function SendProxiedAck(env: Env, h: Handle, response: CoapMessage, from: UdpRx, sends: bool): (Handle, Result<()>) {
    match Encode(response)
    case Err(e) => (h, Err(e))
    case Ok(inner) =>
      var g := NextIdentity(h);
      match env.udpTx(g.nextMessageId, Token(g), from.source, from.sourcePort, inner)
      case Err(e) => (g, Err(e))
      case Ok(m) => SendWire(g, Acknowledge, m, sends)
  }

  function EmptyChangedResponse(request: CoapMessage): CoapMessage {
    CoapMessage(Acknowledgement, CHANGED, request.messageId, request.token, [], [])
  }

  // ----- Routing

  function ToEvent(n: Notification, peer: Bytes): Event {
    match n
    case DatasetChange => DatasetChanged
    case DiagGetAnswer(data) => DiagnosticAnswer(peer, data)
    case PanIdReport(mask, panId) => PanIdConflict(peer, mask, panId)
    case EnergyScan(mask, list) => EnergyReport(peer, mask, list)
    case RelayRx(port, _, iid, payload) => JoinerMessage(iid, port, payload)
  }

  /** A dataset change may move the prefix, so the cached one is dropped. */
  function Announce(h: Handle, n: Notification, peer: Bytes): Handle {
    var g := if n.DatasetChange? then h.(prefix := None, changedAt := h.arrived) else h;
    g.Queue(ToEvent(n, peer))
  }

  function LogAll(h: Handle, ms: seq<CoapMessage>): Handle
    decreases |ms|
  {
    if ms == [] then h else LogAll(h.Log(RelayTx, ms[0]), ms[1..])
  }

  function HandleRelay(h: Handle, r: Relay): (Handle, Result<()>) {
    var g := LogAll(h.(events := h.events + r.events, nextMessageId := r.nextMessageId, joinerSessions := r.sessions), r.sent);
    (g, match r.error case None => Ok(()) case Some(e) => Err(e))
  }

  function RouteDirect(env: Env, h: Handle, m: CoapMessage, a: Arrival): (Handle, Result<bool>) {
    match env.notification(m)
    case Err(e) => (h, Err(e))
    case Ok(None) => (h, Ok(false))
    case Ok(Some(n)) =>
      if n.RelayRx? && h.handler then
        var (g, r) := HandleRelay(h, a.relay);
        (g, if r.Err? then Err(r.error) else Ok(true))
      else (Announce(h, n, env.borderAgent), Ok(true))
  }

  function RouteProxied(env: Env, h: Handle, m: CoapMessage, from: UdpRx, a: Arrival): (Handle, Result<bool>) {
    match env.notification(m)
    case Err(e) => (h, Err(e))
    case Ok(None) => (h, Ok(false))
    case Ok(Some(n)) =>
      var g := Announce(h, n, from.source);
      if m.ty.Confirmable? then
        var (k, r) := SendProxiedAck(env, g, EmptyChangedResponse(m), from, a.sends);
        (k, if r.Err? then Err(r.error) else Ok(true))
      else (g, Ok(true))
  }

  /** Whether a presented message answers the request. */
  predicate Answers(request: CoapMessage, m: CoapMessage) {
    !IsEmptyAckFor(m, request.messageId) && m.token == request.token
  }

  function HandleProxied(env: Env, h: Handle, expected: Option<CoapMessage>, m: CoapMessage, from: UdpRx, a: Arrival):
    (Handle, Result<Option<CoapMessage>>)
  {
    if expected.Some? && IsEmptyAckFor(m, expected.value.messageId) then (h, Ok(None))
    else if expected.Some? && m.token == expected.value.token then
      if m.ty.Confirmable? then
        var (g, r) := SendProxiedAck(env, h, EmptyAck(m.messageId), from, a.sends);
        (g, if r.Err? then Err(r.error) else Ok(Some(m)))
      else (h, Ok(Some(m)))
    else
      var (g, r) := RouteProxied(env, h, m, from, a);
      (g, if r.Err? then Err(r.error) else Ok(None))
  }

  function HandleDirect(env: Env, h: Handle, expected: Option<CoapMessage>, m: CoapMessage, a: Arrival):
    (Handle, Result<Option<CoapMessage>>)
  {
    if expected.Some? && IsEmptyAckFor(m, expected.value.messageId) then (h, Ok(None))
    else if expected.Some? && m.token == expected.value.token then
      var (g, r) := AckIfConfirmable(h, m, a.sends);
      (g, if r.Err? then Err(r.error) else Ok(Some(m)))
    else
      var (g, routed) := RouteDirect(env, h, m, a);
      if routed.Err? then (g, Err(routed.error))
      else if routed.value then
        var (k, r) := AckIfConfirmable(g, m, a.sends);
        (k, if r.Err? then Err(r.error) else Ok(None))
      else (g, if expected.Some? then Err(InvalidState) else Ok(None))
  }

  /** What a received message presents to the exchange: itself, the message it
      encapsulates, or nothing. */
  datatype Presented = Nothing | Itself(message: CoapMessage) | Inner(message: CoapMessage, from: UdpRx)

  function Present(env: Env, m: CoapMessage): Presented {
    match env.udpRx(m)
    case Err(_) => Nothing
    case Ok(None) => Itself(m)
    case Ok(Some(u)) =>
      if u.destinationPort != DEFAULT_MM_PORT then Nothing
      else
        match Decode(u.payload)
        case Err(_) => Nothing
        case Ok(inner) => Inner(inner, u)
  }

  function HandleIncoming(env: Env, h: Handle, expected: Option<CoapMessage>, m: CoapMessage, a: Arrival):
    (Handle, Result<Option<CoapMessage>>)
  {
    match Present(env, m)
    case Nothing => (h, Ok(None))
    case Inner(inner, from) => HandleProxied(env, h, expected, inner, from, a)
    case Itself(_) => HandleDirect(env, h, expected, m, a)
  }

  /** Waits for the response: the messages that arrive before the timeout. */
  function Exchange(env: Env, h: Handle, request: CoapMessage, arrivals: seq<Arrival>): (Handle, Result<CoapMessage>)
    decreases |arrivals|
  {
    if arrivals == [] then (h, Err(Timeout))
    else
      var g := h.(arrived := h.arrived + 1);
      match Decode(arrivals[0].wire)
      case Err(e) => (g, Err(e))
      case Ok(m) =>
        var (k, r) := HandleIncoming(env, g, Some(request), m, arrivals[0]);
        match r
        case Err(e) => (k, Err(e))
        case Ok(Some(response)) => (k, Ok(response))
        case Ok(None) => Exchange(env, k, request, arrivals[1..])
  }

  function Wrap(env: Env, h: Handle, request: CoapMessage, route: Route): (Handle, Result<CoapMessage>) {
    match route
    case Direct => (h, Ok(request))
    case Proxied(destination, port) =>
      match Encode(request)
      case Err(e) => (h, Err(e))
      case Ok(inner) =>
        var g := NextIdentity(h);
        (g, env.udpTx(g.nextMessageId, Token(g), destination, port, inner))
  }

  /** Establishes the session if need be and sends the request. */
  function SendRequest(env: Env, h: Handle, request: CoapMessage, route: Route, io: Io): (Handle, Result<()>) {
    var (g, wrapped) := Wrap(env, h, request, route);
    if wrapped.Err? then (g, Err(wrapped.error))
    else if !g.dtls && !io.connects then (g, Err(Timeout))
    else SendWire(g.(dtls := true), Request, wrapped.value, io.sends)
  }

  function Execute(env: Env, h: Handle, request: CoapMessage, route: Route, wait: bool, io: Io):
    (Handle, Result<Option<CoapMessage>>)
  {
    if h.state.Disabled? then (h, Err(InvalidState))
    else
      var (g, sent) := SendRequest(env, h, request, route, io);
      if sent.Err? then (g, Err(sent.error))
      else if !wait then (g, Ok(None))
      else
        var (k, r) := Exchange(env, g, request, io.arrivals);
        (k, if r.Err? then Err(r.error) else Ok(Some(r.value)))
  }

  /** A direct exchange; 4.xx and 5.xx responses are errors. */
  function ExecuteMeshcop(env: Env, h: Handle, request: CoapMessage, io: Io): (Handle, Result<CoapMessage>) {
    var (g, r) := Execute(env, h, request, Direct, true, io);
    (g, match r
        case Err(e) => Err(e)
        case Ok(None) => Err(InvalidState)
        case Ok(Some(m)) => if m.code / 32 == 4 || m.code / 32 == 5 then Err(InvalidState) else Ok(m))
  }

  // ----- The lifecycle

  /** The petition carries the commissioner ID in one TLV. */
  function PetitionRequest(env: Env, h: Handle): Result<CoapMessage> {
    if |h.commissionerId| > MAX_TLV_LENGTH then Err(Tlv)
    else Ok(env.request(PetitionFor(h.commissionerId), h.nextMessageId, Token(h)))
  }

  function Petition(env: Env, h: Handle, io: Io): (Handle, Result<U16>) {
    if !h.state.Connected? then (h, Err(InvalidState))
    else
      var g := NextIdentity(h.(state := Petitioning));
      match PetitionRequest(env, g)
      case Err(e) => (g, Err(e))
      case Ok(request) =>
        var (k, r) := ExecuteMeshcop(env, g, request, io);
        match r
        case Err(e) => (k.(state := Connected), Err(e))
        case Ok(response) =>
          match env.petitionAnswer(response)
          case Err(e) => (k.(state := Connected), Err(e))
          case Ok(PetitionAnswer(Accept, Some(id))) => (k.(sessionId := Some(id), state := Active), Ok(id))
          case Ok(PetitionAnswer(Reject, _)) => (k.(state := Connected), Err(PetitionRejected))
          case Ok(_) => (k.(state := Connected), Err(InvalidState))
  }

  function KeepAlive(env: Env, h: Handle, io: Io): (Handle, Result<Verdict>) {
    if h.sessionId.None? then (h, Err(InvalidState))
    else
      var g := NextIdentity(h);
      var (k, r) := ExecuteMeshcop(env, g, env.request(KeepAliveFor(h.sessionId.value, true), g.nextMessageId, Token(g)), io);
      match r
      case Err(e) => (k, Err(e))
      case Ok(response) =>
        match env.stateTlv(response)
        case Err(e) => (k, Err(e))
        case Ok(None) => (k, Err(InvalidState))
        case Ok(Some(verdict)) =>
          var l := k.Queue(KeepAliveResponse(verdict));
          (if verdict.Reject? then l.(state := Connected, sessionId := None) else l, Ok(verdict))
  }

  function Disconnect(h: Handle): Handle {
    h.(state := Disabled, sessionId := None, dtls := false, prefix := None, joinerSessions := {})
  }

  function Resign(env: Env, h: Handle, io: Io): (Handle, Result<()>) {
    if h.sessionId.None? then (h, Err(InvalidState))
    else
      var g := NextIdentity(h);
      var (k, r) := ExecuteMeshcop(env, g, env.request(KeepAliveFor(h.sessionId.value, false), g.nextMessageId, Token(g)), io);
      match r
      case Err(e) => (k, Err(e))
      case Ok(response) =>
        match env.stateTlv(response)
        case Err(e) => (k, Err(e))
        case Ok(Some(Pending)) => (k, Err(InvalidState))
        case Ok(_) => (Disconnect(k), Ok(()))
  }

  /** The cached prefix, or the one in the active dataset. */
  function RequirePrefix(env: Env, h: Handle, io: Io): (Handle, Result<Bytes>) {
    if h.prefix.Some? then (h, Ok(h.prefix.value))
    else
      var g := NextIdentity(h);
      var (k, r) := ExecuteMeshcop(env, g, env.request(DatasetFor, g.nextMessageId, Token(g)), io);
      match r
      case Err(e) => (k, Err(e))
      case Ok(response) =>
        match env.meshLocalPrefix(response.payload)
        case Err(e) => (k, Err(e))
        case Ok(None) => (k, Err(InvalidState))
        case Ok(Some(prefix)) =>
          if |prefix| != 8 || prefix[0] != 0xfd then (k, Err(Dataset))
          else (k.(prefix := Some(prefix), prefixAt := k.arrived), Ok(prefix))
  }

  /** Reads messages until one queues an event. */
  function AwaitEvent(env: Env, h: Handle, arrivals: seq<Arrival>): (Handle, Result<Event>)
    decreases |arrivals|
  {
    if arrivals == [] then (h, Err(Timeout))
    else
      var g := h.(arrived := h.arrived + 1);
      match Decode(arrivals[0].wire)
      case Err(e) => (g, Err(e))
      case Ok(m) =>
        var (k, r) := HandleIncoming(env, g, None, m, arrivals[0]);
        if r.Err? then (k, Err(r.error))
        else if k.events != [] then (k.(events := k.events[1..]), Ok(k.events[0]))
        else AwaitEvent(env, k, arrivals[1..])
  }

  function NextEvent(env: Env, h: Handle, io: Io): (Handle, Result<Event>) {
    if h.events != [] then (h.(events := h.events[1..]), Ok(h.events[0]))
    else if !h.dtls then (h, Err(InvalidState))
    else AwaitEvent(env, h, io.arrivals)
  }

  /** Any other request: `build` packs it for the fresh message ID. */
  function Operate(env: Env, h: Handle, build: (U16, Bytes) -> Result<CoapMessage>, route: Route, wait: bool, io: Io):
    (Handle, Result<Option<CoapMessage>>)
  {
    var g := NextIdentity(h);
    match build(g.nextMessageId, Token(g))
    case Err(e) => (g, Err(e))
    case Ok(request) => Execute(env, g, request, route, wait, io)
  }

  /** The calls a client makes on its handle; a call through an anycast address
      is `FetchPrefix` and then `Operation`. */
  datatype Call =
    | SetJoinerHandler
    | ClearJoinerHandler
    | MakePetition(io: Io)
    | SendKeepAlive(io: Io)
    | MakeResign(io: Io)
    | FetchPrefix(io: Io)
    | TakeEvent(io: Io)
    | Operation(build: (U16, Bytes) -> Result<CoapMessage>, route: Route, wait: bool, io: Io)
    | MakeDisconnect

  function After(env: Env, h: Handle, call: Call): Handle {
    match call
    case SetJoinerHandler => h.(handler := true)
    case ClearJoinerHandler => h.(handler := false, joinerSessions := {})
    case MakePetition(io) => Petition(env, h, io).0
    case SendKeepAlive(io) => KeepAlive(env, h, io).0
    case MakeResign(io) => Resign(env, h, io).0
    case FetchPrefix(io) => RequirePrefix(env, h, io).0
    case TakeEvent(io) => NextEvent(env, h, io).0
    case Operation(build, route, wait, io) => Operate(env, h, build, route, wait, io).0
    case MakeDisconnect => Disconnect(h)
  }

  function AfterAll(env: Env, h: Handle, calls: seq<Call>): Handle {
    if calls == [] then h else After(env, AfterAll(env, h, calls[..|calls| - 1]), calls[|calls| - 1])
  }
}
