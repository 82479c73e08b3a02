/** The commissioner lifecycle over every sequence of calls. */
module Lifecycle {
  import opened Bytes
  import opened Coap
  import opened CommissionerClient

  /** The cached prefix is mesh-local and came with an arrival after the last
      routed dataset change. */
  predicate PrefixFresh(h: Handle) {
    && h.changedAt <= h.arrived && h.prefixAt <= h.arrived
    && (h.prefix.Some? ==> |h.prefix.value| == 8 && h.prefix.value[0] == 0xfd && h.changedAt < h.prefixAt)
  }

  predicate Consistent(h: Handle) {
    && (h.sessionId.Some? <==> h.state.Active?)
    && (h.state.Disabled? ==> !h.dtls && h.prefix.None? && h.joinerSessions == {})
    && (h.state.Petitioning? ==> |h.commissionerId| > MAX_TLV_LENGTH)
    && PrefixFresh(h)
  }

  /** What traffic cannot change. */
  predicate SameSession(h: Handle, k: Handle) {
    && k.commissionerId == h.commissionerId && k.state == h.state && k.sessionId == h.sessionId
    && k.dtls == h.dtls && k.handler == h.handler
  }

  /** Traffic drops the cached prefix or leaves it alone. */
  predicate Traffic(h: Handle, k: Handle) {
    && SameSession(h, k) && h.arrived <= k.arrived && k.prefixAt == h.prefixAt
    && (|| (k.prefix == h.prefix && k.changedAt == h.changedAt)
        || (k.prefix.None? && k.changedAt <= k.arrived))
  }

  lemma TrafficFresh(h: Handle, k: Handle)
    requires Traffic(h, k) && PrefixFresh(h)
    ensures PrefixFresh(k)
  {
  }

  lemma TrafficTransitive(h: Handle, k: Handle, l: Handle)
    requires Traffic(h, k) && Traffic(k, l) && PrefixFresh(h)
    ensures Traffic(h, l)
  {
  }

  // ----- Handling one message

  lemma ProxiedAckTraffic(env: Env, h: Handle, response: CoapMessage, from: UdpRx, sends: bool)
    ensures var k := SendProxiedAck(env, h, response, from, sends).0;
            k == h.(nextMessageId := k.nextMessageId, sent := k.sent)
  {
    hide Encode, BigEndian;
  }

  lemma {:induction false} LogAllTraffic(h: Handle, ms: seq<CoapMessage>)
    ensures LogAll(h, ms) == h.(sent := LogAll(h, ms).sent)
    decreases |ms|
  {
    if ms != [] {
      LogAllTraffic(h.Log(RelayTx, ms[0]), ms[1..]);
    }
  }

  lemma RoutedTraffic(env: Env, h: Handle, m: CoapMessage, a: Arrival)
    ensures Traffic(h, RouteDirect(env, h, m, a).0)
  {
    hide LogAll;
    LogAllTraffic(h.(events := h.events + a.relay.events, nextMessageId := a.relay.nextMessageId,
                     joinerSessions := a.relay.sessions), a.relay.sent);
  }

  lemma AckTraffic(h: Handle, m: CoapMessage, sends: bool)
    ensures var k := AckIfConfirmable(h, m, sends).0; k == h.(sent := k.sent)
  {
    hide Encode;
  }

  lemma DirectTraffic(env: Env, h: Handle, expected: Option<CoapMessage>, m: CoapMessage, a: Arrival)
    ensures Traffic(h, HandleDirect(env, h, expected, m, a).0)
    ensures var (k, r) := HandleDirect(env, h, expected, m, a); r.Ok? && r.value.Some? ==> k.changedAt == h.changedAt
  {
    hide AckIfConfirmable, RouteDirect;
    RoutedTraffic(env, h, m, a);
    AckTraffic(h, m, a.sends);
    AckTraffic(RouteDirect(env, h, m, a).0, m, a.sends);
  }

  lemma ProxiedTraffic(env: Env, h: Handle, expected: Option<CoapMessage>, m: CoapMessage, from: UdpRx, a: Arrival)
    ensures Traffic(h, HandleProxied(env, h, expected, m, from, a).0)
    ensures var (k, r) := HandleProxied(env, h, expected, m, from, a);
            r.Ok? && r.value.Some? ==> k.changedAt == h.changedAt
  {
    hide SendProxiedAck;
    ProxiedAckTraffic(env, h, EmptyAck(m.messageId), from, a.sends);
    match env.notification(m) {
      case Ok(Some(n)) =>
        ProxiedAckTraffic(env, Announce(h, n, from.source), EmptyChangedResponse(m), from, a.sends);
      case _ =>
    }
  }

  lemma IncomingTraffic(env: Env, h: Handle, expected: Option<CoapMessage>, m: CoapMessage, a: Arrival)
    ensures Traffic(h, HandleIncoming(env, h, expected, m, a).0)
    ensures var (k, r) := HandleIncoming(env, h, expected, m, a); r.Ok? && r.value.Some? ==> k.changedAt == h.changedAt
    ensures HandleIncoming(env, h, expected, m, a).0.arrived == h.arrived
  {
    hide HandleDirect, HandleProxied, Traffic;
    match Present(env, m)
    case Nothing => assert Traffic(h, h) by { SelfTraffic(h); }
    case Inner(inner, from) =>
      ProxiedTraffic(env, h, expected, inner, from, a);
      ProxiedArrived(env, h, expected, inner, from, a);
    case Itself(_) =>
      DirectTraffic(env, h, expected, m, a);
      DirectArrived(env, h, expected, m, a);
  }

  lemma SelfTraffic(h: Handle)
    ensures Traffic(h, h)
  {
  }

  lemma DirectArrived(env: Env, h: Handle, expected: Option<CoapMessage>, m: CoapMessage, a: Arrival)
    ensures HandleDirect(env, h, expected, m, a).0.arrived == h.arrived
  {
    hide Encode, LogAll;
    LogAllTraffic(h.(events := h.events + a.relay.events, nextMessageId := a.relay.nextMessageId,
                     joinerSessions := a.relay.sessions), a.relay.sent);
  }

  lemma ProxiedArrived(env: Env, h: Handle, expected: Option<CoapMessage>, m: CoapMessage, from: UdpRx, a: Arrival)
    ensures HandleProxied(env, h, expected, m, from, a).0.arrived == h.arrived
  {
    hide SendProxiedAck;
    ProxiedAckTraffic(env, h, EmptyAck(m.messageId), from, a.sends);
    match env.notification(m) {
      case Ok(Some(n)) =>
        ProxiedAckTraffic(env, Announce(h, n, from.source), EmptyChangedResponse(m), from, a.sends);
      case _ =>
    }
  }

  // ----- Whole exchanges

  /** A response arrives after every dataset change routed before it. */
  lemma {:induction false} ExchangeTraffic(env: Env, h: Handle, request: CoapMessage, arrivals: seq<Arrival>)
    requires PrefixFresh(h)
    ensures var (k, r) := Exchange(env, h, request, arrivals);
            Traffic(h, k) && (r.Ok? ==> k.changedAt < k.arrived)
    decreases |arrivals|
  {
    hide HandleIncoming, Decode;
    if arrivals != [] && Decode(arrivals[0].wire).Ok? {
      var g, m := h.(arrived := h.arrived + 1), Decode(arrivals[0].wire).value;
      IncomingTraffic(env, g, Some(request), m, arrivals[0]);
      var (k, r) := HandleIncoming(env, g, Some(request), m, arrivals[0]);
      if r == Ok(None) {
        TrafficFresh(g, k);
        ExchangeTraffic(env, k, request, arrivals[1..]);
        TrafficTransitive(g, k, Exchange(env, k, request, arrivals[1..]).0);
      }
    }
  }

  lemma {:induction false} AwaitTraffic(env: Env, h: Handle, arrivals: seq<Arrival>)
    requires PrefixFresh(h)
    ensures Traffic(h, AwaitEvent(env, h, arrivals).0)
    decreases |arrivals|
  {
    hide HandleIncoming, Decode;
    if arrivals != [] && Decode(arrivals[0].wire).Ok? {
      var g, m := h.(arrived := h.arrived + 1), Decode(arrivals[0].wire).value;
      IncomingTraffic(env, g, None, m, arrivals[0]);
      var (k, r) := HandleIncoming(env, g, None, m, arrivals[0]);
      if r.Ok? && k.events == [] {
        TrafficFresh(g, k);
        AwaitTraffic(env, k, arrivals[1..]);
        TrafficTransitive(g, k, AwaitEvent(env, k, arrivals[1..]).0);
      }
    }
  }

  /** An exchange may also establish the DTLS session; on a disabled handle it
      does nothing. */
  lemma ExecuteTraffic(env: Env, h: Handle, request: CoapMessage, route: Route, wait: bool, io: Io)
    requires PrefixFresh(h)
    ensures var (k, r) := Execute(env, h, request, route, wait, io);
            && Traffic(h.(dtls := k.dtls), k)
            && (h.state.Disabled? ==> k == h && r.Err?)
            && (r.Ok? && r.value.Some? ==> k.changedAt < k.arrived)
  {
    hide SendRequest, Exchange;
    SendTraffic(env, h, request, route, io);
    var (g, sent) := SendRequest(env, h, request, route, io);
    ExchangeTraffic(env, g, request, io.arrivals);
    TrafficTransitive(h.(dtls := g.dtls), g, Exchange(env, g, request, io.arrivals).0);
  }

  lemma SendTraffic(env: Env, h: Handle, request: CoapMessage, route: Route, io: Io)
    requires PrefixFresh(h)
    ensures var k := SendRequest(env, h, request, route, io).0;
            k == h.(dtls := k.dtls, nextMessageId := k.nextMessageId, sent := k.sent)
    ensures PrefixFresh(SendRequest(env, h, request, route, io).0)
  {
    hide Encode, BigEndian;
  }

  lemma MeshcopTraffic(env: Env, h: Handle, request: CoapMessage, io: Io)
    requires PrefixFresh(h)
    ensures var (k, r) := ExecuteMeshcop(env, h, request, io);
            && Traffic(h.(dtls := k.dtls), k)
            && (h.state.Disabled? ==> k == h && r.Err?)
            && (r.Ok? ==> k.changedAt < k.arrived)
  {
    hide Execute;
    ExecuteTraffic(env, h, request, Direct, true, io);
    var (k, r) := Execute(env, h, request, Direct, true, io);
    assert ExecuteMeshcop(env, h, request, io).0 == k;
    assert ExecuteMeshcop(env, h, request, io).1.Ok? ==> r.Ok? && r.value.Some?;
  }

  // ----- Every call keeps the handle consistent

  lemma PetitionKeeps(env: Env, h: Handle, io: Io)
    requires Consistent(h)
    ensures Consistent(Petition(env, h, io).0)
  {
    hide ExecuteMeshcop, BigEndian;
    if h.state.Connected? {
      var g := NextIdentity(h.(state := Petitioning));
      match PetitionRequest(env, g)
      case Err(_) =>
      case Ok(request) => MeshcopTraffic(env, g, request, io);
    }
  }

  lemma KeepAliveKeeps(env: Env, h: Handle, io: Io)
    requires Consistent(h)
    ensures Consistent(KeepAlive(env, h, io).0)
  {
    hide ExecuteMeshcop, BigEndian;
    if h.sessionId.Some? {
      var g := NextIdentity(h);
      MeshcopTraffic(env, g, env.request(KeepAliveFor(h.sessionId.value, true), g.nextMessageId, Token(g)), io);
    }
  }

  lemma ResignKeeps(env: Env, h: Handle, io: Io)
    requires Consistent(h)
    ensures Consistent(Resign(env, h, io).0)
  {
    hide ExecuteMeshcop, BigEndian;
    if h.sessionId.Some? {
      var g := NextIdentity(h);
      MeshcopTraffic(env, g, env.request(KeepAliveFor(h.sessionId.value, false), g.nextMessageId, Token(g)), io);
    }
  }

  lemma PrefixKeeps(env: Env, h: Handle, io: Io)
    requires Consistent(h)
    ensures Consistent(RequirePrefix(env, h, io).0)
  {
    hide ExecuteMeshcop, BigEndian;
    if h.prefix.None? {
      var g := NextIdentity(h);
      MeshcopTraffic(env, g, env.request(DatasetFor, g.nextMessageId, Token(g)), io);
    }
  }

  lemma EventKeeps(env: Env, h: Handle, io: Io)
    requires Consistent(h)
    ensures Consistent(NextEvent(env, h, io).0)
  {
    hide AwaitEvent;
    AwaitTraffic(env, h, io.arrivals);
  }

  lemma OperationKeeps(env: Env, h: Handle, build: (U16, Bytes) -> Result<CoapMessage>, route: Route, wait: bool, io: Io)
    requires Consistent(h)
    ensures Consistent(Operate(env, h, build, route, wait, io).0)
  {
    hide Execute, BigEndian;
    var g := NextIdentity(h);
    match build(g.nextMessageId, Token(g))
    case Err(_) =>
    case Ok(request) => ExecuteTraffic(env, g, request, route, wait, io);
  }

  lemma CallKeeps(env: Env, h: Handle, call: Call)
    requires Consistent(h)
    ensures Consistent(After(env, h, call))
  {
    hide Petition, KeepAlive, Resign, RequirePrefix, NextEvent, Operate;
    match call
    case MakePetition(io) => PetitionKeeps(env, h, io);
    case SendKeepAlive(io) => KeepAliveKeeps(env, h, io);
    case MakeResign(io) => ResignKeeps(env, h, io);
    case FetchPrefix(io) => PrefixKeeps(env, h, io);
    case TakeEvent(io) => EventKeeps(env, h, io);
    case Operation(build, route, wait, io) => OperationKeeps(env, h, build, route, wait, io);
    case _ =>
  }

  /** After any calls: a session ID is held exactly while Active; a disabled
      handle keeps no DTLS session, prefix or joiner session; a cached prefix is
      in fd00::/8 and newer than the last routed dataset change. */
  lemma {:induction false} AlwaysConsistent(env: Env, id: Bytes, calls: seq<Call>)
    ensures Consistent(AfterAll(env, Connect(id), calls))
    ensures AfterAll(env, Connect(id), calls).commissionerId == id
  {
    hide After, Consistent;
    if calls == [] {
      assert Consistent(Connect(id)) by { ConnectIsConsistent(id); }
    } else {
      var n := |calls| - 1;
      AlwaysConsistent(env, id, calls[..n]);
      var h := AfterAll(env, Connect(id), calls[..n]);
      CallKeeps(env, h, calls[n]);
      CallKeepsId(env, h, calls[n]);
    }
  }

  lemma ConnectIsConsistent(id: Bytes)
    ensures Consistent(Connect(id))
  {
  }

  lemma CallKeepsId(env: Env, h: Handle, call: Call)
    requires Consistent(h)
    ensures After(env, h, call).commissionerId == h.commissionerId
  {
    hide ExecuteMeshcop, Execute, AwaitEvent, BigEndian;
    match call
    case MakePetition(io) =>
      if h.state.Connected? {
        var g := NextIdentity(h.(state := Petitioning));
        match PetitionRequest(env, g) {
          case Err(_) =>
          case Ok(request) => MeshcopTraffic(env, g, request, io);
        }
      }
    case SendKeepAlive(io) =>
      if h.sessionId.Some? {
        var g := NextIdentity(h);
        MeshcopTraffic(env, g, env.request(KeepAliveFor(h.sessionId.value, true), g.nextMessageId, Token(g)), io);
      }
    case MakeResign(io) =>
      if h.sessionId.Some? {
        var g := NextIdentity(h);
        MeshcopTraffic(env, g, env.request(KeepAliveFor(h.sessionId.value, false), g.nextMessageId, Token(g)), io);
      }
    case FetchPrefix(io) =>
      var g := NextIdentity(h);
      MeshcopTraffic(env, g, env.request(DatasetFor, g.nextMessageId, Token(g)), io);
    case TakeEvent(io) => AwaitTraffic(env, h, io.arrivals);
    case Operation(build, route, wait, io) =>
      var g := NextIdentity(h);
      match build(g.nextMessageId, Token(g)) {
        case Err(_) =>
        case Ok(request) => ExecuteTraffic(env, g, request, route, wait, io);
      }
    case _ =>
  }

  /** A disabled handle stays disabled. */
  lemma {:induction false} DisabledForever(env: Env, h: Handle, calls: seq<Call>)
    requires Consistent(h) && h.state.Disabled?
    ensures var k := AfterAll(env, h, calls);
            k.state.Disabled? && k.sessionId.None? && !k.dtls && k.prefix.None? && k.joinerSessions == {}
  {
    if calls != [] {
      hide After, Consistent;
      var n := |calls| - 1;
      DisabledForever(env, h, calls[..n]);
      StillConsistent(env, h, calls[..n]);
      DisabledStep(env, AfterAll(env, h, calls[..n]), calls[n]);
    }
  }

  lemma {:induction false} StillConsistent(env: Env, h: Handle, calls: seq<Call>)
    requires Consistent(h)
    ensures Consistent(AfterAll(env, h, calls))
  {
    if calls != [] {
      hide After, Consistent;
      StillConsistent(env, h, calls[..|calls| - 1]);
      CallKeeps(env, AfterAll(env, h, calls[..|calls| - 1]), calls[|calls| - 1]);
    }
  }

  lemma DisabledStep(env: Env, h: Handle, call: Call)
    requires Consistent(h) && h.state.Disabled?
    ensures var k := After(env, h, call);
            k.state.Disabled? && k.sessionId.None? && !k.dtls && k.prefix.None? && k.joinerSessions == {}
  {
    hide ExecuteMeshcop, Execute, BigEndian;
    var g := NextIdentity(h);
    match call
    case FetchPrefix(io) =>
      MeshcopTraffic(env, g, env.request(DatasetFor, g.nextMessageId, Token(g)), io);
    case Operation(build, route, wait, io) =>
      match build(g.nextMessageId, Token(g)) {
        case Err(_) =>
        case Ok(request) => ExecuteTraffic(env, g, request, route, wait, io);
      }
    case _ =>
  }

  ghost predicate EndsPetitioning(env: Env, id: Bytes, calls: seq<Call>) {
    AfterAll(env, Connect(id), calls).state.Petitioning?
  }

  /** Some calls leave the handle petitioning exactly when the commissioner ID
      does not fit in a TLV; configuration does not check its length. */
  lemma PetitioningReachable(env: Env, id: Bytes)
    ensures (exists calls :: EndsPetitioning(env, id, calls)) <==> |id| > MAX_TLV_LENGTH
  {
    if |id| > MAX_TLV_LENGTH {
      var io := Io(true, true, []);
      StuckPetitioning(env, Connect(id), io);
      var calls := [MakePetition(io)];
      assert calls[..0] == [];
      assert AfterAll(env, Connect(id), calls[..0]) == Connect(id);
      assert EndsPetitioning(env, id, calls);
    } else {
      forall calls ensures !EndsPetitioning(env, id, calls) {
        AlwaysConsistent(env, id, calls);
      }
    }
  }

  /** With such an ID a petition fails and leaves the handle petitioning, where
      every later petition fails too. */
  lemma StuckPetitioning(env: Env, h: Handle, io: Io)
    requires h.state.Connected? && |h.commissionerId| > MAX_TLV_LENGTH
    ensures var (k, r) := Petition(env, h, io);
            k.state.Petitioning? && r == Err(Tlv) && Petition(env, k, io) == (k, Err(InvalidState))
  {
  }

  /** A concrete one. */
  lemma LongIdSticks(env: Env, io: Io)
    ensures var id := seq(0x1_0000, i => 'x' as int);
            Petition(env, Connect(id), io).0.state.Petitioning?
  {
    StuckPetitioning(env, Connect(seq(0x1_0000, i => 'x' as int)), io);
  }
}
