/** The commissioner handle as the object it is: fields updated in place, each
    method refining the function of the same name. */
module CommissionerHandle {
  import opened Bytes
  import opened Coap
  import opened CommissionerClient

  class Commissioner {
    const commissionerId: Bytes
    var state: State
    var sessionId: Option<U16>
    var dtlsSession: bool
    var nextMessageId: U16
    var events: seq<Event>
    var meshLocalPrefix: Option<Bytes>
    var joinerHandler: bool
    var joinerSessions: set<Bytes>
    ghost var sent: seq<Sent>
    ghost var arrived: nat
    ghost var changedAt: nat
    ghost var prefixAt: nat

    ghost function View(): Handle
      reads this
    {
      Handle(commissionerId, state, sessionId, dtlsSession, nextMessageId, events, meshLocalPrefix, joinerHandler,
             joinerSessions, sent, arrived, changedAt, prefixAt)
    }

    constructor (id: Bytes)
      ensures View() == Connect(id)
    {
      commissionerId, state, sessionId, dtlsSession, nextMessageId := id, Connected, None, false, 0;
      events, meshLocalPrefix, joinerHandler, joinerSessions := [], None, false, {};
      sent, arrived, changedAt, prefixAt := [], 0, 0, 0;
    }

    method SetJoinerHandler(env: Env)
      modifies this
      ensures View() == After(env, old(View()), Call.SetJoinerHandler)
    {
      joinerHandler := true;
    }

    method ClearJoinerHandler(env: Env)
      modifies this
      ensures View() == After(env, old(View()), Call.ClearJoinerHandler)
    {
      joinerHandler, joinerSessions := false, {};
    }

    method Disconnect()
      modifies this
      ensures View() == CommissionerClient.Disconnect(old(View()))
    {
      state, sessionId, dtlsSession, meshLocalPrefix, joinerSessions := Disabled, None, false, None, {};
    }

    method NextRequestIdentity() returns (id: U16, token: Bytes)
      modifies this
      ensures View() == NextIdentity(old(View())) && id == View().nextMessageId && token == Token(View()) == BigEndian(id, 2)
    {
      nextMessageId := (nextMessageId + 1) % 0x1_0000;
      id, token := nextMessageId, BigEndian(nextMessageId, 2);
    }

    method SendWire(kind: Kind, m: CoapMessage, sends: bool) returns (r: Result<()>)
      modifies this
      ensures (View(), r) == CommissionerClient.SendWire(old(View()), kind, m, sends)
    {
      var wire := EncodeMessage(m);
      if wire.Err? {
        return Err(wire.error);
      }
      if !dtlsSession {
        return Err(InvalidState);
      }
      if !sends {
        return Err(Transport);
      }
      sent := sent + [Sent(kind, arrived, m)];
      r := Ok(());
    }

    method AckIfConfirmable(m: CoapMessage, sends: bool) returns (r: Result<()>)
      modifies this
      ensures (View(), r) == CommissionerClient.AckIfConfirmable(old(View()), m, sends)
    {
      hide CommissionerClient.SendWire;
      if m.ty.Confirmable? {
        r := SendWire(Acknowledge, EmptyAck(m.messageId), sends);
      } else {
        r := Ok(());
      }
    }

    method SendProxiedAck(env: Env, response: CoapMessage, from: UdpRx, sends: bool) returns (r: Result<()>)
      modifies this
      ensures (View(), r) == CommissionerClient.SendProxiedAck(env, old(View()), response, from, sends)
    {
      hide CommissionerClient.SendWire, Encode, Token;
      var inner := EncodeMessage(response);
      if inner.Err? {
        return Err(inner.error);
      }
      var id, token := NextRequestIdentity();
      var udpTx := env.udpTx(id, token, from.source, from.sourcePort, inner.value);
      if udpTx.Err? {
        return Err(udpTx.error);
      }
      r := SendWire(Acknowledge, udpTx.value, sends);
    }

    method Announce(n: Notification, peer: Bytes)
      modifies this
      ensures View() == CommissionerClient.Announce(old(View()), n, peer)
    {
      if n.DatasetChange? {
        meshLocalPrefix, changedAt := None, arrived;
      }
      events := events + [ToEvent(n, peer)];
    }

    method HandleRelayRx(relay: Relay) returns (r: Result<()>)
      modifies this
      ensures (View(), r) == HandleRelay(old(View()), relay)
    {
      events, nextMessageId, joinerSessions := events + relay.events, relay.nextMessageId, relay.sessions;
      ghost var all := LogAll(View(), relay.sent);
      for i := 0 to |relay.sent|
        invariant all == LogAll(View(), relay.sent[i..])
      {
        assert relay.sent[i..][1..] == relay.sent[i + 1..];
        sent := sent + [Sent(RelayTx, arrived, relay.sent[i])];
      }
      r := match relay.error case None => Ok(()) case Some(e) => Err(e);
    }

    method RouteUnsolicitedMessage(env: Env, m: CoapMessage, a: Arrival) returns (r: Result<bool>)
      modifies this
      ensures (View(), r) == RouteDirect(env, old(View()), m, a)
    {
      hide HandleRelay, CommissionerClient.Announce;
      var notification := env.notification(m);
      if notification.Err? {
        return Err(notification.error);
      }
      if notification.value.None? {
        return Ok(false);
      }
      var n := notification.value.value;
      if n.RelayRx? && joinerHandler {
        var relayed := HandleRelayRx(a.relay);
        return if relayed.Err? then Err(relayed.error) else Ok(true);
      }
      Announce(n, env.borderAgent);
      r := Ok(true);
    }

    method RouteUnsolicitedProxied(env: Env, m: CoapMessage, from: UdpRx, a: Arrival) returns (r: Result<bool>)
      modifies this
      ensures (View(), r) == RouteProxied(env, old(View()), m, from, a)
    {
      hide CommissionerClient.SendProxiedAck, CommissionerClient.Announce;
      var notification := env.notification(m);
      if notification.Err? {
        return Err(notification.error);
      }
      if notification.value.None? {
        return Ok(false);
      }
      Announce(notification.value.value, from.source);
      if m.ty.Confirmable? {
        var acked := SendProxiedAck(env, EmptyChangedResponse(m), from, a.sends);
        if acked.Err? {
          return Err(acked.error);
        }
      }
      r := Ok(true);
    }

    method HandleEncapsulated(env: Env, expected: Option<CoapMessage>, m: CoapMessage, from: UdpRx, a: Arrival)
      returns (r: Result<Option<CoapMessage>>)
      modifies this
      ensures (View(), r) == HandleProxied(env, old(View()), expected, m, from, a)
    {
      hide CommissionerClient.SendProxiedAck, RouteProxied;
      if expected.Some? {
        if IsEmptyAckFor(m, expected.value.messageId) {
          return Ok(None);
        }
        if m.token == expected.value.token {
          if m.ty.Confirmable? {
            var acked := SendProxiedAck(env, EmptyAck(m.messageId), from, a.sends);
            if acked.Err? {
              return Err(acked.error);
            }
          }
          return Ok(Some(m));
        }
      }
      var routed := RouteUnsolicitedProxied(env, m, from, a);
      r := if routed.Err? then Err(routed.error) else Ok(None);
    }

    method HandleIncoming(env: Env, expected: Option<CoapMessage>, m: CoapMessage, a: Arrival)
      returns (r: Result<Option<CoapMessage>>)
      modifies this
      ensures (View(), r) == CommissionerClient.HandleIncoming(env, old(View()), expected, m, a)
    {
      hide CommissionerClient.AckIfConfirmable, RouteDirect, HandleProxied, Decode;
      var udpRx := env.udpRx(m);
      if udpRx.Err? {
        return Ok(None);
      }
      if udpRx.value.Some? {
        var from := udpRx.value.value;
        if from.destinationPort != DEFAULT_MM_PORT {
          return Ok(None);
        }
        var inner := DecodeMessage(from.payload);
        if inner.Err? {
          return Ok(None);
        }
        r := HandleEncapsulated(env, expected, inner.value, from, a);
        return;
      }
      if expected.Some? {
        if IsEmptyAckFor(m, expected.value.messageId) {
          return Ok(None);
        }
        if m.token == expected.value.token {
          var acked := AckIfConfirmable(m, a.sends);
          return if acked.Err? then Err(acked.error) else Ok(Some(m));
        }
      }
      var routed := RouteUnsolicitedMessage(env, m, a);
      if routed.Err? {
        return Err(routed.error);
      }
      if routed.value {
        var acked := AckIfConfirmable(m, a.sends);
        return if acked.Err? then Err(acked.error) else Ok(None);
      }
      r := if expected.Some? then Err(InvalidState) else Ok(None);
    }

    method SendRequest(env: Env, request: CoapMessage, route: Route, io: Io) returns (r: Result<()>)
      modifies this
      ensures (View(), r) == CommissionerClient.SendRequest(env, old(View()), request, route, io)
    {
      hide CommissionerClient.SendWire, Encode, Token;
      var wire := request;
      match route {
        case Direct =>
        case Proxied(destination, port) =>
          var inner := EncodeMessage(request);
          if inner.Err? {
            return Err(inner.error);
          }
          var id, token := NextRequestIdentity();
          var udpTx := env.udpTx(id, token, destination, port, inner.value);
          if udpTx.Err? {
            return Err(udpTx.error);
          }
          wire := udpTx.value;
      }
      if !dtlsSession {
        if !io.connects {
          return Err(Timeout);
        }
        dtlsSession := true;
      }
      r := SendWire(Request, wire, io.sends);
    }

    method Execute(env: Env, request: CoapMessage, route: Route, wait: bool, io: Io)
      returns (r: Result<Option<CoapMessage>>)
      modifies this
      ensures (View(), r) == CommissionerClient.Execute(env, old(View()), request, route, wait, io)
    {
      hide CommissionerClient.SendRequest, CommissionerClient.HandleIncoming, Decode;
      if state.Disabled? {
        return Err(InvalidState);
      }
      var requested := SendRequest(env, request, route, io);
      if requested.Err? {
        return Err(requested.error);
      }
      if !wait {
        return Ok(None);
      }
      ghost var all := Exchange(env, View(), request, io.arrivals);
      for i := 0 to |io.arrivals|
        invariant all == Exchange(env, View(), request, io.arrivals[i..])
      {
        ghost var before := View();
        assert io.arrivals[i..][1..] == io.arrivals[i + 1..];
        arrived := arrived + 1;
        var message := DecodeMessage(io.arrivals[i].wire);
        if message.Err? {
          return Err(message.error);
        }
        var handled := HandleIncoming(env, Some(request), message.value, io.arrivals[i]);
        if handled.Err? {
          return Err(handled.error);
        }
        if handled.value.Some? {
          return handled;
        }
      }
      r := Err(Timeout);
    }

    method ExecuteMeshcop(env: Env, request: CoapMessage, io: Io) returns (r: Result<CoapMessage>)
      modifies this
      ensures (View(), r) == CommissionerClient.ExecuteMeshcop(env, old(View()), request, io)
    {
      hide CommissionerClient.Execute;
      var response := Execute(env, request, Direct, true, io);
      if response.Err? {
        return Err(response.error);
      }
      if response.value.None? {
        return Err(InvalidState);
      }
      var m := response.value.value;
      r := if m.code / 32 == 4 || m.code / 32 == 5 then Err(InvalidState) else Ok(m);
    }

    method Petition(env: Env, io: Io) returns (r: Result<U16>)
      modifies this
      ensures (View(), r) == CommissionerClient.Petition(env, old(View()), io)
    {
      hide CommissionerClient.ExecuteMeshcop, Token;
      if !state.Connected? {
        return Err(InvalidState);
      }
      state := Petitioning;
      var id, token := NextRequestIdentity();
      if |commissionerId| > MAX_TLV_LENGTH {
        return Err(Tlv);
      }
      var response := ExecuteMeshcop(env, env.request(PetitionFor(commissionerId), id, token), io);
      if response.Err? {
        state := Connected;
        return Err(response.error);
      }
      var petition := env.petitionAnswer(response.value);
      if petition.Err? {
        state := Connected;
        return Err(petition.error);
      }
      match petition.value {
        case PetitionAnswer(Accept, Some(session)) =>
          sessionId, state := Some(session), Active;
          r := Ok(session);
        case PetitionAnswer(Reject, _) =>
          state := Connected;
          r := Err(PetitionRejected);
        case _ =>
          state := Connected;
          r := Err(InvalidState);
      }
    }

    method KeepAlive(env: Env, io: Io) returns (r: Result<Verdict>)
      modifies this
      ensures (View(), r) == CommissionerClient.KeepAlive(env, old(View()), io)
    {
      hide CommissionerClient.ExecuteMeshcop, Token;
      if sessionId.None? {
        return Err(InvalidState);
      }
      var session := sessionId.value;
      var id, token := NextRequestIdentity();
      var response := ExecuteMeshcop(env, env.request(KeepAliveFor(session, true), id, token), io);
      if response.Err? {
        return Err(response.error);
      }
      var verdict := env.stateTlv(response.value);
      if verdict.Err? {
        return Err(verdict.error);
      }
      if verdict.value.None? {
        return Err(InvalidState);
      }
      r := Ok(verdict.value.value);
      events := events + [KeepAliveResponse(r.value)];
      if r.value.Reject? {
        state, sessionId := Connected, None;
      }
    }

    method Resign(env: Env, io: Io) returns (r: Result<()>)
      modifies this
      ensures (View(), r) == CommissionerClient.Resign(env, old(View()), io)
    {
      hide CommissionerClient.ExecuteMeshcop, Token;
      if sessionId.None? {
        return Err(InvalidState);
      }
      var session := sessionId.value;
      var id, token := NextRequestIdentity();
      var response := ExecuteMeshcop(env, env.request(KeepAliveFor(session, false), id, token), io);
      if response.Err? {
        return Err(response.error);
      }
      var verdict := env.stateTlv(response.value);
      if verdict.Err? {
        return Err(verdict.error);
      }
      if verdict.value == Some(Pending) {
        return Err(InvalidState);
      }
      Disconnect();
      r := Ok(());
    }

    method RequireMeshLocalPrefix(env: Env, io: Io) returns (r: Result<Bytes>)
      modifies this
      ensures (View(), r) == RequirePrefix(env, old(View()), io)
    {
      hide CommissionerClient.ExecuteMeshcop, Token;
      if meshLocalPrefix.Some? {
        return Ok(meshLocalPrefix.value);
      }
      var id, token := NextRequestIdentity();
      var response := ExecuteMeshcop(env, env.request(DatasetFor, id, token), io);
      if response.Err? {
        return Err(response.error);
      }
      var found := env.meshLocalPrefix(response.value.payload);
      if found.Err? {
        return Err(found.error);
      }
      if found.value.None? {
        return Err(InvalidState);
      }
      var prefix := found.value.value;
      if |prefix| != 8 || prefix[0] != 0xfd {
        return Err(Dataset);
      }
      meshLocalPrefix, prefixAt := Some(prefix), arrived;
      r := Ok(prefix);
    }

    method NextEvent(env: Env, io: Io) returns (r: Result<Event>)
      modifies this
      ensures (View(), r) == CommissionerClient.NextEvent(env, old(View()), io)
    {
      hide CommissionerClient.HandleIncoming, Decode;
      if events != [] {
        r := Ok(events[0]);
        events := events[1..];
        return;
      }
      if !dtlsSession {
        return Err(InvalidState);
      }
      ghost var all := AwaitEvent(env, View(), io.arrivals);
      for i := 0 to |io.arrivals|
        invariant all == AwaitEvent(env, View(), io.arrivals[i..])
      {
        assert io.arrivals[i..][1..] == io.arrivals[i + 1..];
        arrived := arrived + 1;
        var message := DecodeMessage(io.arrivals[i].wire);
        if message.Err? {
          return Err(message.error);
        }
        var handled := HandleIncoming(env, None, message.value, io.arrivals[i]);
        if handled.Err? {
          return Err(handled.error);
        }
        if events != [] {
          r := Ok(events[0]);
          events := events[1..];
          return;
        }
      }
      r := Err(Timeout);
    }
  }
}
