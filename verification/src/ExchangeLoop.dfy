/** What a completed exchange returned, acknowledged and queued, for every
    stream of arrivals. */
module ExchangeLoop {
  import opened Bytes
  import opened Coap
  import opened CommissionerClient
  import opened Lifecycle

  // ----- What each arrival calls for, read off the arrival alone

  function Shown(env: Env, a: Arrival): Presented {
    match Decode(a.wire)
    case Err(_) => Nothing
    case Ok(m) => Present(env, m)
  }

  predicate IsAnswer(env: Env, request: CoapMessage, a: Arrival) {
    var p := Shown(env, a);
    !p.Nothing? && Answers(request, p.message)
  }

  /** A notification the exchange passes on: not the answer, not the empty
      acknowledgement of the request. */
  predicate IsNotice(env: Env, request: CoapMessage, a: Arrival) {
    var p := Shown(env, a);
    && !p.Nothing? && !Answers(request, p.message) && !IsEmptyAckFor(p.message, request.messageId)
    && env.notification(p.message).Ok? && env.notification(p.message).value.Some?
  }

  /** The index of the first answer, or the number of arrivals. */
  function FirstAnswer(env: Env, request: CoapMessage, arrivals: seq<Arrival>): (n: nat)
    ensures n <= |arrivals|
  {
    if arrivals == [] || IsAnswer(env, request, arrivals[0]) then 0
    else 1 + FirstAnswer(env, request, arrivals[1..])
  }

  lemma {:induction false} FirstAnswerIsFirst(env: Env, request: CoapMessage, arrivals: seq<Arrival>)
    ensures var n := FirstAnswer(env, request, arrivals);
            && (n < |arrivals| ==> IsAnswer(env, request, arrivals[n]))
            && forall k :: 0 <= k < n ==> !IsAnswer(env, request, arrivals[k])
  {
    hide IsAnswer;
    if arrivals != [] && !IsAnswer(env, request, arrivals[0]) {
      FirstAnswerIsFirst(env, request, arrivals[1..]);
    }
  }

  function EventsOf(env: Env, handler: bool, request: CoapMessage, a: Arrival): seq<Event> {
    if !IsNotice(env, request, a) then []
    else
      var p := Shown(env, a);
      var n := env.notification(p.message).value.value;
      if p.Inner? then [ToEvent(n, p.from.source)]
      else if n.RelayRx? && handler then a.relay.events
      else [ToEvent(n, env.borderAgent)]
  }

  function EventsOfAll(env: Env, handler: bool, request: CoapMessage, arrivals: seq<Arrival>): seq<Event> {
    if arrivals == [] then []
    else EventsOf(env, handler, request, arrivals[0]) + EventsOfAll(env, handler, request, arrivals[1..])
  }

  predicate NeedsAck(env: Env, request: CoapMessage, a: Arrival) {
    (IsAnswer(env, request, a) || IsNotice(env, request, a)) && Shown(env, a).message.ty.Confirmable?
  }

  /** The acknowledgement due: an empty one, directly or through the proxy; a
      proxied notification is answered 2.04 Changed. */
  ghost predicate Acknowledges(env: Env, request: CoapMessage, a: Arrival, ack: CoapMessage)
    requires !Shown(env, a).Nothing?
  {
    var p := Shown(env, a);
    if p.Itself? then ack == EmptyAck(p.message.messageId)
    else exists id: U16 :: ProxiesTo(env, id, p.from, ProxiedResponse(env, request, a), ack)
  }

  function ProxiedResponse(env: Env, request: CoapMessage, a: Arrival): CoapMessage
    requires !Shown(env, a).Nothing?
  {
    var m := Shown(env, a).message;
    if IsAnswer(env, request, a) then EmptyAck(m.messageId) else EmptyChangedResponse(m)
  }

  predicate ProxiesTo(env: Env, id: U16, to: UdpRx, response: CoapMessage, ack: CoapMessage) {
    && Encode(response).Ok?
    && env.udpTx(id, BigEndian(id, 2), to.source, to.sourcePort, Encode(response).value) == Ok(ack)
  }

  /** The acknowledgements sent while `at` messages had arrived. */
  function AcksAt(sent: seq<Sent>, at: nat): seq<CoapMessage> {
    if sent == [] then []
    else
      var last := sent[|sent| - 1];
      AcksAt(sent[..|sent| - 1], at) + if last.kind.Acknowledge? && last.at == at then [last.message] else []
  }

  /** Exactly the acknowledgement an arrival calls for, once. */
  ghost predicate AckedRight(env: Env, request: CoapMessage, a: Arrival, acks: seq<CoapMessage>) {
    if NeedsAck(env, request, a) then |acks| == 1 && Acknowledges(env, request, a, acks[0]) else acks == []
  }

  // ----- The send log

  /** The acknowledgements added to the log for one arrival. */
  function NewAcks(before: seq<Sent>, after: seq<Sent>, at: nat): seq<CoapMessage> {
    var earlier, all := AcksAt(before, at), AcksAt(after, at);
    if earlier <= all then all[|earlier|..] else []
  }

  lemma AcksSnoc(sent: seq<Sent>, s: Sent, at: nat)
    ensures AcksAt(sent + [s], at) == AcksAt(sent, at) + if s.kind.Acknowledge? && s.at == at then [s.message] else []
  {
    assert (sent + [s])[..|sent|] == sent;
  }

  /** `k` sent what `h` had sent and then only messages of arrival `h.arrived`,
      of which `acks` are acknowledgements. */
  ghost predicate SentNow(h: Handle, k: Handle, acks: seq<CoapMessage>) {
    && k.arrived == h.arrived && k.handler == h.handler && h.sent <= k.sent
    && AcksAt(k.sent, h.arrived) == AcksAt(h.sent, h.arrived) + acks
    && forall at :: at != h.arrived ==> AcksAt(k.sent, at) == AcksAt(h.sent, at)
  }

  lemma SentNothing(h: Handle, k: Handle)
    requires k.sent == h.sent && k.arrived == h.arrived && k.handler == h.handler
    ensures SentNow(h, k, [])
  {
    hide AcksAt;
  }

  lemma LogSent(h: Handle, kind: Kind, m: CoapMessage)
    ensures SentNow(h, h.Log(kind, m), if kind.Acknowledge? then [m] else [])
  {
    var s := Sent(kind, h.arrived, m);
    AcksSnoc(h.sent, s, h.arrived);
    forall at | at != h.arrived ensures AcksAt(h.Log(kind, m).sent, at) == AcksAt(h.sent, at) {
      AcksSnoc(h.sent, s, at);
    }
  }

  lemma SentThen(h: Handle, g: Handle, k: Handle, first: seq<CoapMessage>, second: seq<CoapMessage>)
    requires SentNow(h, g, first) && SentNow(g, k, second)
    ensures SentNow(h, k, first + second)
  {
    hide AcksAt;
    assert AcksAt(h.sent, h.arrived) + first + second == AcksAt(h.sent, h.arrived) + (first + second);
  }

  lemma {:induction false} RelaySent(h: Handle, ms: seq<CoapMessage>)
    ensures SentNow(h, LogAll(h, ms), [])
    decreases |ms|
  {
    hide AcksAt;
    if ms == [] {
      SentNothing(h, h);
    } else {
      LogSent(h, RelayTx, ms[0]);
      RelaySent(h.Log(RelayTx, ms[0]), ms[1..]);
      SentThen(h, h.Log(RelayTx, ms[0]), LogAll(h, ms), [], []);
    }
  }

  // ----- One message

  lemma AckSent(h: Handle, m: CoapMessage, sends: bool)
    requires AckIfConfirmable(h, m, sends).1.Ok?
    ensures var k := AckIfConfirmable(h, m, sends).0;
            k == h.(sent := k.sent) && SentNow(h, k, if m.ty.Confirmable? then [EmptyAck(m.messageId)] else [])
  {
    hide SentNow, Encode;
    if m.ty.Confirmable? {
      LogSent(h, Acknowledge, EmptyAck(m.messageId));
    } else {
      SentNothing(h, h);
    }
  }

  lemma ProxiedAckSent(env: Env, h: Handle, response: CoapMessage, from: UdpRx, sends: bool) returns (ack: CoapMessage)
    requires SendProxiedAck(env, h, response, from, sends).1.Ok?
    ensures var k := SendProxiedAck(env, h, response, from, sends).0;
            k == h.(nextMessageId := k.nextMessageId, sent := k.sent) && SentNow(h, k, [ack])
    ensures exists id: U16 :: ProxiesTo(env, id, from, response, ack)
  {
    hide SentNow, Encode, BigEndian;
    var g := NextIdentity(h);
    var inner := Encode(response).value;
    ack := env.udpTx(g.nextMessageId, Token(g), from.source, from.sourcePort, inner).value;
    assert ProxiesTo(env, g.nextMessageId, from, response, ack);
    SentNothing(h, g);
    LogSent(g, Acknowledge, ack);
    SentThen(h, g, g.Log(Acknowledge, ack), [], [ack]);
    assert [] + [ack] == [ack];
  }

  /** One handled message: it is returned exactly if it is the answer, and it
      adds exactly its events and its acknowledgement. */
  ghost predicate Handled(env: Env, request: CoapMessage, a: Arrival, h: Handle, k: Handle, r: Result<Option<CoapMessage>>) {
    && (r.Ok? && r.value.Some? ==> IsAnswer(env, request, a) && r.value.value == Shown(env, a).message && k.events == h.events)
    && (r == Ok(None) ==> !IsAnswer(env, request, a) && k.events == h.events + EventsOf(env, h.handler, request, a))
    && (r.Ok? ==> exists acks :: AckedRight(env, request, a, acks) && SentNow(h, k, acks))
  }

  lemma DirectHandled(env: Env, request: CoapMessage, h: Handle, m: CoapMessage, a: Arrival)
    requires Decode(a.wire) == Ok(m) && Present(env, m) == Itself(m)
    ensures var (k, r) := HandleDirect(env, h, Some(request), m, a); Handled(env, request, a, h, k, r)
  {
    hide Decode, Encode, SentNow, Present, LogAll;
    var (k, r) := HandleDirect(env, h, Some(request), m, a);
    assert Shown(env, a) == Itself(m);
    if r.Ok? {
      if IsEmptyAckFor(m, request.messageId) {
        SentNothing(h, h);
        assert AckedRight(env, request, a, []);
      } else if m.token == request.token {
        AckSent(h, m, a.sends);
        assert AckedRight(env, request, a, if m.ty.Confirmable? then [EmptyAck(m.messageId)] else []);
      } else {
        var (g, routed) := RouteDirect(env, h, m, a);
        DirectRouted(env, request, h, m, a);
        AckSent(g, m, a.sends);
        var acks := if m.ty.Confirmable? then [EmptyAck(m.messageId)] else [];
        SentThen(h, g, k, [], acks);
        assert [] + acks == acks;
        assert AckedRight(env, request, a, acks);
      }
    }
  }

  lemma DirectRouted(env: Env, request: CoapMessage, h: Handle, m: CoapMessage, a: Arrival)
    requires Shown(env, a) == Itself(m) && !Answers(request, m) && !IsEmptyAckFor(m, request.messageId)
    requires var (g, routed) := RouteDirect(env, h, m, a); routed == Ok(true)
    ensures IsNotice(env, request, a)
    ensures var g := RouteDirect(env, h, m, a).0;
            SentNow(h, g, []) && g.events == h.events + EventsOf(env, h.handler, request, a)
  {
    hide SentNow, LogAll, Shown;
    var n := env.notification(m).value.value;
    if n.RelayRx? && h.handler {
      var g := h.(events := h.events + a.relay.events, nextMessageId := a.relay.nextMessageId, joinerSessions := a.relay.sessions);
      SentNothing(h, g);
      LogAllTraffic(g, a.relay.sent);
      RelaySent(g, a.relay.sent);
      var none: seq<CoapMessage> := [];
      assert none + none == none;
      SentThen(h, g, LogAll(g, a.relay.sent), none, none);
      assert HandleRelay(h, a.relay).0 == LogAll(g, a.relay.sent);
      assert LogAll(g, a.relay.sent).events == g.events;
    } else {
      SentNothing(h, Announce(h, n, env.borderAgent));
    }
  }

  lemma ProxiedAcked(env: Env, request: CoapMessage, a: Arrival, response: CoapMessage, ack: CoapMessage)
    requires Shown(env, a).Inner? && NeedsAck(env, request, a)
    requires response == ProxiedResponse(env, request, a)
    requires exists id: U16 :: ProxiesTo(env, id, Shown(env, a).from, response, ack)
    ensures AckedRight(env, request, a, [ack])
  {
    hide Shown, ProxiesTo, IsAnswer, ProxiedResponse;
    assert Acknowledges(env, request, a, ack);
    assert [ack][0] == ack;
  }

  lemma ProxiedHandled(env: Env, request: CoapMessage, h: Handle, m: CoapMessage, from: UdpRx, a: Arrival)
    requires Shown(env, a) == Inner(m, from)
    ensures var (k, r) := HandleProxied(env, h, Some(request), m, from, a); Handled(env, request, a, h, k, r)
  {
    hide SendProxiedAck, SentNow, Shown, ProxiesTo;
    var (k, r) := HandleProxied(env, h, Some(request), m, from, a);
    if r.Ok? {
      if IsEmptyAckFor(m, request.messageId) {
        SentNothing(h, h);
        assert AckedRight(env, request, a, []);
      } else if m.token == request.token {
        if m.ty.Confirmable? {
          var ack := ProxiedAckSent(env, h, EmptyAck(m.messageId), from, a.sends);
          ProxiedAcked(env, request, a, EmptyAck(m.messageId), ack);
        } else {
          SentNothing(h, h);
          assert AckedRight(env, request, a, []);
        }
      } else {
        ProxiedRouted(env, request, h, m, from, a);
      }
    }
  }

  lemma ProxiedRouted(env: Env, request: CoapMessage, h: Handle, m: CoapMessage, from: UdpRx, a: Arrival)
    requires Shown(env, a) == Inner(m, from) && !Answers(request, m) && !IsEmptyAckFor(m, request.messageId)
    requires RouteProxied(env, h, m, from, a).1.Ok?
    ensures var g := RouteProxied(env, h, m, from, a).0;
            && g.events == h.events + EventsOf(env, h.handler, request, a)
            && exists acks :: AckedRight(env, request, a, acks) && SentNow(h, g, acks)
  {
    hide SendProxiedAck, SentNow, Shown, ProxiesTo;
    match env.notification(m)
    case Ok(Some(n)) =>
      var g := Announce(h, n, from.source);
      SentNothing(h, g);
      if m.ty.Confirmable? {
        var ack := ProxiedAckSent(env, g, EmptyChangedResponse(m), from, a.sends);
        SentThen(h, g, RouteProxied(env, h, m, from, a).0, [], [ack]);
        assert [] + [ack] == [ack];
        ProxiedAcked(env, request, a, EmptyChangedResponse(m), ack);
      } else {
        assert AckedRight(env, request, a, []);
      }
    case Err(_) =>
    case Ok(None) =>
      SentNothing(h, h);
      assert AckedRight(env, request, a, []);
  }

  lemma IncomingHandled(env: Env, request: CoapMessage, h: Handle, m: CoapMessage, a: Arrival)
    requires Decode(a.wire) == Ok(m)
    ensures var (k, r) := HandleIncoming(env, h, Some(request), m, a); Handled(env, request, a, h, k, r)
  {
    hide Decode, HandleDirect, HandleProxied;
    match Present(env, m)
    case Nothing =>
      SentNothing(h, h);
      assert AckedRight(env, request, a, []);
      assert h.events + [] == h.events;
    case Inner(inner, from) => ProxiedHandled(env, request, h, inner, from, a);
    case Itself(_) => DirectHandled(env, request, h, m, a);
  }

  // ----- Whole streams

  /** Later arrivals send nothing in the name of earlier ones. */
  lemma {:induction false} EarlierAcksStay(env: Env, h: Handle, request: CoapMessage, arrivals: seq<Arrival>, at: nat)
    requires at <= h.arrived && Exchange(env, h, request, arrivals).1.Ok?
    ensures AcksAt(Exchange(env, h, request, arrivals).0.sent, at) == AcksAt(h.sent, at)
    decreases |arrivals|
  {
    hide HandleIncoming, Decode, AckedRight, AcksAt;
    var g, m := h.(arrived := h.arrived + 1), Decode(arrivals[0].wire).value;
    IncomingHandled(env, request, g, m, arrivals[0]);
    var (k, r) := HandleIncoming(env, g, Some(request), m, arrivals[0]);
    if r == Ok(None) {
      EarlierAcksStay(env, k, request, arrivals[1..], at);
    }
  }

  lemma FirstArrivalAcked(env: Env, h: Handle, request: CoapMessage, arrivals: seq<Arrival>)
    requires Exchange(env, h, request, arrivals).1.Ok?
    ensures arrivals != [] && Decode(arrivals[0].wire).Ok?
    ensures AckedRight(env, request, arrivals[0], NewAcks(h.sent, Exchange(env, h, request, arrivals).0.sent, h.arrived + 1))
  {
    hide HandleIncoming, Decode, AckedRight, AcksAt;
    var g, m := h.(arrived := h.arrived + 1), Decode(arrivals[0].wire).value;
    IncomingHandled(env, request, g, m, arrivals[0]);
    var (k, r) := HandleIncoming(env, g, Some(request), m, arrivals[0]);
    var acks :| AckedRight(env, request, arrivals[0], acks) && SentNow(g, k, acks);
    assert NewAcks(h.sent, k.sent, h.arrived + 1) == acks;
    if r == Ok(None) {
      EarlierAcksStay(env, k, request, arrivals[1..], h.arrived + 1);
    }
  }

  /** For every stream: a returned response is the first arrival, direct or
      decapsulated, that answers the request; the events of the notifications
      before it were queued in the order they arrived; and every arrival up to it
      was acknowledged exactly once if it was confirmable and either routed or
      the response, and not at all otherwise. */
  lemma {:induction false} ExchangeReturns(env: Env, h: Handle, request: CoapMessage, arrivals: seq<Arrival>)
    requires Exchange(env, h, request, arrivals).1.Ok?
    ensures var (k, r) := Exchange(env, h, request, arrivals);
            var n := FirstAnswer(env, request, arrivals);
            && n < |arrivals| && IsAnswer(env, request, arrivals[n])
            && (forall i :: 0 <= i < n ==> !IsAnswer(env, request, arrivals[i]))
            && r == Ok(Shown(env, arrivals[n]).message)
            && k.arrived == h.arrived + n + 1 && h.sent <= k.sent
            && k.events == h.events + EventsOfAll(env, h.handler, request, arrivals[..n])
            && forall i :: 0 <= i <= n ==> AckedRight(env, request, arrivals[i], NewAcks(h.sent, k.sent, h.arrived + 1 + i))
    decreases |arrivals|
  {
    hide HandleIncoming, Decode, AckedRight, NewAcks, IsAnswer, Shown, EventsOf;
    FirstArrivalAcked(env, h, request, arrivals);
    FirstAnswerIsFirst(env, request, arrivals);
    var g, m := h.(arrived := h.arrived + 1), Decode(arrivals[0].wire).value;
    IncomingHandled(env, request, g, m, arrivals[0]);
    var (k, r) := HandleIncoming(env, g, Some(request), m, arrivals[0]);
    if r == Ok(None) {
      ExchangeReturns(env, k, request, arrivals[1..]);
      var n := FirstAnswer(env, request, arrivals);
      QueuedInOrder(env, h, k, request, arrivals, n);
      AcksCarry(env, g, k, request, arrivals, n, Exchange(env, h, request, arrivals).0.sent);
    } else {
      assert arrivals[..0] == [];
      assert h.events + [] == h.events;
    }
  }

  lemma QueuedInOrder(env: Env, h: Handle, k: Handle, request: CoapMessage, arrivals: seq<Arrival>, n: nat)
    requires 0 < n <= |arrivals| && k.events == h.events + EventsOf(env, h.handler, request, arrivals[0])
    ensures k.events + EventsOfAll(env, h.handler, request, arrivals[1..][..n - 1])
         == h.events + EventsOfAll(env, h.handler, request, arrivals[..n])
  {
    hide EventsOf;
    assert arrivals[..n][1..] == arrivals[1..][..n - 1];
  }

  /** What later arrivals sent since the first one, they sent since before it. */
  lemma AcksCarry(env: Env, g: Handle, k: Handle, request: CoapMessage, arrivals: seq<Arrival>, n: nat, after: seq<Sent>)
    requires 0 < n < |arrivals| && exists acks :: SentNow(g, k, acks)
    requires forall i :: 0 <= i <= n - 1 ==>
               AckedRight(env, request, arrivals[1..][i], NewAcks(k.sent, after, k.arrived + 1 + i))
    ensures forall i :: 0 < i <= n ==> AckedRight(env, request, arrivals[i], NewAcks(g.sent, after, g.arrived + i))
  {
    hide AckedRight, AcksAt;
    forall i | 0 < i <= n
      ensures AckedRight(env, request, arrivals[i], NewAcks(g.sent, after, g.arrived + i))
    {
      assert arrivals[1..][i - 1] == arrivals[i];
      assert AckedRight(env, request, arrivals[1..][i - 1], NewAcks(k.sent, after, k.arrived + 1 + (i - 1)));
    }
  }

  // ----- When an exchange returns

  /** The proxy message for `response` under the ID after `id` can be built. */
  predicate CanProxy(env: Env, id: U16, to: UdpRx, response: CoapMessage) {
    var next := (id + 1) % 0x1_0000;
    && Encode(response).Ok?
    && var m := env.udpTx(next, BigEndian(next, 2), to.source, to.sourcePort, Encode(response).value);
       m.Ok? && Encode(m.value).Ok?
  }

  /** The acknowledgement an arrival calls for, if any, can be built and sent. */
  predicate CanAck(env: Env, dtls: bool, id: U16, request: CoapMessage, a: Arrival) {
    NeedsAck(env, request, a) ==>
      && dtls && a.sends
      && (Shown(env, a).Inner? ==> CanProxy(env, id, Shown(env, a).from, ProxiedResponse(env, request, a)))
  }

  predicate IsRelayed(env: Env, handler: bool, request: CoapMessage, a: Arrival) {
    && IsNotice(env, request, a) && Shown(env, a).Itself? && handler
    && env.notification(Shown(env, a).message).value.value.RelayRx?
  }

  /** The exchange goes on after this arrival: it shows nothing, is the empty
      acknowledgement, or is a notification that is relayed and acknowledged
      without error; an encapsulated message may also be unknown. */
  predicate Passes(env: Env, handler: bool, dtls: bool, id: U16, request: CoapMessage, a: Arrival) {
    var p := Shown(env, a);
    || p.Nothing?
    || (&& !Answers(request, p.message)
        && (|| IsEmptyAckFor(p.message, request.messageId)
            || (&& env.notification(p.message).Ok? && CanAck(env, dtls, id, request, a)
                && (p.Itself? ==> IsNotice(env, request, a))
                && (IsRelayed(env, handler, request, a) ==> a.relay.error.None?))))
  }

  /** The message ID in use after an arrival that passes. */
  function IdAfter(env: Env, handler: bool, id: U16, request: CoapMessage, a: Arrival): U16 {
    if IsRelayed(env, handler, request, a) then a.relay.nextMessageId
    else if NeedsAck(env, request, a) && Shown(env, a).Inner? then (id + 1) % 0x1_0000
    else id
  }

  /** Read off the arrivals: all before the first answer decode and pass, and the
      answer decodes and can be acknowledged. */
  predicate WillReturn(env: Env, handler: bool, dtls: bool, id: U16, request: CoapMessage, arrivals: seq<Arrival>)
    decreases |arrivals|
  {
    && arrivals != [] && Decode(arrivals[0].wire).Ok?
    && if IsAnswer(env, request, arrivals[0]) then CanAck(env, dtls, id, request, arrivals[0])
       else
         && Passes(env, handler, dtls, id, request, arrivals[0])
         && WillReturn(env, handler, dtls, IdAfter(env, handler, id, request, arrivals[0]), request, arrivals[1..])
  }

  lemma AckOutcome(h: Handle, m: CoapMessage, sends: bool)
    ensures AckIfConfirmable(h, m, sends).1.Ok? <==> (m.ty.Confirmable? ==> h.dtls && sends)
    ensures var k := AckIfConfirmable(h, m, sends).0; k == h.(sent := k.sent)
  {
    hide Encode;
    EncodeSucceeds(EmptyAck(m.messageId));
  }

  lemma ProxyOutcome(env: Env, h: Handle, response: CoapMessage, from: UdpRx, sends: bool)
    ensures var (k, r) := SendProxiedAck(env, h, response, from, sends);
            && (r.Ok? <==> h.dtls && sends && CanProxy(env, h.nextMessageId, from, response))
            && k == h.(nextMessageId := k.nextMessageId, sent := k.sent)
            && (r.Ok? ==> k.nextMessageId == (h.nextMessageId + 1) % 0x1_0000)
  {
    hide Encode, BigEndian;
  }

  /** What one message makes of the exchange, read off the arrival. */
  ghost predicate Outcome(env: Env, request: CoapMessage, a: Arrival, h: Handle, k: Handle, r: Result<Option<CoapMessage>>) {
    && (r == Ok(None) <==> !IsAnswer(env, request, a) && Passes(env, h.handler, h.dtls, h.nextMessageId, request, a))
    && (r.Ok? && r.value.Some? <==> IsAnswer(env, request, a) && CanAck(env, h.dtls, h.nextMessageId, request, a))
    && (r == Ok(None) ==>
          k.nextMessageId == IdAfter(env, h.handler, h.nextMessageId, request, a) && k.dtls == h.dtls && k.handler == h.handler)
  }

  lemma DirectOutcome(env: Env, request: CoapMessage, h: Handle, m: CoapMessage, a: Arrival)
    requires Shown(env, a) == Itself(m)
    ensures var (k, r) := HandleDirect(env, h, Some(request), m, a); Outcome(env, request, a, h, k, r)
  {
    hide Shown, AckIfConfirmable, LogAll;
    AckOutcome(h, m, a.sends);
    var (g, routed) := RouteDirect(env, h, m, a);
    AckOutcome(g, m, a.sends);
    RelayOutcome(h, a.relay);
  }

  lemma RelayOutcome(h: Handle, r: Relay)
    ensures var (k, e) := HandleRelay(h, r);
            && k.nextMessageId == r.nextMessageId && k.dtls == h.dtls && k.handler == h.handler
            && (e.Ok? <==> r.error.None?)
  {
    hide LogAll;
    LogAllTraffic(h.(events := h.events + r.events, nextMessageId := r.nextMessageId, joinerSessions := r.sessions), r.sent);
  }

  lemma ProxiedOutcome(env: Env, request: CoapMessage, h: Handle, m: CoapMessage, from: UdpRx, a: Arrival)
    requires Shown(env, a) == Inner(m, from)
    ensures var (k, r) := HandleProxied(env, h, Some(request), m, from, a); Outcome(env, request, a, h, k, r)
  {
    hide Shown, SendProxiedAck, CanProxy, RouteProxied;
    if Answers(request, m) {
      ProxyOutcome(env, h, EmptyAck(m.messageId), from, a.sends);
      assert ProxiedResponse(env, request, a) == EmptyAck(m.messageId);
      assert m.ty.Confirmable? ==> (SendProxiedAck(env, h, EmptyAck(m.messageId), from, a.sends).1.Ok?
                                    <==> CanAck(env, h.dtls, h.nextMessageId, request, a));
    } else if IsEmptyAckFor(m, request.messageId) {
      EmptyAckOutcome(env, request, h, a);
    } else {
      RoutedOutcome(env, request, h, m, from, a);
      var (g, r) := RouteProxied(env, h, m, from, a);
      var (k, answer) := HandleProxied(env, h, Some(request), m, from, a);
      assert m.token != request.token && !IsAnswer(env, request, a);
      assert k == g && (answer == Ok(None) <==> r.Ok?) && (answer.Ok? ==> answer == Ok(None));
    }
  }

  lemma EmptyAckOutcome(env: Env, request: CoapMessage, h: Handle, a: Arrival)
    requires !Shown(env, a).Nothing? && IsEmptyAckFor(Shown(env, a).message, request.messageId)
    ensures !IsAnswer(env, request, a) && Passes(env, h.handler, h.dtls, h.nextMessageId, request, a)
    ensures IdAfter(env, h.handler, h.nextMessageId, request, a) == h.nextMessageId
  {
    hide Shown;
  }

  lemma RoutedOutcome(env: Env, request: CoapMessage, h: Handle, m: CoapMessage, from: UdpRx, a: Arrival)
    requires Shown(env, a) == Inner(m, from) && !Answers(request, m) && !IsEmptyAckFor(m, request.messageId)
    ensures var (k, r) := RouteProxied(env, h, m, from, a);
            && (r.Ok? <==> Passes(env, h.handler, h.dtls, h.nextMessageId, request, a))
            && (r.Ok? ==> k.nextMessageId == IdAfter(env, h.handler, h.nextMessageId, request, a)
                          && k.dtls == h.dtls && k.handler == h.handler)
  {
    hide Shown, SendProxiedAck, CanProxy;
    match env.notification(m) {
      case Ok(Some(n)) =>
        var g := Announce(h, n, from.source);
        ProxyOutcome(env, g, EmptyChangedResponse(m), from, a.sends);
        assert IsNotice(env, request, a) && (NeedsAck(env, request, a) <==> m.ty.Confirmable?);
        assert ProxiedResponse(env, request, a) == EmptyChangedResponse(m);
        assert g.nextMessageId == h.nextMessageId && g.dtls == h.dtls && g.handler == h.handler;
        assert CanAck(env, h.dtls, h.nextMessageId, request, a)
               <==> (m.ty.Confirmable? ==> SendProxiedAck(env, g, EmptyChangedResponse(m), from, a.sends).1.Ok?);
      case _ =>
    }
  }

  lemma IncomingOutcome(env: Env, request: CoapMessage, h: Handle, m: CoapMessage, a: Arrival)
    requires Decode(a.wire) == Ok(m)
    ensures var (k, r) := HandleIncoming(env, h, Some(request), m, a); Outcome(env, request, a, h, k, r)
  {
    hide Decode, HandleDirect, HandleProxied;
    match Present(env, m)
    case Nothing =>
    case Inner(inner, from) => ProxiedOutcome(env, request, h, inner, from, a);
    case Itself(_) => DirectOutcome(env, request, h, m, a);
  }

  /** An exchange returns a response if and only if the arrivals say so. */
  lemma {:induction false} ExchangeReturnsWhen(env: Env, h: Handle, request: CoapMessage, arrivals: seq<Arrival>)
    ensures Exchange(env, h, request, arrivals).1.Ok?
            <==> WillReturn(env, h.handler, h.dtls, h.nextMessageId, request, arrivals)
    decreases |arrivals|
  {
    hide HandleIncoming, Decode, IsAnswer, Passes, CanAck, IdAfter;
    if arrivals != [] && Decode(arrivals[0].wire).Ok? {
      var g, m := h.(arrived := h.arrived + 1), Decode(arrivals[0].wire).value;
      IncomingOutcome(env, request, g, m, arrivals[0]);
      var (k, r) := HandleIncoming(env, g, Some(request), m, arrivals[0]);
      if r == Ok(None) {
        ExchangeReturnsWhen(env, k, request, arrivals[1..]);
      }
    }
  }

  // ----- Identities, acknowledgements and events

  function Identities(h: Handle, n: nat): Handle {
    if n == 0 then h else NextIdentity(Identities(h, n - 1))
  }

  lemma {:induction false} IdentityAfter(h: Handle, n: nat)
    ensures Identities(h, n) == h.(nextMessageId := (h.nextMessageId + n) % 0x1_0000)
  {
    if n > 0 {
      IdentityAfter(h, n - 1);
      Wrap16(h.nextMessageId + n - 1);
    }
  }

  lemma Wrap16(x: nat)
    ensures (x % 0x1_0000 + 1) % 0x1_0000 == (x + 1) % 0x1_0000
  {
  }

  /** A late answer to a request is not taken for the answer to any of the next
      65535 requests. */
  lemma LateAnswerIgnored(h: Handle, n: nat, first: CoapMessage, later: CoapMessage, m: CoapMessage)
    requires 0 < n < 0x1_0000
    requires first.token == Token(h) && later.token == Token(Identities(h, n)) && Answers(first, m)
    ensures !Answers(later, m)
  {
    hide BigEndian;
    IdentityAfter(h, n);
    PowerValues();
    if Token(h) == Token(Identities(h, n)) {
      BigEndianInjective(h.nextMessageId, Identities(h, n).nextMessageId, 2);
    }
  }

  /** The answer to a proxied notification on the wire: an acknowledgement with
      code 2.04 that repeats the message ID and the token. */
  lemma ChangedWire(m: CoapMessage)
    requires |m.token| <= 8
    ensures Encode(EmptyChangedResponse(m)) == Ok([0x60 + |m.token|, 0x44] + BigEndian(m.messageId, 2) + m.token)
  {
    hide BigEndian;
    assert Ordered(0, StableSort([])) && EncodeOptions(0, StableSort([])) == Ok([]);
    var w: Bytes := [0x60 + |m.token|, 0x44] + BigEndian(m.messageId, 2) + m.token;
    assert w + [] == w;
  }

  /** An event tells everything about its notification but the locator of the
      router that relayed it. */
  lemma EventsFaithful(n: Notification, p: Bytes, o: Notification, r: Bytes)
    requires ToEvent(n, p) == ToEvent(o, r)
    ensures n == o || (n.RelayRx? && o.RelayRx? && o == n.(routerLocator := o.routerLocator))
    ensures !n.DatasetChange? && !n.RelayRx? ==> p == r
  {
  }
}
