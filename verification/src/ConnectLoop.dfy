/** The client's three wait loops, over a handshake object and a cookie-retry
    object, refining the client machine. */
module ConnectLoop {
  import opened Bytes
  import opened Primitives
  import opened Record
  import opened RecordProtection
  import opened KeySchedule
  import opened Handshake
  import opened HandshakeMachines
  import opened ServerDriver
  import opened ClientDriver
  import T = ThreadHandshake
  import H = Hello

  class DtlsClientHelloState {
    const random: H.Random
    const kkpp: Bytes
    var cookie: Bytes
    var nextRecord: U64
    var nextMessage: U16
    var lastHello: Option<U16>

    ghost function View(): HelloState
      reads this
    {
      HelloState(random, cookie, kkpp, nextRecord, nextMessage, lastHello)
    }

    constructor (clientRandom: H.Random, ecjpakeKkpp: Bytes)
      ensures View() == NewHelloState(clientRandom, ecjpakeKkpp)
    {
      random, kkpp, cookie := clientRandom, ecjpakeKkpp, [];
      nextRecord, nextMessage, lastHello := 0, 0, None;
    }

    method NextClientHelloRecord() returns (r: Result<DtlsRecord>)
      modifies this
      ensures match NextHello(old(View()))
              case Ok((s, record)) => r == Ok(record) && View() == s
              case Err(e) => r == Err(e)
    {
      hide H.EncodeClientHello, H.ThreadClientHello, PlaintextRecord;
      var payload := H.EncodeClientHello(H.ThreadClientHello(random, cookie, kkpp));
      var messageSeq := nextMessage;
      nextMessage, lastHello := (nextMessage + 1) % 0x1_0000, Some(messageSeq);
      if payload.Err? {
        return Err(payload.error);
      }
      r := PlaintextRecord(HandshakeMessage(ClientHello, messageSeq, payload.value), nextRecord);
      if r.Ok? {
        nextRecord := Increment(nextRecord);
      }
    }

    method HandleHelloVerifyRequest(record: DtlsRecord) returns (r: Result<()>)
      modifies this`cookie
      ensures match HandleVerifyRequest(old(View()), record)
              case Ok(s) => r == Ok(()) && View() == s
              case Err(e) => r == Err(e) && View() == old(View())
    {
      hide RecordMessage, H.DecodeHelloVerify;
      var message := RecordMessage(record, HelloVerifyRequest);
      if message.Err? {
        return Err(message.error);
      }
      if lastHello != Some(message.value.messageSeq) {
        return Err(Error.Crypto);
      }
      var verify := H.DecodeHelloVerify(message.value.payload);
      if verify.Err? {
        return Err(verify.error);
      }
      if verify.value.serverVersion != H.DTLS_1_2_VERSION {
        return Err(Error.Crypto);
      }
      cookie := verify.value.cookie;
      r := Ok(());
    }
  }

  /** One datagram of a wait: keep waiting, the wait is over, or fail. */
  datatype Wait = Keep | Over | Stop(error: Error)

  // ----- The cookie demand

  method AnyVerifyRequest(ms: seq<HandshakeMessage>) returns (found: bool)
    ensures found == HasVerifyRequest(ms)
  {
    found := false;
    for i := 0 to |ms|
      invariant found == HasVerifyRequest(ms[..i])
    {
      if ms[i].messageType == HelloVerifyRequest {
        found := true;
        assert ms[..i + 1][i].messageType == HelloVerifyRequest;
      } else {
        assert ms[..i + 1] == ms[..i] + [ms[i]];
        assert found ==> HasVerifyRequest(ms[..i + 1]) by {
          if found {
            var k :| 0 <= k < |ms[..i]| && ms[..i][k].messageType == HelloVerifyRequest;
            assert ms[..i + 1][k].messageType == HelloVerifyRequest;
          }
        }
      }
    }
    assert ms[..|ms|] == ms;
  }

  method VerifyDatagram(cfg: ClientConfig, hello: DtlsClientHelloState, rs: seq<DtlsRecord>, ghost st: Connector)
    returns (w: Wait)
    requires st.AwaitVerify? && st.hello == hello.View()
    modifies hello`cookie
    ensures match w
            case Keep => VerifyRecords(cfg, st, rs) == st && hello.View() == st.hello
            case Over => VerifyRecords(cfg, st, rs) == Retry(cfg, hello.View(), st.handshake, st.sent)
            case Stop(_) => VerifyRecords(cfg, st, rs) == Aborted(st.sent)
  {
    hide HandleVerifyRequest, HasVerifyRequest, RecordMessages, Retry;
    for i := 0 to |rs|
      invariant hello.View() == st.hello && VerifyRecords(cfg, st, rs) == VerifyRecords(cfg, st, rs[i..])
    {
      assert rs[i..][1..] == rs[i + 1..];
      match rs[i].header.contentType {
        case Handshake =>
          var messages := ReadMessages(rs[i]);
          if messages.Err? {
            return Stop(messages.error);
          }
          var demanded := AnyVerifyRequest(messages.value);
          if demanded {
            var taken := hello.HandleHelloVerifyRequest(rs[i]);
            if taken.Err? {
              return Stop(taken.error);
            }
            RetryLeaves(cfg, hello.View(), st.handshake, st.sent);
            return Over;
          }
        case Alert =>
          return Stop(Error.Crypto);
        case _ =>
      }
    }
    w := Keep;
  }

  // ----- The server flight

  method FlightMessagesOf(c: Crypto, cfg: ClientConfig, handshake: ThreadDtlsHandshake, ms: seq<HandshakeMessage>,
                          ghost st: Connector)
    returns (w: Wait)
    requires handshake.Valid() && st.AwaitFlight? && st.handshake == handshake.View()
    modifies handshake, handshake.transcript
    ensures handshake.Valid()
    ensures match w
            case Keep => FlightMessages(c, cfg, st, ms) == AwaitFlight(st.hello, handshake.View(), st.sent)
            case Over => FlightMessages(c, cfg, st, ms) == Answer(c, cfg, st.hello, handshake.View(), st.sent)
            case Stop(_) => FlightMessages(c, cfg, st, ms) == Aborted(st.sent)
  {
    hide T.HandleServerHello, T.HandleServerKeyExchange, T.HandleServerHelloDone, Answer;
    ghost var now := st;
    for i := 0 to |ms|
      invariant handshake.Valid() && now == AwaitFlight(st.hello, handshake.View(), st.sent)
      invariant FlightMessages(c, cfg, st, ms) == FlightMessages(c, cfg, now, ms[i..])
    {
      assert ms[i..][1..] == ms[i + 1..];
      var step: Result<()>;
      match ms[i].messageType {
        case ServerHello =>
          step := handshake.HandleServerHello(c, ms[i]);
        case ServerKeyExchange =>
          step := handshake.HandleServerKeyExchange(c, ms[i]);
        case ServerHelloDone =>
          step := handshake.HandleServerHelloDone(ms[i]);
          if step.Ok? {
            return Over;
          }
        case _ =>
          step := Err(Error.Crypto);
      }
      if step.Err? {
        return Stop(step.error);
      }
      now := AwaitFlight(st.hello, handshake.View(), st.sent);
    }
    w := Keep;
  }

  method FlightDatagram(c: Crypto, cfg: ClientConfig, handshake: ThreadDtlsHandshake, rs: seq<DtlsRecord>,
                        ghost st: Connector)
    returns (w: Wait)
    requires handshake.Valid() && st.AwaitFlight? && st.handshake == handshake.View()
    modifies handshake, handshake.transcript
    ensures handshake.Valid()
    ensures match w
            case Keep => ReadFlight(c, cfg, st, rs) == AwaitFlight(st.hello, handshake.View(), st.sent)
            case Over => ReadFlight(c, cfg, st, rs) == Answer(c, cfg, st.hello, handshake.View(), st.sent)
            case Stop(_) => ReadFlight(c, cfg, st, rs) == Aborted(st.sent)
  {
    hide FlightMessages, RecordMessages, Answer;
    ghost var now := st;
    for i := 0 to |rs|
      invariant handshake.Valid() && now == AwaitFlight(st.hello, handshake.View(), st.sent)
      invariant ReadFlight(c, cfg, st, rs) == ReadFlight(c, cfg, now, rs[i..])
    {
      assert rs[i..][1..] == rs[i + 1..];
      match rs[i].header.contentType {
        case Handshake =>
          var messages := ReadMessages(rs[i]);
          if messages.Err? {
            return Stop(messages.error);
          }
          w := FlightMessagesOf(c, cfg, handshake, messages.value, now);
          if w != Keep {
            return;
          }
        case Alert =>
          return Stop(Error.Crypto);
        case _ =>
      }
      now := AwaitFlight(st.hello, handshake.View(), st.sent);
    }
    w := Keep;
  }

  // ----- The server Finished

  method FinishedMessagesOf(c: Crypto, handshake: ThreadDtlsHandshake, keys: KeyMaterial, ms: seq<HandshakeMessage>,
                            ghost st: Connector)
    returns (w: Wait)
    requires handshake.Valid() && st.AwaitFinished? && st.handshake == handshake.View() && st.keys == keys
    modifies handshake.transcript
    ensures handshake.Valid()
    ensures match w
            case Keep => FinishedMessages(c, st, ms) == st && handshake.View() == st.handshake
            case Over => FinishedMessages(c, st, ms) == Connected(keys, handshake.View(), st.sent)
            case Stop(_) => FinishedMessages(c, st, ms) == Aborted(st.sent)
  {
    hide T.VerifyServerFinished;
    for i := 0 to |ms|
      invariant handshake.Valid() && handshake.View() == st.handshake
      invariant FinishedMessages(c, st, ms) == FinishedMessages(c, st, ms[i..])
    {
      assert ms[i..][1..] == ms[i + 1..];
      if ms[i].messageType == Finished {
        var verified := handshake.VerifyServerFinished(c, ms[i], keys);
        return if verified.Err? then Stop(verified.error) else Over;
      }
    }
    w := Keep;
  }

  method FinishedDatagram(c: Crypto, handshake: ThreadDtlsHandshake, keys: KeyMaterial, before: bool, rs: seq<DtlsRecord>,
                          ghost st: Connector)
    returns (w: Wait, saw: bool)
    requires handshake.Valid() && st == AwaitFinished(handshake.View(), keys, before, st.sent)
    modifies handshake.transcript
    ensures handshake.Valid()
    ensures match w
            case Keep => ReadFinished(c, st, rs) == AwaitFinished(handshake.View(), keys, saw, st.sent)
            case Over => ReadFinished(c, st, rs) == Connected(keys, handshake.View(), st.sent)
            case Stop(_) => ReadFinished(c, st, rs) == Aborted(st.sent)
  {
    hide FinishedMessages, RecordMessages, Open, NewRecord;
    saw := before;
    ghost var now := st;
    for i := 0 to |rs|
      invariant handshake.Valid() && now == AwaitFinished(handshake.View(), keys, saw, st.sent)
      invariant ReadFinished(c, st, rs) == ReadFinished(c, now, rs[i..])
    {
      assert rs[i..][1..] == rs[i + 1..];
      match (rs[i].header.epoch, rs[i].header.contentType) {
        case (_, ChangeCipherSpec) =>
          if rs[i].payload != [1] {
            return Stop(Error.Crypto), saw;
          }
          saw := true;
        case (1, Handshake) =>
          if !saw {
            return Stop(Error.Crypto), saw;
          }
          var plaintext := Open(c, rs[i], keys.keyBlock.serverWriteKey, keys.keyBlock.serverWriteIv);
          if plaintext.Err? {
            return Stop(plaintext.error), saw;
          }
          var plain := NewRecord(ContentType.Handshake, 1, 0, plaintext.value);
          if plain.Err? {
            return Stop(plain.error), saw;
          }
          var messages := ReadMessages(plain.value);
          if messages.Err? {
            return Stop(messages.error), saw;
          }
          w := FinishedMessagesOf(c, handshake, keys, messages.value, now);
          if w != Keep {
            return;
          }
        case (_, Alert) =>
          return Stop(Error.Crypto), saw;
        case _ =>
      }
      now := AwaitFinished(handshake.View(), keys, saw, st.sent);
    }
    w := Keep;
  }

  // ----- The whole client

  lemma {:induction false} EndedRun(c: Crypto, cfg: ClientConfig, ds: seq<Datagram>, i: nat)
    requires i <= |ds|
    requires var st := ClientRun(c, cfg, ds[..i]); st.Connected? || st.Aborted?
    ensures ClientRun(c, cfg, ds) == ClientRun(c, cfg, ds[..i])
    decreases |ds|
  {
    hide Start, VerifyRecords, ReadFlight, ReadFinished;
    if i == |ds| {
      assert ds[..i] == ds;
    } else {
      assert ds[..|ds| - 1][..i] == ds[..i];
      EndedRun(c, cfg, ds[..|ds| - 1], i);
    }
  }

  lemma RunStep(c: Crypto, cfg: ClientConfig, ds: seq<Datagram>, i: nat)
    requires i < |ds|
    ensures ClientRun(c, cfg, ds[..i + 1]) == ClientStep(c, cfg, ClientRun(c, cfg, ds[..i]), ds[i])
  {
    hide ClientStep, Start;
    assert ds[..i + 1][..i] == ds[..i];
  }

  lemma RunStart(c: Crypto, cfg: ClientConfig, ds: seq<Datagram>)
    ensures ClientRun(c, cfg, ds[..0]) == Start(c, cfg)
  {
    hide Start;
  }

  lemma StepAwaitVerify(c: Crypto, cfg: ClientConfig, st: Connector, d: Datagram)
    requires st.AwaitVerify?
    ensures ClientStep(c, cfg, st, d) == if d.source != cfg.peer then st else VerifyRecords(cfg, st, d.records)
  {
    hide VerifyRecords;
  }

  predicate Reports(st: Connector, r: Result<KeyMaterial>, sent: seq<Sent>) {
    match st
    case Connected(keys, _, s) => r == Ok(keys) && sent == s
    case Aborted(s) => r.Err? && sent == s
    case _ => r == Err(Timeout) && sent == st.sent
  }

  method AwaitServerFinished(c: Crypto, cfg: ClientConfig, handshake: ThreadDtlsHandshake, keys: KeyMaterial,
                             ds: seq<Datagram>, from: nat, sent: seq<Sent>)
    returns (r: Result<KeyMaterial>)
    requires from <= |ds| && handshake.Valid()
    requires ClientRun(c, cfg, ds[..from]) == AwaitFinished(handshake.View(), keys, false, sent)
    modifies handshake.transcript
    ensures Reports(ClientRun(c, cfg, ds), r, sent)
  {
    hide ClientRun, ReadFinished, ReadFlight, VerifyRecords;
    var saw := false;
    for i := from to |ds|
      invariant handshake.Valid() && ClientRun(c, cfg, ds[..i]) == AwaitFinished(handshake.View(), keys, saw, sent)
    {
      RunStep(c, cfg, ds, i);
      if ds[i].source == cfg.peer {
        var w;
        w, saw := FinishedDatagram(c, handshake, keys, saw, ds[i].records, ClientRun(c, cfg, ds[..i]));
        if w != Keep {
          EndedRun(c, cfg, ds, i + 1);
          return if w.Over? then Ok(keys) else Err(w.error);
        }
      }
    }
    assert ds[..|ds|] == ds;
    r := Err(Timeout);
  }

  method BuildClientFlight(c: Crypto, cfg: ClientConfig, handshake: ThreadDtlsHandshake, hello: DtlsClientHelloState)
    returns (r: Result<(KeyMaterial, seq<DtlsRecord>)>)
    requires handshake.Valid()
    modifies handshake.transcript
    ensures handshake.Valid()
    ensures match ClientFlight(c, cfg, hello.View(), old(handshake.View()))
            case Ok((s, keys, rs)) => r == Ok((keys, rs)) && handshake.View() == s
            case Err(e) => r == Err(e)
  {
    hide T.BuildClientKeyExchange, T.ClientKeys, T.BuildClientFinished, PlaintextRecord, NewRecord, EncodeMessage, Protect;
    var exchange := handshake.BuildClientKeyExchange(c, hello.nextMessage, cfg.v3);
    if exchange.Err? {
      return Err(exchange.error);
    }
    var keys := handshake.DeriveKeyMaterial(c);
    if keys.Err? {
      return Err(keys.error);
    }
    var finished := handshake.BuildClientFinished(c, (hello.nextMessage + 1) % 0x1_0000);
    if finished.Err? {
      return Err(finished.error);
    }
    var first := PlaintextRecord(exchange.value, hello.nextRecord);
    if first.Err? {
      return Err(first.error);
    }
    var ccs := NewRecord(ChangeCipherSpec, 0, Increment(hello.nextRecord), [1]);
    if ccs.Err? {
      return Err(ccs.error);
    }
    var wire := EncodeMessage(finished.value);
    if wire.Err? {
      return Err(wire.error);
    }
    var block := keys.value.keyBlock;
    var sealed := Protect(c, ContentType.Handshake, 1, 0, block.clientWriteKey, block.clientWriteIv, wire.value);
    if sealed.Err? {
      return Err(sealed.error);
    }
    r := Ok((keys.value, [first.value, ccs.value, sealed.value]));
  }

  method AwaitServerFlight(c: Crypto, cfg: ClientConfig, handshake: ThreadDtlsHandshake, hello: DtlsClientHelloState,
                           ds: seq<Datagram>, from: nat, before: seq<Sent>)
    returns (r: Result<KeyMaterial>, sent: seq<Sent>)
    requires from <= |ds| && handshake.Valid()
    requires ClientRun(c, cfg, ds[..from]) == AwaitFlight(hello.View(), handshake.View(), before)
    modifies handshake, handshake.transcript
    ensures Reports(ClientRun(c, cfg, ds), r, sent)
  {
    hide ClientRun, ReadFinished, ReadFlight, VerifyRecords, ClientFlight;
    sent := before;
    for i := from to |ds|
      invariant handshake.Valid() && ClientRun(c, cfg, ds[..i]) == AwaitFlight(hello.View(), handshake.View(), sent)
    {
      RunStep(c, cfg, ds, i);
      if ds[i].source == cfg.peer {
        var w := FlightDatagram(c, cfg, handshake, ds[i].records, ClientRun(c, cfg, ds[..i]));
        if w.Over? {
          var flight := BuildClientFlight(c, cfg, handshake, hello);
          if flight.Err? {
            EndedRun(c, cfg, ds, i + 1);
            return Err(flight.error), sent;
          }
          sent := Send(cfg, sent, flight.value.1);
          r := AwaitServerFinished(c, cfg, handshake, flight.value.0, ds, i + 1, sent);
          return;
        }
        if w.Stop? {
          EndedRun(c, cfg, ds, i + 1);
          return Err(w.error), sent;
        }
      }
    }
    assert ds[..|ds|] == ds;
    r := Err(Timeout);
  }

  /** The retried ClientHello, and everything after it. */
  method RetryHello(c: Crypto, cfg: ClientConfig, handshake: ThreadDtlsHandshake, hello: DtlsClientHelloState,
                    ds: seq<Datagram>, from: nat, before: seq<Sent>)
    returns (r: Result<KeyMaterial>, sent: seq<Sent>)
    requires from <= |ds| && handshake.Valid()
    requires ClientRun(c, cfg, ds[..from]) == Retry(cfg, hello.View(), handshake.View(), before)
    modifies hello, handshake, handshake.transcript
    ensures Reports(ClientRun(c, cfg, ds), r, sent)
  {
    hide ClientRun, NextHello, RecordMessage, T.RecordClientHello;
    sent := before;
    var second := hello.NextClientHelloRecord();
    if second.Err? {
      EndedRun(c, cfg, ds, from);
      return Err(second.error), sent;
    }
    var message := RecordMessage(second.value, ClientHello);
    if message.Err? {
      EndedRun(c, cfg, ds, from);
      return Err(message.error), sent;
    }
    var recorded := handshake.RecordClientHello(message.value);
    if recorded.Err? {
      EndedRun(c, cfg, ds, from);
      return Err(recorded.error), sent;
    }
    sent := Send(cfg, sent, [second.value]);
    r, sent := AwaitServerFlight(c, cfg, handshake, hello, ds, from, sent);
  }

  method AwaitHelloVerify(c: Crypto, cfg: ClientConfig, handshake: ThreadDtlsHandshake, hello: DtlsClientHelloState,
                          ds: seq<Datagram>, before: seq<Sent>)
    returns (r: Result<KeyMaterial>, sent: seq<Sent>)
    requires handshake.Valid()
    requires ClientRun(c, cfg, ds[..0]) == AwaitVerify(hello.View(), handshake.View(), before)
    modifies hello, handshake, handshake.transcript
    ensures Reports(ClientRun(c, cfg, ds), r, sent)
  {
    hide ClientRun, ClientStep, VerifyRecords, Retry;
    sent := before;
    for i := 0 to |ds|
      invariant handshake.Valid() && ClientRun(c, cfg, ds[..i]) == AwaitVerify(hello.View(), handshake.View(), sent)
    {
      RunStep(c, cfg, ds, i);
      StepAwaitVerify(c, cfg, ClientRun(c, cfg, ds[..i]), ds[i]);
      if ds[i].source == cfg.peer {
        var w := VerifyDatagram(cfg, hello, ds[i].records, ClientRun(c, cfg, ds[..i]));
        if w.Over? {
          r, sent := RetryHello(c, cfg, handshake, hello, ds, i + 1, sent);
          return;
        }
        if w.Stop? {
          EndedRun(c, cfg, ds, i + 1);
          return Err(w.error), sent;
        }
      }
    }
    assert ds[..|ds|] == ds;
    r := Err(Timeout);
  }

  /** Runs the client against the datagrams that arrive before the timeout. */
  method Connect(c: Crypto, cfg: ClientConfig, ds: seq<Datagram>) returns (r: Result<KeyMaterial>, sent: seq<Sent>)
    ensures Reports(ClientRun(c, cfg, ds), r, sent)
  {
    hide ClientRun, NextHello, T.ClientKkpp;
    RunStart(c, cfg, ds);
    sent := [];
    var handshake := new ThreadDtlsHandshake(c, cfg.secret, cfg.random, cfg.x1, cfg.x2, cfg.v1, cfg.v2);
    var kkpp := handshake.ClientHelloKkpp(c);
    if kkpp.Err? {
      EndedRun(c, cfg, ds, 0);
      return Err(kkpp.error), sent;
    }
    var hello := new DtlsClientHelloState(cfg.random, kkpp.value);
    var first := hello.NextClientHelloRecord();
    if first.Err? {
      EndedRun(c, cfg, ds, 0);
      return Err(first.error), sent;
    }
    sent := Send(cfg, sent, [first.value]);
    r, sent := AwaitHelloVerify(c, cfg, handshake, hello, ds, sent);
  }
}
