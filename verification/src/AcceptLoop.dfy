/** The acceptor's receive loops, over a handshake object and local variables,
    refining the acceptor machine. */
module AcceptLoop {
  import opened Bytes
  import opened Primitives
  import opened Record
  import opened RecordProtection
  import opened KeySchedule
  import opened Handshake
  import opened HandshakeMachines
  import opened ServerDriver
  import T = ThreadHandshake
  import H = Hello

  // ----- Choosing a peer

  method ScanMessagesOf(c: Crypto, cfg: Config, ms: seq<HandshakeMessage>, d: Datagram, start: U64, before: seq<Sent>)
    returns (scan: HelloScan)
    ensures scan == ScanMessages(c, cfg, ms, d, start, before)
  {
    hide T.CookieVerifies, H.DecodeClientHello, VerifyRequest, PlaintextRecord;
    var next, sent := start, before;
    for i := 0 to |ms|
      invariant ScanMessages(c, cfg, ms, d, start, before) == ScanMessages(c, cfg, ms[i..], d, next, sent)
    {
      var message := ms[i];
      assert ms[i..][1..] == ms[i + 1..];
      if message.messageType == ClientHello {
        var hello := H.DecodeClientHello(message.payload);
        if hello.Err? {
          return Broken(sent);
        }
        if T.CookieVerifies(c, cfg.cookieKey, hello.value) {
          return Chosen(message, next, sent);
        }
        var verify := VerifyRequest(c, cfg.cookieKey, hello.value.random, message.messageSeq);
        if verify.Err? {
          return Broken(sent);
        }
        var record := PlaintextRecord(verify.value, next);
        if record.Err? {
          return Broken(sent);
        }
        next, sent := Increment(next), sent + [Sent(d.local, d.source, [record.value])];
      }
    }
    scan := Waiting(next, sent);
  }

  method ScanDatagram(c: Crypto, cfg: Config, d: Datagram, start: U64, before: seq<Sent>) returns (scan: HelloScan)
    ensures scan == ScanRecords(c, cfg, d.records, d, start, before)
  {
    hide ScanMessages;
    var next, sent := start, before;
    for i := 0 to |d.records|
      invariant ScanRecords(c, cfg, d.records, d, start, before) == ScanRecords(c, cfg, d.records[i..], d, next, sent)
    {
      var record := d.records[i];
      assert d.records[i..][1..] == d.records[i + 1..];
      if record.header.epoch == 0 && record.header.contentType == ContentType.Handshake {
        var messages := ReadMessages(record);
        if messages.Err? {
          return Broken(sent);
        }
        scan := ScanMessagesOf(c, cfg, messages.value, d, next, sent);
        match scan {
          case Waiting(n, s) => next, sent := n, s;
          case _ => return;
        }
      }
    }
    scan := Waiting(next, sent);
  }

  method NumberFlight(ms: seq<HandshakeMessage>, start: U64) returns (r: Result<seq<DtlsRecord>>, next: U64)
    ensures r == FlightRecords(ms, start)
    ensures |ms| == 3 && r.Ok? ==> next == Increment(Increment(Increment(start)))
  {
    hide PlaintextRecord;
    var records := [];
    next := start;
    PrefixedEmpty(FlightRecords(ms, start));
    for i := 0 to |ms|
      invariant FlightRecords(ms, start) == Prefixed(records, FlightRecords(ms[i..], next))
      invariant next == IncrementBy(start, i)
    {
      assert ms[i..][1..] == ms[i + 1..];
      var record := PlaintextRecord(ms[i], next);
      if record.Err? {
        return Err(record.error), next;
      }
      PrefixedStep(records, [record.value], FlightRecords(ms[i + 1..], Increment(next)));
      records := records + [record.value];
      next := Increment(next);
    }
    assert records + [] == records;
    assert |ms| == 3 ==> IncrementBy(start, 3) == Increment(IncrementBy(start, 2));
    r := Ok(records);
  }

  ghost function IncrementBy(n: U64, k: nat): U64 {
    if k == 0 then n else Increment(IncrementBy(n, k - 1))
  }

  method BuildFlight(c: Crypto, handshake: ThreadDtlsServerHandshake, m: HandshakeMessage, v: nat)
    returns (r: Result<seq<HandshakeMessage>>)
    requires handshake.Valid()
    modifies handshake, handshake.transcript
    ensures handshake.Valid()
    ensures match T.ServerFlight(c, old(handshake.View()), m, v)
            case Ok((s, ms)) => r == Ok(ms) && handshake.View() == s && |ms| == 3
            case Err(e) => r == Err(e)
  {
    hide T.HandleClientHello, T.BuildServerHello, T.BuildServerKeyExchange, T.BuildServerHelloDone;
    var accepted := handshake.HandleClientHello(c, m);
    if accepted.Err? {
      return Err(accepted.error);
    }
    var hello := handshake.BuildServerHello(c, 1);
    if hello.Err? {
      return Err(hello.error);
    }
    var exchange := handshake.BuildServerKeyExchange(c, 2, v);
    if exchange.Err? {
      return Err(exchange.error);
    }
    var done := handshake.BuildServerHelloDone(3);
    r := match done case Ok(last) => Ok([hello.value, exchange.value, last]) case Err(e) => Err(e);
  }

  // ----- With a chosen peer

  /** The machine state that the loop's variables stand for. */
  ghost predicate Stands(st: Acceptor, handshake: ThreadDtlsServerHandshake, saw: bool, keys: Option<KeyMaterial>)
    reads handshake, handshake.transcript
  {
    && st.AwaitClient? && handshake.Valid()
    && st.handshake == handshake.View() && st.sawChangeCipherSpec == saw && st.keys == keys
  }

  /** Only the handshake, the keys and the flag move while waiting. */
  predicate SamePeer(a: Acceptor, b: Acceptor) {
    && a.AwaitClient? && b.AwaitClient?
    && a.local == b.local && a.peer == b.peer && a.next == b.next && a.sent == b.sent
  }

  method TakeExchanges(c: Crypto, handshake: ThreadDtlsServerHandshake, ms: seq<HandshakeMessage>, saw: bool,
                       derived: Option<KeyMaterial>, ghost st: Acceptor)
    returns (r: Result<Option<KeyMaterial>>, ghost after: Acceptor)
    requires Stands(st, handshake, saw, derived)
    modifies handshake, handshake.transcript
    ensures after == HandleExchanges(c, st, ms)
    ensures match r
            case Ok(keys) => Stands(after, handshake, saw, keys) && SamePeer(st, after)
            case Err(_) => after == Failed(st.sent)
  {
    hide T.HandleClientKeyExchange, T.ServerKeys;
    var keys := derived;
    after := st;
    for i := 0 to |ms|
      invariant Stands(after, handshake, saw, keys) && SamePeer(st, after)
      invariant HandleExchanges(c, st, ms) == HandleExchanges(c, after, ms[i..])
    {
      assert ms[i..][1..] == ms[i + 1..];
      ghost var next := HandleExchange(c, after, ms[i]);
      if ms[i].messageType != ClientKeyExchange {
        return Err(Error.Crypto), next;
      }
      var handled := handshake.HandleClientKeyExchange(c, ms[i]);
      if handled.Err? {
        return Err(handled.error), next;
      }
      var material := handshake.DeriveKeyMaterial(c);
      if material.Err? {
        return Err(material.error), next;
      }
      keys := Some(material.value);
      after := next;
    }
    r := Ok(keys);
  }

  datatype RecordOutcome =
    | Continue(saw: bool, keys: Option<KeyMaterial>)
    | Done(keyMaterial: KeyMaterial, records: seq<DtlsRecord>)
    | Stop(error: Error, alert: seq<Sent>)

  ghost predicate Agrees(o: RecordOutcome, handshake: ThreadDtlsServerHandshake, st: Acceptor, after: Acceptor)
    requires st.AwaitClient?
    reads handshake, handshake.transcript
  {
    match o
    case Continue(saw, keys) => Stands(after, handshake, saw, keys) && SamePeer(st, after)
    case Done(keys, rs) =>
      && after.Accepted? && after.local == st.local && after.peer == st.peer && after.keyMaterial == keys
      && after.sent == st.sent + [Sent(st.local, st.peer, rs)]
    case Stop(_, alert) => after == Failed(st.sent + alert)
  }

  method FinishedRecords(c: Crypto, handshake: ThreadDtlsServerHandshake, keys: KeyMaterial, next: U64, ghost st: Acceptor)
    returns (r: Result<seq<DtlsRecord>>)
    requires handshake.Valid() && st.AwaitClient? && st.next == next
    modifies handshake.transcript
    ensures handshake.Valid() && r == FinishedFlight(c, st, old(handshake.View()), keys)
  {
    hide T.BuildServerFinished, EncodeMessage, Protect, NewRecord;
    var finished := handshake.BuildServerFinished(c, 4, keys);
    if finished.Err? {
      return Err(finished.error);
    }
    var ccs := NewRecord(ChangeCipherSpec, 0, next, [1]);
    if ccs.Err? {
      return Err(ccs.error);
    }
    var wire := EncodeMessage(finished.value);
    if wire.Err? {
      return Err(wire.error);
    }
    var sealed := Protect(c, ContentType.Handshake, 1, 0, keys.keyBlock.serverWriteKey, keys.keyBlock.serverWriteIv, wire.value);
    if sealed.Err? {
      return Err(sealed.error);
    }
    r := Ok([ccs.value, sealed.value]);
  }

  method FinishHandshake(c: Crypto, handshake: ThreadDtlsServerHandshake, record: DtlsRecord, saw: bool,
                         derived: Option<KeyMaterial>, next: U64, alert: seq<Sent>, ghost st: Acceptor)
    returns (o: RecordOutcome)
    requires Stands(st, handshake, saw, derived) && st.next == next && alert == AlertDatagram(st)
    modifies handshake, handshake.transcript
    ensures Agrees(o, handshake, st, HandleFinished(c, st, record))
  {
    hide Open, RecordMessage, T.VerifyClientFinished, FinishedFlight, NewRecord, AlertDatagram;
    assert st.sent + [] == st.sent;
    if !saw {
      return Stop(Error.Crypto, []);
    }
    if derived.None? {
      return Stop(InvalidState, []);
    }
    var keys := derived.value;
    var plaintext := Open(c, record, keys.keyBlock.clientWriteKey, keys.keyBlock.clientWriteIv);
    if plaintext.Err? {
      return Stop(plaintext.error, alert);
    }
    var finished := OpenFinished(c, record, keys);
    if finished.Err? {
      return Stop(finished.error, []);
    }
    var verified := handshake.VerifyClientFinished(c, finished.value, keys);
    if verified.Err? {
      return Stop(verified.error, alert);
    }
    var flight := FinishedRecords(c, handshake, keys, next, st);
    if flight.Err? {
      return Stop(flight.error, []);
    }
    o := Done(keys, flight.value);
  }

  method HandleClientRecord(c: Crypto, handshake: ThreadDtlsServerHandshake, record: DtlsRecord, saw: bool,
                            keys: Option<KeyMaterial>, next: U64, alert: seq<Sent>, ghost st: Acceptor)
    returns (o: RecordOutcome)
    requires Stands(st, handshake, saw, keys) && st.next == next && alert == AlertDatagram(st)
    modifies handshake, handshake.transcript
    ensures Agrees(o, handshake, st, HandleRecord(c, st, record))
  {
    hide RecordMessages, HandleExchanges, HandleFinished, AlertDatagram;
    assert st.sent + [] == st.sent;
    match (record.header.epoch, record.header.contentType)
    case (0, Handshake) =>
      var messages := ReadMessages(record);
      if messages.Err? {
        return Stop(messages.error, []);
      }
      var derived, after := TakeExchanges(c, handshake, messages.value, saw, keys, st);
      o := if derived.Err? then Stop(derived.error, []) else Continue(saw, derived.value);
    case (0, ChangeCipherSpec) =>
      o := if record.payload != [1] then Stop(Error.Crypto, []) else Continue(true, keys);
    case (1, Handshake) =>
      o := FinishHandshake(c, handshake, record, saw, keys, next, alert, st);
    case (_, Alert) =>
      o := Stop(Error.Crypto, []);
    case _ =>
      o := Continue(saw, keys);
  }

  method HandleClientDatagram(c: Crypto, handshake: ThreadDtlsServerHandshake, rs: seq<DtlsRecord>, before: bool,
                              derived: Option<KeyMaterial>, next: U64, alert: seq<Sent>, ghost st: Acceptor)
    returns (o: RecordOutcome)
    requires Stands(st, handshake, before, derived) && st.next == next && alert == AlertDatagram(st)
    modifies handshake, handshake.transcript
    ensures Agrees(o, handshake, st, HandleRecords(c, st, rs))
  {
    hide HandleRecord;
    var saw, keys := before, derived;
    ghost var now := st;
    for i := 0 to |rs|
      invariant Stands(now, handshake, saw, keys) && SamePeer(st, now)
      invariant HandleRecords(c, st, rs) == HandleRecords(c, now, rs[i..])
    {
      assert rs[i..][1..] == rs[i + 1..];
      ghost var after := HandleRecord(c, now, rs[i]);
      o := HandleClientRecord(c, handshake, rs[i], saw, keys, next, alert, now);
      match o {
        case Continue(s, k) => saw, keys := s, k;
        case _ => return;
      }
      now := after;
    }
    o := Continue(saw, keys);
  }

  // ----- The whole acceptor

  /** Once accepted or failed, later datagrams are never read. */
  lemma {:induction false} EndedRun(c: Crypto, cfg: Config, ds: seq<Datagram>, i: nat)
    requires i <= |ds|
    requires var st := Run(c, cfg, ds[..i]); st.Accepted? || st.Failed?
    ensures Run(c, cfg, ds) == Run(c, cfg, ds[..i])
    decreases |ds|
  {
    if i == |ds| {
      assert ds[..i] == ds;
    } else {
      hide ScanRecords, Choose, HandleRecords;
      assert ds[..|ds| - 1][..i] == ds[..i];
      EndedRun(c, cfg, ds[..|ds| - 1], i);
    }
  }

  lemma RunStep(c: Crypto, cfg: Config, ds: seq<Datagram>, i: nat)
    requires i < |ds|
    ensures Run(c, cfg, ds[..i + 1]) == Step(c, cfg, Run(c, cfg, ds[..i]), ds[i])
  {
    hide Step;
    assert ds[..i + 1][..i] == ds[..i];
  }

  /** What a call of the acceptor returned and sent, as the machine has it. */
  predicate Reports(st: Acceptor, r: Result<(Address, Address, KeyMaterial)>, sent: seq<Sent>) {
    match st
    case Accepted(local, peer, keys, _, s, _, _, _) => r == Ok((local, peer, keys)) && sent == s
    case Failed(s) => r.Err? && sent == s
    case _ => r == Err(Timeout) && sent == st.sent
  }

  method ServePeer(c: Crypto, cfg: Config, ds: seq<Datagram>, from: nat, m: HandshakeMessage, start: U64, before: seq<Sent>)
    returns (r: Result<(Address, Address, KeyMaterial)>, sent: seq<Sent>)
    requires 0 < from <= |ds| && Run(c, cfg, ds[..from]) == Choose(c, cfg, m, ds[from - 1], start, before)
    ensures Reports(Run(c, cfg, ds), r, sent)
  {
    hide Run, Step, T.ServerFlight, FlightRecords, HandleRecords, NewRecord;
    var local, peer := ds[from - 1].local, ds[from - 1].source;
    sent := before;
    var handshake := new ThreadDtlsServerHandshake(c, cfg.secret, cfg.random, cfg.x1, cfg.x2, cfg.v1, cfg.v2);
    var flight := BuildFlight(c, handshake, m, cfg.v3);
    if flight.Err? {
      EndedRun(c, cfg, ds, from);
      return Err(flight.error), sent;
    }
    var records, next := NumberFlight(flight.value, start);
    if records.Err? {
      EndedRun(c, cfg, ds, from);
      return Err(records.error), sent;
    }
    sent := sent + [Sent(local, peer, records.value)];
    r, sent := ServeClient(c, cfg, ds, from, handshake, local, peer, next, sent);
  }

  /** The loop over the datagrams of the chosen peer. */
  method ServeClient(c: Crypto, cfg: Config, ds: seq<Datagram>, from: nat, handshake: ThreadDtlsServerHandshake,
                     local: Address, peer: Address, next: U64, before: seq<Sent>)
    returns (r: Result<(Address, Address, KeyMaterial)>, sent: seq<Sent>)
    requires from <= |ds| && Stands(Run(c, cfg, ds[..from]), handshake, false, None)
    requires var st := Run(c, cfg, ds[..from]); st.local == local && st.peer == peer && st.next == next && st.sent == before
    modifies handshake, handshake.transcript
    ensures Reports(Run(c, cfg, ds), r, sent)
  {
    hide Run, Step, HandleRecords, NewRecord;
    sent := before;
    var saw, keys := false, None;
    var alertRecord := NewRecord(Alert, 0, next, ALERT_HANDSHAKE_FAILURE);
    var alert := match alertRecord case Ok(a) => [Sent(local, peer, [a])] case Err(_) => [];
    for i := from to |ds|
      invariant Stands(Run(c, cfg, ds[..i]), handshake, saw, keys)
      invariant var st := Run(c, cfg, ds[..i]); st.local == local && st.peer == peer && st.next == next && st.sent == sent
    {
      RunStep(c, cfg, ds, i);
      ghost var st := Run(c, cfg, ds[..i]);
      StepWaiting(c, cfg, st, ds[i]);
      if ds[i].source == peer {
        var o := HandleClientDatagram(c, handshake, ds[i].records, saw, keys, next, alert, st);
        match o {
          case Continue(s, k) =>
            saw, keys := s, k;
          case Done(material, rs) =>
            EndedRun(c, cfg, ds, i + 1);
            return Ok((local, peer, material)), sent + [Sent(local, peer, rs)];
          case Stop(e, alarm) =>
            EndedRun(c, cfg, ds, i + 1);
            return Err(e), sent + alarm;
        }
      }
    }
    assert ds[..|ds|] == ds;
    r := Err(Timeout);
  }

  lemma StepWaiting(c: Crypto, cfg: Config, st: Acceptor, d: Datagram)
    requires st.AwaitClient?
    ensures Step(c, cfg, st, d) == if d.source != st.peer then st else HandleRecords(c, st, d.records)
  {
    hide HandleRecords;
  }

  /** Accepts one peer from the datagrams that arrive before the timeout. */
  method Accept(c: Crypto, cfg: Config, ds: seq<Datagram>)
    returns (r: Result<(Address, Address, KeyMaterial)>, sent: seq<Sent>)
    ensures Reports(Run(c, cfg, ds), r, sent)
  {
    hide ScanRecords, Choose;
    var next: U64 := 0;
    sent := [];
    for i := 0 to |ds|
      invariant Run(c, cfg, ds[..i]) == AwaitHello(next, sent)
    {
      RunStep(c, cfg, ds, i);
      var scan := ScanDatagram(c, cfg, ds[i], next, sent);
      match scan {
        case Waiting(n, s) =>
          next, sent := n, s;
        case Chosen(m, n, s) =>
          r, sent := ServePeer(c, cfg, ds, i + 1, m, n, s);
          return;
        case Broken(s) =>
          EndedRun(c, cfg, ds, i + 1);
          return Err(Error.Crypto), s;
      }
    }
    assert ds[..|ds|] == ds;
    r := Err(Timeout);
  }
}
