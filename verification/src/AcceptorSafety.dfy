/** What must have happened before the acceptor returns a session, over every
    sequence of datagrams from any senders. */
module AcceptorSafety {
  import opened Bytes
  import opened Primitives
  import opened Record
  import opened RecordProtection
  import opened KeySchedule
  import opened Handshake
  import opened ThreadHandshake
  import opened ServerDriver
  import EJ = EcJpake
  import H = Hello

  // ----- Evidence in the received datagrams

  ghost predicate Received(ds: seq<Datagram>, peer: Address, r: DtlsRecord) {
    exists k :: 0 <= k < |ds| && ds[k].source == peer && r in ds[k].records
  }

  /** `peer` sent the message `m` in a plaintext handshake record. */
  ghost predicate ReceivedMessage(ds: seq<Datagram>, peer: Address, m: HandshakeMessage) {
    exists r :: Received(ds, peer, r) && CarriesMessage(r, m)
  }

  ghost predicate CarriesMessage(r: DtlsRecord, m: HandshakeMessage) {
    r.header.epoch == 0 && r.header.contentType == ContentType.Handshake && RecordMessages(r).Ok? && m in RecordMessages(r).value
  }

  ghost predicate ReceivedChangeCipherSpec(ds: seq<Datagram>, peer: Address) {
    exists r :: Received(ds, peer, r) && r.header.epoch == 0 && r.header.contentType == ChangeCipherSpec && r.payload == [1]
  }

  /** `peer` sent a record of epoch 1 that opens under `keys` to `m`. */
  ghost predicate ReceivedFinished(c: Crypto, ds: seq<Datagram>, peer: Address, keys: KeyMaterial, m: HandshakeMessage) {
    exists r :: Received(ds, peer, r) && r.header.epoch == 1 && r.header.contentType == ContentType.Handshake
                && OpenFinished(c, r, keys) == Ok(m)
  }

  /** The peer echoed the cookie that belongs to its own random. */
  ghost predicate EchoedCookie(c: Crypto, cfg: Config, m: HandshakeMessage) {
    && m.messageType == ClientHello
    && H.DecodeClientHello(m.payload).Ok?
    && var hello := H.DecodeClientHello(m.payload).value; hello.cookie == c.hmac(cfg.cookieKey, hello.random)[..16]
  }

  /** The handshake after the flight for `hello` and the given key exchanges. */
  function AfterExchanges(c: Crypto, cfg: Config, hello: HandshakeMessage, ms: seq<HandshakeMessage>): Result<ServerState> {
    if ms == [] then
      var (s, _) :- ServerFlight(c, cfg.NewHandshake(c), hello, cfg.v3);
      Ok(s)
    else
      var s :- AfterExchanges(c, cfg, hello, ms[..|ms| - 1]);
      HandleClientKeyExchange(c, s, ms[|ms| - 1])
  }

  ghost predicate PeerChosen(c: Crypto, cfg: Config, ds: seq<Datagram>, peer: Address, hello: HandshakeMessage,
                             exchanges: seq<HandshakeMessage>, handshake: ServerState) {
    && EchoedCookie(c, cfg, hello) && ReceivedMessage(ds, peer, hello)
    && (forall m :: m in exchanges ==> m.messageType == ClientKeyExchange && ReceivedMessage(ds, peer, m))
    && AfterExchanges(c, cfg, hello, exchanges) == Ok(handshake)
  }

  ghost predicate Safe(c: Crypto, cfg: Config, ds: seq<Datagram>, st: Acceptor) {
    match st
    case AwaitClient(_, peer, handshake, _, saw, keys, _, hello, exchanges) =>
      && PeerChosen(c, cfg, ds, peer, hello, exchanges, handshake)
      && (saw ==> ReceivedChangeCipherSpec(ds, peer))
      && (keys.Some? ==> exchanges != [] && ServerKeys(c, handshake) == Ok(keys.value))
    case Accepted(_, peer, keys, handshake, _, hello, exchanges, finished) =>
      && PeerChosen(c, cfg, ds, peer, hello, exchanges, handshake)
      && exchanges != [] && ServerKeys(c, handshake) == Ok(keys)
      && ReceivedChangeCipherSpec(ds, peer)
      && ReceivedFinished(c, ds, peer, keys, finished)
      && IsFinished(c, keys.masterSecret, EJ.Client, handshake.transcript, finished.payload)
    case _ => true
  }

  // ----- Evidence only accumulates

  lemma ReceivedMore(ds: seq<Datagram>, d: Datagram, peer: Address, r: DtlsRecord)
    ensures Received(ds, peer, r) ==> Received(ds + [d], peer, r)
    ensures d.source == peer && r in d.records ==> Received(ds + [d], peer, r)
  {
    var es := ds + [d];
    if k :| 0 <= k < |ds| && ds[k].source == peer && r in ds[k].records {
      assert es[k].source == peer && r in es[k].records;
    }
    if d.source == peer && r in d.records {
      assert es[|ds|].source == peer && r in es[|ds|].records;
    }
  }

  lemma SafeMore(c: Crypto, cfg: Config, ds: seq<Datagram>, d: Datagram, st: Acceptor)
    requires Safe(c, cfg, ds, st)
    ensures Safe(c, cfg, ds + [d], st)
  {
    hide Received, AfterExchanges, EchoedCookie, ServerKeys, CarriesMessage, OpenFinished, IsFinished;
    if st.AwaitClient? || st.Accepted? {
      forall r ensures Received(ds, st.peer, r) ==> Received(ds + [d], st.peer, r) {
        ReceivedMore(ds, d, st.peer, r);
      }
    }
  }

  // ----- Choosing a peer

  lemma {:induction false} ScanMessagesChosen(c: Crypto, cfg: Config, ms: seq<HandshakeMessage>, d: Datagram, next: U64, sent: seq<Sent>)
    ensures var s := ScanMessages(c, cfg, ms, d, next, sent);
            s.Chosen? ==> s.message in ms && EchoedCookie(c, cfg, s.message)
  {
    if ms != [] {
      hide VerifyRequest, PlaintextRecord, H.DecodeClientHello;
      var first := ScanMessage(c, cfg, ms[0], d, next, sent);
      if first.Waiting? {
        ScanMessagesChosen(c, cfg, ms[1..], d, first.next, first.sent);
      }
    }
  }

  lemma {:induction false} ScanRecordsChosen(c: Crypto, cfg: Config, rs: seq<DtlsRecord>, d: Datagram, next: U64, sent: seq<Sent>)
    ensures var s := ScanRecords(c, cfg, rs, d, next, sent);
            s.Chosen? ==> EchoedCookie(c, cfg, s.message) && exists r :: r in rs && CarriesMessage(r, s.message)
  {
    if rs != [] {
      hide ScanMessages, RecordMessages, EchoedCookie;
      var first := ScanRecord(c, cfg, rs[0], d, next, sent);
      if first.Waiting? {
        ScanRecordsChosen(c, cfg, rs[1..], d, first.next, first.sent);
      } else if first.Chosen? {
        ScanMessagesChosen(c, cfg, RecordMessages(rs[0]).value, d, next, sent);
        assert CarriesMessage(rs[0], first.message);
      }
    }
  }

  lemma ChooseSafe(c: Crypto, cfg: Config, ds: seq<Datagram>, d: Datagram, next: U64, sent: seq<Sent>)
    ensures Safe(c, cfg, ds + [d], Step(c, cfg, AwaitHello(next, sent), d))
  {
    hide ScanRecords, EchoedCookie, CarriesMessage, ServerFlight, FlightRecords, Received, ServerKeys, IsFinished, NewServer;
    hide ReceivedFinished, ReceivedChangeCipherSpec;
    ScanRecordsChosen(c, cfg, d.records, d, next, sent);
    var s := ScanRecords(c, cfg, d.records, d, next, sent);
    if s.Chosen? {
      var r :| r in d.records && CarriesMessage(r, s.message);
      ReceivedMore(ds, d, d.source, r);
    }
  }

  // ----- Serving the chosen peer

  lemma ExchangeSafe(c: Crypto, cfg: Config, ds: seq<Datagram>, st: Acceptor, r: DtlsRecord, m: HandshakeMessage)
    requires st.AwaitClient? && Safe(c, cfg, ds, st) && Received(ds, st.peer, r) && CarriesMessage(r, m)
    ensures Safe(c, cfg, ds, HandleExchange(c, st, m))
  {
    hide Received, CarriesMessage, EchoedCookie, ServerFlight, HandleClientKeyExchange, ServerKeys, OpenFinished;
    var after := HandleExchange(c, st, m);
    if after.AwaitClient? {
      var ms := after.exchanges;
      assert ms[..|ms| - 1] == st.exchanges && ms[|ms| - 1] == m;
    }
  }

  lemma {:induction false} ExchangesSafe(c: Crypto, cfg: Config, ds: seq<Datagram>, st: Acceptor, r: DtlsRecord, ms: seq<HandshakeMessage>)
    requires Safe(c, cfg, ds, st) && (st.AwaitClient? ==> Received(ds, st.peer, r))
    requires forall m :: m in ms ==> CarriesMessage(r, m)
    ensures Safe(c, cfg, ds, HandleExchanges(c, st, ms))
    decreases |ms|
  {
    if st.AwaitClient? && ms != [] {
      hide Safe, Received, CarriesMessage, HandleExchange;
      ExchangeSafe(c, cfg, ds, st, r, ms[0]);
      ExchangeKeepsPeer(c, st, ms[0]);
      ExchangesSafe(c, cfg, ds, HandleExchange(c, st, ms[0]), r, ms[1..]);
    }
  }

  lemma ExchangeKeepsPeer(c: Crypto, st: Acceptor, m: HandshakeMessage)
    requires st.AwaitClient?
    ensures HandleExchange(c, st, m).AwaitClient? ==> HandleExchange(c, st, m).peer == st.peer
  {
    hide HandleClientKeyExchange, ServerKeys;
  }

  lemma FinishedSafe(c: Crypto, cfg: Config, ds: seq<Datagram>, st: Acceptor, r: DtlsRecord)
    requires st.AwaitClient? && Safe(c, cfg, ds, st) && Received(ds, st.peer, r)
    requires r.header.epoch == 1 && r.header.contentType == ContentType.Handshake
    ensures Safe(c, cfg, ds, HandleFinished(c, st, r))
  {
    hide Received, PeerChosen, ReceivedChangeCipherSpec, ServerKeys, OpenFinished, FinishedFlight, Open, VerifyClientFinished, IsFinished;
    if st.keys.Some? && OpenFinished(c, r, st.keys.value).Ok? {
      ClientFinishedExact(c, st.handshake, OpenFinished(c, r, st.keys.value).value, st.keys.value);
    }
  }

  lemma RecordSafe(c: Crypto, cfg: Config, ds: seq<Datagram>, st: Acceptor, r: DtlsRecord)
    requires st.AwaitClient? && Safe(c, cfg, ds, st) && Received(ds, st.peer, r)
    ensures Safe(c, cfg, ds, HandleRecord(c, st, r))
  {
    hide Received, PeerChosen, ServerKeys, HandleExchanges, HandleFinished, RecordMessages;
    if r.header.contentType == ContentType.Handshake {
      if r.header.epoch == 1 {
        FinishedSafe(c, cfg, ds, st, r);
      } else if r.header.epoch == 0 && RecordMessages(r).Ok? {
        ExchangesSafe(c, cfg, ds, st, r, RecordMessages(r).value);
      }
    }
  }

  lemma {:induction false} RecordsSafe(c: Crypto, cfg: Config, ds: seq<Datagram>, st: Acceptor, rs: seq<DtlsRecord>)
    requires Safe(c, cfg, ds, st)
    requires st.AwaitClient? ==> forall r :: r in rs ==> Received(ds, st.peer, r)
    ensures Safe(c, cfg, ds, HandleRecords(c, st, rs))
    decreases |rs|
  {
    if st.AwaitClient? && rs != [] {
      hide Safe, Received, HandleRecord;
      RecordSafe(c, cfg, ds, st, rs[0]);
      RecordKeepsPeer(c, st, rs[0]);
      RecordsSafe(c, cfg, ds, HandleRecord(c, st, rs[0]), rs[1..]);
    }
  }

  lemma {:induction false} ExchangesKeepPeer(c: Crypto, st: Acceptor, ms: seq<HandshakeMessage>)
    requires st.AwaitClient?
    ensures HandleExchanges(c, st, ms).AwaitClient? ==> HandleExchanges(c, st, ms).peer == st.peer
    decreases |ms|
  {
    if ms != [] {
      hide HandleExchange;
      ExchangeKeepsPeer(c, st, ms[0]);
      var next := HandleExchange(c, st, ms[0]);
      if next.AwaitClient? {
        ExchangesKeepPeer(c, next, ms[1..]);
      }
    }
  }

  lemma RecordKeepsPeer(c: Crypto, st: Acceptor, r: DtlsRecord)
    requires st.AwaitClient?
    ensures HandleRecord(c, st, r).AwaitClient? ==> HandleRecord(c, st, r).peer == st.peer
  {
    hide HandleExchanges, RecordMessages, OpenFinished, FinishedFlight, Open, VerifyClientFinished;
    if RecordMessages(r).Ok? {
      ExchangesKeepPeer(c, st, RecordMessages(r).value);
    }
  }

  lemma StepSafe(c: Crypto, cfg: Config, ds: seq<Datagram>, st: Acceptor, d: Datagram)
    requires Safe(c, cfg, ds, st)
    ensures Safe(c, cfg, ds + [d], Step(c, cfg, st, d))
  {
    hide HandleRecords, ScanRecords, Received, PeerChosen, ServerKeys, IsFinished, ReceivedChangeCipherSpec, ReceivedFinished, Choose;
    SafeMore(c, cfg, ds, d, st);
    match st
    case AwaitHello(next, sent) => ChooseSafe(c, cfg, ds, d, next, sent);
    case AwaitClient(_, peer, _, _, _, _, _, _, _) =>
      if d.source == peer {
        forall r | r in d.records ensures Received(ds + [d], peer, r) {
          ReceivedMore(ds, d, peer, r);
        }
        RecordsSafe(c, cfg, ds + [d], st, d.records);
      }
    case _ =>
  }

  // ----- The order of the peer's records

  /** The peer's records, in the order they arrived. */
  function PeerRecords(ds: seq<Datagram>, peer: Address): seq<DtlsRecord> {
    if ds == [] then []
    else
      var last := ds[|ds| - 1];
      PeerRecords(ds[..|ds| - 1], peer) + if last.source == peer then last.records else []
  }

  predicate IsChangeCipherSpec(r: DtlsRecord) {
    r.header.epoch == 0 && r.header.contentType == ChangeCipherSpec && r.payload == [1]
  }

  ghost predicate Changed(rs: seq<DtlsRecord>) {
    exists k :: 0 <= k < |rs| && IsChangeCipherSpec(rs[k])
  }

  /** The j-th record opens to the Finished, and a ChangeCipherSpec came before. */
  ghost predicate FinishedAt(c: Crypto, rs: seq<DtlsRecord>, j: nat, keys: KeyMaterial, m: HandshakeMessage) {
    && j < |rs| && Changed(rs[..j])
    && rs[j].header.epoch == 1 && rs[j].header.contentType == ContentType.Handshake && OpenFinished(c, rs[j], keys) == Ok(m)
  }

  ghost predicate InOrder(c: Crypto, rs: seq<DtlsRecord>, st: Acceptor) {
    && (st.AwaitClient? && st.sawChangeCipherSpec ==> Changed(rs))
    && (st.Accepted? ==> exists j :: FinishedAt(c, rs, j, st.keyMaterial, st.finished))
  }

  lemma InOrderMore(c: Crypto, rs: seq<DtlsRecord>, more: seq<DtlsRecord>, st: Acceptor)
    requires InOrder(c, rs, st)
    ensures InOrder(c, rs + more, st)
  {
    hide OpenFinished, IsChangeCipherSpec;
    if k :| 0 <= k < |rs| && IsChangeCipherSpec(rs[k]) {
      assert (rs + more)[k] == rs[k];
    }
    if st.Accepted? {
      var j: nat :| FinishedAt(c, rs, j, st.keyMaterial, st.finished);
      assert (rs + more)[..j] == rs[..j] && (rs + more)[j] == rs[j];
      assert FinishedAt(c, rs + more, j, st.keyMaterial, st.finished);
    }
  }

  lemma {:induction false} ExchangesInOrder(c: Crypto, rs: seq<DtlsRecord>, st: Acceptor, ms: seq<HandshakeMessage>)
    requires st.AwaitClient? && InOrder(c, rs, st)
    ensures InOrder(c, rs, HandleExchanges(c, st, ms))
    decreases |ms|
  {
    if ms != [] {
      hide Changed, FinishedAt, HandleClientKeyExchange, ServerKeys;
      var next := HandleExchange(c, st, ms[0]);
      if next.AwaitClient? {
        ExchangesInOrder(c, rs, next, ms[1..]);
      }
    }
  }

  lemma FinishedInOrder(c: Crypto, rs: seq<DtlsRecord>, st: Acceptor, r: DtlsRecord)
    requires st.AwaitClient? && InOrder(c, rs, st) && r.header.epoch == 1 && r.header.contentType == ContentType.Handshake
    ensures InOrder(c, rs + [r], HandleFinished(c, st, r))
  {
    hide Changed, OpenFinished, Open, VerifyClientFinished, FinishedFlight, AlertDatagram;
    var t, all, j := HandleFinished(c, st, r), rs + [r], |rs|;
    assert all[..j] == rs && all[j] == r;
    assert t.Accepted? ==> FinishedAt(c, all, j, t.keyMaterial, t.finished);
  }

  lemma RecordInOrder(c: Crypto, rs: seq<DtlsRecord>, st: Acceptor, r: DtlsRecord)
    requires st.AwaitClient? && InOrder(c, rs, st)
    ensures InOrder(c, rs + [r], HandleRecord(c, st, r))
  {
    hide InOrder, HandleExchanges, HandleFinished, RecordMessages, FinishedAt;
    InOrderMore(c, rs, [r], st);
    if r.header.contentType == ContentType.Handshake && r.header.epoch == 1 {
      FinishedInOrder(c, rs, st, r);
    } else if r.header.contentType == ContentType.Handshake && r.header.epoch == 0 && RecordMessages(r).Ok? {
      ExchangesInOrder(c, rs + [r], st, RecordMessages(r).value);
    } else {
      OtherInOrder(c, rs, st, r);
    }
  }

  lemma OtherInOrder(c: Crypto, rs: seq<DtlsRecord>, st: Acceptor, r: DtlsRecord)
    requires st.AwaitClient? && InOrder(c, rs + [r], st)
    requires r.header.contentType != ContentType.Handshake || r.header.epoch > 1 || (r.header.epoch == 0 && RecordMessages(r).Err?)
    ensures InOrder(c, rs + [r], HandleRecord(c, st, r))
  {
    hide FinishedAt, RecordMessages, HandleExchanges, HandleFinished;
    assert (rs + [r])[|rs|] == r;
  }

  lemma {:induction false} RecordsInOrder(c: Crypto, before: seq<DtlsRecord>, st: Acceptor, rs: seq<DtlsRecord>)
    requires InOrder(c, before, st)
    ensures InOrder(c, before + rs, HandleRecords(c, st, rs))
    decreases |rs|
  {
    hide InOrder, HandleRecord;
    if !st.AwaitClient? || rs == [] {
      InOrderMore(c, before, rs, st);
    } else {
      RecordInOrder(c, before, st, rs[0]);
      RecordsInOrder(c, before + [rs[0]], HandleRecord(c, st, rs[0]), rs[1..]);
      assert before + rs == before + [rs[0]] + rs[1..];
    }
  }

  /** The order of the chosen peer's records in a run. */
  ghost predicate PeerInOrder(c: Crypto, ds: seq<Datagram>, st: Acceptor) {
    st.AwaitClient? || st.Accepted? ==> InOrder(c, PeerRecords(ds, st.peer), st)
  }

  lemma StepInOrder(c: Crypto, cfg: Config, ds: seq<Datagram>, st: Acceptor)
    requires ds != [] && PeerInOrder(c, ds[..|ds| - 1], st)
    ensures PeerInOrder(c, ds, Step(c, cfg, st, ds[|ds| - 1]))
  {
    hide InOrder, HandleRecords, ScanRecords, Choose;
    var d := ds[|ds| - 1];
    var t := Step(c, cfg, st, d);
    match st
    case AwaitHello(next, sent) =>
      var scan := ScanRecords(c, cfg, d.records, d, next, sent);
      if scan.Chosen? {
        ChoiceInOrder(c, cfg, scan.message, d, scan.next, scan.sent, PeerRecords(ds, d.source));
      }
    case AwaitClient(_, peer, _, _, _, _, _, _, _) =>
      var before := PeerRecords(ds[..|ds| - 1], peer);
      if d.source == peer {
        RecordsInOrder(c, before, st, d.records);
        RecordsKeepPeer(c, st, d.records);
      } else {
        assert before + [] == before;
      }
    case Accepted(_, peer, _, _, _, _, _, _) =>
      InOrderMore(c, PeerRecords(ds[..|ds| - 1], peer), if d.source == peer then d.records else [], st);
    case _ =>
  }

  lemma ChoiceInOrder(c: Crypto, cfg: Config, m: HandshakeMessage, d: Datagram, next: U64, sent: seq<Sent>, rs: seq<DtlsRecord>)
    ensures var t := Choose(c, cfg, m, d, next, sent);
            InOrder(c, rs, t) && (t.AwaitClient? ==> t.peer == d.source) && !t.Accepted?
  {
    hide ServerFlight, FlightRecords, Changed, FinishedAt, Increment;
  }

  lemma {:induction false} RecordsKeepPeer(c: Crypto, st: Acceptor, rs: seq<DtlsRecord>)
    requires st.AwaitClient?
    ensures var t := HandleRecords(c, st, rs); t.AwaitClient? || t.Accepted? ==> t.peer == st.peer
    decreases |rs|
  {
    hide HandleRecord;
    if rs != [] {
      RecordKeepsPeer(c, st, rs[0]);
      AcceptedKeepsPeer(c, st, rs[0]);
      var next := HandleRecord(c, st, rs[0]);
      if next.AwaitClient? {
        RecordsKeepPeer(c, next, rs[1..]);
      }
    }
  }

  lemma AcceptedKeepsPeer(c: Crypto, st: Acceptor, r: DtlsRecord)
    requires st.AwaitClient?
    ensures HandleRecord(c, st, r).Accepted? ==> HandleRecord(c, st, r).peer == st.peer
  {
    hide HandleExchanges, RecordMessages, OpenFinished, FinishedFlight, Open, VerifyClientFinished;
    if RecordMessages(r).Ok? {
      ExchangesNotAccepted(c, st, RecordMessages(r).value);
    }
  }

  lemma {:induction false} ExchangesNotAccepted(c: Crypto, st: Acceptor, ms: seq<HandshakeMessage>)
    requires !st.Accepted?
    ensures !HandleExchanges(c, st, ms).Accepted?
    decreases |ms|
  {
    if st.AwaitClient? && ms != [] {
      hide HandleClientKeyExchange, ServerKeys;
      ExchangesNotAccepted(c, HandleExchange(c, st, ms[0]), ms[1..]);
    }
  }

  /** Over every datagram sequence: a returned session has a peer that echoed its
      own cookie, keys from that peer's ClientKeyExchange, and a Finished from that
      peer that verifies over the transcript under those keys and came in a later
      record than a ChangeCipherSpec from it. */
  lemma {:induction false} AcceptorIsSafe(c: Crypto, cfg: Config, ds: seq<Datagram>)
    ensures Safe(c, cfg, ds, Run(c, cfg, ds))
    ensures PeerInOrder(c, ds, Run(c, cfg, ds))
  {
    hide Safe, PeerInOrder, Step;
    if ds != [] {
      var n := |ds| - 1;
      AcceptorIsSafe(c, cfg, ds[..n]);
      StepSafe(c, cfg, ds[..n], Run(c, cfg, ds[..n]), ds[n]);
      StepInOrder(c, cfg, ds, Run(c, cfg, ds[..n]));
      assert ds == ds[..n] + [ds[n]];
    } else {
      NothingReceived(c, cfg);
    }
  }

  lemma NothingReceived(c: Crypto, cfg: Config)
    ensures Safe(c, cfg, [], AwaitHello(0, [])) && PeerInOrder(c, [], AwaitHello(0, []))
  {
  }
}
