/** The acceptor numbers the plaintext records it builds consecutively. */
module AcceptorNumbering {
  import opened Bytes
  import opened Primitives
  import opened Record
  import opened RecordProtection
  import opened Handshake
  import opened ThreadHandshake
  import opened ServerDriver
  import H = Hello
  import KS = KeySchedule

  /** Sequence numbers of the epoch-0 records in `rs`, in order. */
  function RecordNumbers(rs: seq<DtlsRecord>): seq<U64> {
    if rs == [] then [] else (if rs[0].header.epoch == 0 then [rs[0].header.sequence] else []) + RecordNumbers(rs[1..])
  }

  /** ... and in everything sent. */
  function Numbers(sent: seq<Sent>): seq<U64> {
    if sent == [] then [] else Numbers(sent[..|sent| - 1]) + RecordNumbers(sent[|sent| - 1].records)
  }

  /** 0, 1, 2, ... as far as 64 bits go. */
  ghost predicate Consecutive(ns: seq<U64>) {
    forall k :: 0 <= k < |ns| ==> ns[k] == k % WORD
  }

  ghost predicate Numbered(sent: seq<Sent>, next: U64) {
    Consecutive(Numbers(sent)) && next == |Numbers(sent)| % WORD
  }

  lemma NumbersSnoc(sent: seq<Sent>, s: Sent)
    ensures Numbers(sent + [s]) == Numbers(sent) + RecordNumbers(s.records)
  {
    assert (sent + [s])[..|sent|] == sent;
  }

  lemma OneNumber(r: DtlsRecord)
    ensures RecordNumbers([r]) == if r.header.epoch == 0 then [r.header.sequence] else []
  {
    assert [r][1..] == [];
  }

  lemma Wrapped(n: nat)
    ensures (n % WORD + 1) % WORD == (n + 1) % WORD
  {
  }

  /** One more plaintext record with the next number. */
  lemma NumberedSnoc(sent: seq<Sent>, next: U64, s: Sent, r: DtlsRecord)
    requires Numbered(sent, next) && s.records == [r] && r.header.epoch == 0 && r.header.sequence == next
    ensures Numbered(sent + [s], Increment(next))
  {
    hide Numbers, RecordNumbers;
    NumbersSnoc(sent, s);
    OneNumber(r);
    Wrapped(|Numbers(sent)|);
  }

  lemma PlaintextHeader(m: HandshakeMessage, sequence: U64)
    ensures var r := PlaintextRecord(m, sequence); r.Ok? ==> r.value.header.epoch == 0 && r.value.header.sequence == sequence
  {
    hide EncodeMessage;
  }

  lemma {:induction false} ScanMessagesNumbered(c: Crypto, cfg: Config, ms: seq<HandshakeMessage>, d: Datagram, next: U64, sent: seq<Sent>)
    requires Numbered(sent, next)
    ensures var s := ScanMessages(c, cfg, ms, d, next, sent);
            Consecutive(Numbers(s.sent)) && (!s.Broken? ==> Numbered(s.sent, s.next))
  {
    if ms != [] {
      hide Numbered, Consecutive, PlaintextRecord, VerifyRequest, H.DecodeClientHello, CookieVerifies, Increment;
      NumberedMeans(sent, next);
      var first := ScanMessage(c, cfg, ms[0], d, next, sent);
      if first.Waiting? {
        if |first.sent| != |sent| {
          var r := first.sent[|sent|].records[0];
          var verify := VerifyRequest(c, cfg.cookieKey, H.DecodeClientHello(ms[0].payload).value.random, ms[0].messageSeq).value;
          PlaintextHeader(verify, next);
          NumberedSnoc(sent, next, Sent(d.local, d.source, [r]), r);
        }
        ScanMessagesNumbered(c, cfg, ms[1..], d, first.next, first.sent);
      }
    }
  }

  lemma NumberedMeans(sent: seq<Sent>, next: U64)
    requires Numbered(sent, next)
    ensures Consecutive(Numbers(sent))
  {
  }

  lemma {:induction false} ScanRecordsNumbered(c: Crypto, cfg: Config, rs: seq<DtlsRecord>, d: Datagram, next: U64, sent: seq<Sent>)
    requires Numbered(sent, next)
    ensures var s := ScanRecords(c, cfg, rs, d, next, sent);
            Consecutive(Numbers(s.sent)) && (!s.Broken? ==> Numbered(s.sent, s.next))
  {
    if rs != [] {
      hide ScanMessages, RecordMessages, Consecutive;
      if RecordMessages(rs[0]).Ok? {
        ScanMessagesNumbered(c, cfg, RecordMessages(rs[0]).value, d, next, sent);
      }
      var first := ScanRecord(c, cfg, rs[0], d, next, sent);
      if first.Waiting? {
        ScanRecordsNumbered(c, cfg, rs[1..], d, first.next, first.sent);
      }
    }
  }

  /** A flight of `k` messages takes the next `k` numbers. */
  lemma {:induction false} FlightNumbers(ms: seq<HandshakeMessage>, start: nat, rs: seq<DtlsRecord>)
    requires FlightRecords(ms, start % WORD) == Ok(rs)
    ensures var ns := RecordNumbers(rs);
            |ns| == |ms| && forall k :: 0 <= k < |ns| ==> ns[k] == (start + k) % WORD
    decreases |ms|
  {
    if ms != [] {
      hide PlaintextRecord;
      PlaintextHeader(ms[0], start % WORD);
      Wrapped(start);
      FlightNumbers(ms[1..], start + 1, rs[1..]);
    }
  }

  lemma FlightNumbered(ms: seq<HandshakeMessage>, next: U64, sent: seq<Sent>, s: Sent)
    requires Numbered(sent, next) && FlightRecords(ms, next) == Ok(s.records) && |ms| == 3
    ensures Numbered(sent + [s], Increment(Increment(Increment(next))))
  {
    hide FlightRecords, RecordNumbers, Numbers;
    var n := |Numbers(sent)|;
    NumbersSnoc(sent, s);
    FlightNumbers(ms, n, s.records);
    Wrapped(n);
    Wrapped(n + 1);
    Wrapped(n + 2);
    ConsecutiveAppend(Numbers(sent), RecordNumbers(s.records));
  }

  lemma ConsecutiveAppend(ns: seq<U64>, more: seq<U64>)
    requires Consecutive(ns) && forall k :: 0 <= k < |more| ==> more[k] == (|ns| + k) % WORD
    ensures Consecutive(ns + more)
  {
  }

  lemma FlightHasThree(c: Crypto, s: ServerState, m: HandshakeMessage, v: nat)
    requires s.WellSized()
    ensures var r := ServerFlight(c, s, m, v); r.Ok? ==> |r.value.1| == 3
  {
    hide HandleClientHello, BuildServerHello, BuildServerKeyExchange, BuildServerHelloDone;
  }

  ghost predicate NumberedState(st: Acceptor) {
    && Consecutive(Numbers(st.sent))
    && (st.AwaitHello? || st.AwaitClient? ==> Numbered(st.sent, st.next))
  }

  lemma ChooseNumbered(c: Crypto, cfg: Config, m: HandshakeMessage, d: Datagram, next: U64, sent: seq<Sent>)
    requires Numbered(sent, next)
    ensures NumberedState(Choose(c, cfg, m, d, next, sent))
  {
    hide ServerFlight, FlightRecords;
    FlightHasThree(c, cfg.NewHandshake(c), m, cfg.v3);
    var flight := ServerFlight(c, cfg.NewHandshake(c), m, cfg.v3);
    if flight.Ok? && FlightRecords(flight.value.1, next).Ok? {
      FlightNumbered(flight.value.1, next, sent, Sent(d.local, d.source, FlightRecords(flight.value.1, next).value));
    }
  }

  lemma {:induction false} ExchangesNumbered(c: Crypto, st: Acceptor, ms: seq<HandshakeMessage>)
    requires NumberedState(st)
    ensures NumberedState(HandleExchanges(c, st, ms))
    decreases |ms|
  {
    if st.AwaitClient? && ms != [] {
      hide Consecutive, Numbered, HandleClientKeyExchange, ServerKeys;
      ExchangesNumbered(c, HandleExchange(c, st, ms[0]), ms[1..]);
    }
  }

  lemma FinishedNumbered(c: Crypto, st: Acceptor, r: DtlsRecord)
    requires st.AwaitClient? && NumberedState(st)
    ensures NumberedState(HandleFinished(c, st, r))
  {
    hide Open, OpenFinished, VerifyClientFinished, FinishedFlight, Consecutive, Numbered, Numbers;
    AlertNumbered(st);
    if st.keys.Some? && OpenFinished(c, r, st.keys.value).Ok? {
      var keys := st.keys.value;
      var verified := VerifyClientFinished(c, st.handshake, OpenFinished(c, r, keys).value, keys);
      if verified.Ok? && FinishedFlight(c, st, verified.value, keys).Ok? {
        FinishedFlightNumbered(c, st, verified.value, keys);
      }
    }
  }

  lemma AlertNumbered(st: Acceptor)
    requires st.AwaitClient? && NumberedState(st)
    ensures Consecutive(Numbers(st.sent + AlertDatagram(st)))
  {
    var r := NewRecord(Alert, 0, st.next, ALERT_HANDSHAKE_FAILURE).value;
    NumberedSnoc(st.sent, st.next, Sent(st.local, st.peer, [r]), r);
  }

  lemma FinishedFlightNumbered(c: Crypto, st: Acceptor, handshake: ServerState, keys: KS.KeyMaterial)
    requires st.AwaitClient? && NumberedState(st) && FinishedFlight(c, st, handshake, keys).Ok?
    ensures Consecutive(Numbers(st.sent + [Sent(st.local, st.peer, FinishedFlight(c, st, handshake, keys).value)]))
  {
    hide BuildServerFinished, EncodeMessage, Protect, Nonce, Numbers;
    var rs := FinishedFlight(c, st, handshake, keys).value;
    var finished := BuildServerFinished(c, handshake, 4, keys).value.1;
    ProtectedNonce(c, ContentType.Handshake, 1, 0, keys.keyBlock.serverWriteKey, keys.keyBlock.serverWriteIv, EncodeMessage(finished).value);
    assert rs[1..] == [rs[1]];
    OneNumber(rs[1]);
    assert RecordNumbers(rs) == [st.next];
    NumbersSnoc(st.sent, Sent(st.local, st.peer, rs));
  }

  lemma RecordNumbered(c: Crypto, st: Acceptor, r: DtlsRecord)
    requires st.AwaitClient? && NumberedState(st)
    ensures NumberedState(HandleRecord(c, st, r))
  {
    hide HandleExchanges, HandleFinished, RecordMessages, Consecutive, Numbered;
    FinishedNumbered(c, st, r);
    if RecordMessages(r).Ok? {
      ExchangesNumbered(c, st, RecordMessages(r).value);
    }
  }

  lemma {:induction false} RecordsNumbered(c: Crypto, st: Acceptor, rs: seq<DtlsRecord>)
    requires NumberedState(st)
    ensures NumberedState(HandleRecords(c, st, rs))
    decreases |rs|
  {
    if st.AwaitClient? && rs != [] {
      hide HandleRecord, NumberedState;
      RecordNumbered(c, st, rs[0]);
      RecordsNumbered(c, HandleRecord(c, st, rs[0]), rs[1..]);
    }
  }

  /** In every run, the epoch-0 records built so far carry 0, 1, 2, ... */
  lemma {:induction false} RunNumbered(c: Crypto, cfg: Config, ds: seq<Datagram>)
    ensures NumberedState(Run(c, cfg, ds))
  {
    if ds != [] {
      hide HandleRecords, ScanRecords, Choose, Consecutive, Numbered;
      var n := |ds| - 1;
      var st, d := Run(c, cfg, ds[..n]), ds[n];
      RunNumbered(c, cfg, ds[..n]);
      RecordsNumbered(c, st, d.records);
      if st.AwaitHello? {
        ScanRecordsNumbered(c, cfg, d.records, d, st.next, st.sent);
        var s := ScanRecords(c, cfg, d.records, d, st.next, st.sent);
        if s.Chosen? {
          ChooseNumbered(c, cfg, s.message, d, s.next, s.sent);
        }
      }
    }
  }
}
