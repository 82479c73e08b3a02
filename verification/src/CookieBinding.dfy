/** What the stateless cookie proves: a server answers a ClientHello with its
    flight exactly when the cookie is the MAC of that hello's random under its own
    key, so a cookie that was handed out for another random or under another key
    does not help. */
module CookieBinding {
  import opened Bytes
  import opened Primitives
  import opened Record
  import opened Handshake
  import opened ThreadHandshake
  import opened ServerDriver
  import H = Hello
  import J = Joiner

  /** The cookie inside the HelloVerifyRequest sent for `random` under `key`. */
  lemma HandedOut(c: Crypto, key: Bytes, random: H.Random, messageSeq: U16)
    ensures var v := VerifyRequest(c, key, random, messageSeq);
            && v.Ok? && v.value.messageType == HelloVerifyRequest && v.value.messageSeq == messageSeq
            && H.DecodeHelloVerify(v.value.payload)
               == Ok(H.HelloVerifyRequest(H.DTLS_1_2_VERSION, c.hmac(key, random)[..16]))
  {
    var h := H.HelloVerifyRequest(H.DTLS_1_2_VERSION, Cookie(c, key, random));
    assert H.EncodeHelloVerify(h).Ok?;
    H.HelloVerifyRoundTrip(h);
    hide H.DecodeHelloVerify, H.EncodeHelloVerify;
  }

  /** `m` is a ClientHello that carries the cookie out of `verify`. */
  ghost predicate Returns(m: HandshakeMessage, verify: HandshakeMessage) {
    && m.messageType == ClientHello && H.DecodeClientHello(m.payload).Ok?
    && H.DecodeHelloVerify(verify.payload).Ok?
    && H.DecodeClientHello(m.payload).value.cookie == H.DecodeHelloVerify(verify.payload).value.cookie
  }

  /** A hello that returns a cookie handed out for `random` under `key` is chosen
      exactly when the MACs agree; otherwise it is asked for its own cookie. */
  lemma ScanBinds(c: Crypto, key: Bytes, random: H.Random, messageSeq: U16, verify: HandshakeMessage,
                  cfg: Config, m: HandshakeMessage, d: Datagram, next: U64, sent: seq<Sent>)
    requires VerifyRequest(c, key, random, messageSeq) == Ok(verify) && Returns(m, verify)
    ensures var own := H.DecodeClientHello(m.payload).value.random;
            var s := ScanMessage(c, cfg, m, d, next, sent);
            && (s.Chosen? <==> c.hmac(key, random)[..16] == c.hmac(cfg.cookieKey, own)[..16])
            && (s.Chosen? ==> s == Chosen(m, next, sent))
            && (s.Waiting? ==> s.next == Increment(next) && |s.sent| == |sent| + 1 && sent <= s.sent
                               && s.sent[|sent|].to == d.source && Demands(c, cfg.cookieKey, own, m, next, s.sent[|sent|].records))
  {
    hide H.DecodeClientHello, H.DecodeHelloVerify, VerifyRequest, PlaintextRecord;
    HandedOut(c, key, random, messageSeq);
  }

  /** One record with the HelloVerifyRequest for `random`. */
  ghost predicate Demands(c: Crypto, key: Bytes, random: H.Random, m: HandshakeMessage, next: U64, rs: seq<DtlsRecord>) {
    var v := VerifyRequest(c, key, random, m.messageSeq);
    v.Ok? && |rs| == 1 && PlaintextRecord(v.value, next) == Ok(rs[0])
  }

  /** The joiner session: the flight exactly when the MACs agree; otherwise its
      handshake and phase stay, and the cookie is demanded. */
  lemma JoinerBinds(c: Crypto, key: Bytes, random: H.Random, messageSeq: U16, verify: HandshakeMessage,
                    s: J.Session, m: HandshakeMessage, v: nat)
    requires s.handshake.WellSized()
    requires VerifyRequest(c, key, random, messageSeq) == Ok(verify) && Returns(m, verify)
    requires J.AnswerHello(c, s, m, v).Ok?
    ensures var own := H.DecodeClientHello(m.payload).value.random;
            var t := J.AnswerHello(c, s, m, v).value;
            if c.hmac(key, random)[..16] == c.hmac(s.cookieKey, own)[..16]
            then t.phase.AwaitingClientFlight? && t.hello == Some(m)
            else && t.phase == s.phase && t.hello == s.hello && t.handshake == s.handshake && t.flight == s.flight
                 && |t.events| == |s.events| + 1 && s.events <= t.events && t.events[|s.events|].Transmit?
                 && Demands(c, s.cookieKey, own, m, s.epoch0, t.events[|s.events|].records)
  {
    hide H.DecodeClientHello, H.DecodeHelloVerify, VerifyRequest, PlaintextRecord, ServerFlight, FlightRecords;
    HandedOut(c, key, random, messageSeq);
  }

  /** For any other random or key there is a MAC under which the cookie is of no
      use, at the acceptor and at the joiner session alike. */
  lemma ForeignCookieRefused(c: Crypto, key: Bytes, random: H.Random, cookieKey: Bytes, own: H.Random) returns (d: Crypto)
    requires (key, random) != (cookieKey, own)
    ensures SameGroup(c, d)
    ensures forall hello: H.ClientHello :: hello.random == own && hello.cookie == d.hmac(key, random)[..16]
                                      ==> !CookieVerifies(d, cookieKey, hello)
  {
    d := CookieCovers(c, key, random, cookieKey, own);
  }
}
