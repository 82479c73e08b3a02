/** An honest client and an honest server with one secret: every message each
    builds is accepted by the other, and both reach the same keys over the same
    transcript. */
module HonestHandshake {
  import opened Bytes
  import opened Primitives
  import opened EcJpake
  import opened EcJpakeCodec
  import opened KeySchedule
  import opened Handshake
  import opened ThreadHandshake
  import H = Hello

  /** Everything random in one run: the shared secret, both randoms, the four
      scalars and the six proof nonces. */
  datatype Inputs = Inputs(
    secret: Bytes, clientRandom: H.Random, serverRandom: H.Random,
    x1: nat, x2: nat, x3: nat, x4: nat, n: Nonces)
  {
    function ClientParty(c: Crypto): Party { NewParty(c, Client, secret, x1, x2) }
    function ServerParty(c: Crypto): Party { NewParty(c, Server, secret, x3, x4) }
    function Client0(c: Crypto): (s: ClientState)
      ensures s.WellSized()
    {
      NewClient(c, secret, clientRandom, x1, x2, n.c1, n.c2)
    }
    function Server0(c: Crypto): (s: ServerState)
      ensures s.WellSized()
    {
      NewServer(c, secret, serverRandom, x3, x4, n.s1, n.s2)
    }
    /** Scalars are drawn nonzero. */
    ghost predicate Drawn(c: Crypto) {
      && NonzeroScalar(c, x1) && NonzeroScalar(c, x2) && NonzeroScalar(c, x3) && NonzeroScalar(c, x4)
      && NonzeroNonces(c, n)
    }
  }

  // ----- Sizes of the messages that honest parties build

  lemma KeyKpSize(c: Crypto, point: Bytes, proof: SchnorrProof, id: Bytes)
    requires CanonicalPoint(c, point) && CanonicalProof(c, proof, id)
    ensures EncodeKeyKp(c, point, proof).Ok? && |EncodeKeyKp(c, point, proof).value| <= 165
  {
    ReadKeyKpAppend(c, point, proof, id, []);
    hide TrimScalar, ScalarFromRepr;
    PadTrim(proof.r);
  }

  lemma KkppSize(c: Crypto, r: RoundOne)
    requires CanonicalRoundOne(c, r)
    ensures EncodeKkpp(c, r).Ok? && |EncodeKkpp(c, r).value| <= 330
  {
    hide EncodeKeyKp, CanonicalPoint, CanonicalProof;
    KeyKpSize(c, r.g1, r.proof1, r.id);
    KeyKpSize(c, r.g2, r.proof2, r.id);
  }

  lemma KeyExchangeSize(c: Crypto, r: RoundTwo, id: Bytes, curveParams: bool)
    requires CanonicalRoundTwo(c, r, id)
    ensures EncodeKeyExchange(c, r, curveParams).Ok? && |EncodeKeyExchange(c, r, curveParams).value| <= 168
  {
    hide EncodeKeyKp, CanonicalPoint, CanonicalProof;
    KeyKpSize(c, r.point, r.proof, id);
  }

  ghost function ExtensionsLength(es: seq<H.TlsExtension>): nat {
    if es == [] then 0 else 4 + |es[0].data| + ExtensionsLength(es[1..])
  }

  lemma {:induction false} ExtensionListEncodes(es: seq<H.TlsExtension>)
    requires forall e :: e in es ==> |e.data| <= 0xffff
    ensures H.EncodeExtensionList(es).Ok? && |H.EncodeExtensionList(es).value| == ExtensionsLength(es)
  {
    if es != [] {
      ExtensionListEncodes(es[1..]);
    }
  }

  lemma ClientHelloEncodes(random: H.Random, cookie: Bytes, kkpp: Bytes)
    requires |cookie| <= 255 && |kkpp| <= 330
    ensures var b := H.EncodeClientHello(H.ThreadClientHello(random, cookie, kkpp)); b.Ok? && |b.value| <= 1000
  {
    var es := H.ThreadClientHello(random, cookie, kkpp).extensions;
    ClientExtensions(es, kkpp);
    assert |H.EncodeSuites(H.ThreadClientHello(random, cookie, kkpp).cipherSuites)| == 4;
    hide H.EncodeExtensionList, H.EncodeSuites;
    ExtensionListEncodes(es);
  }

  lemma ClientExtensions(es: seq<H.TlsExtension>, kkpp: Bytes)
    requires |kkpp| <= 330 && es == H.ThreadClientHello(seq(32, _ => 0), [], kkpp).extensions
    ensures (forall e :: e in es ==> |e.data| <= 0xffff) && ExtensionsLength(es) <= 400
    ensures H.FindExtension(es, H.EXTENSION_ECJPAKE_KKPP) == Some(kkpp)
  {
    hide ExtensionsLength, H.FindExtension;
    FiveLengths(es);
    FourthFound(es);
  }

  lemma FourthFound(es: seq<H.TlsExtension>)
    requires |es| == 5 && es[3].extensionType == H.EXTENSION_ECJPAKE_KKPP
    requires forall i :: 0 <= i < 3 ==> es[i].extensionType != H.EXTENSION_ECJPAKE_KKPP
    ensures H.FindExtension(es, H.EXTENSION_ECJPAKE_KKPP) == Some(es[3].data)
  {
    hide H.FindExtension;
    ListStep(es[0], es[1..]);
    ListStep(es[1], es[2..]);
    ListStep(es[2], es[3..]);
    ListStep(es[3], es[4..]);
    assert es == [es[0]] + es[1..] && es[1..] == [es[1]] + es[2..];
    assert es[2..] == [es[2]] + es[3..] && es[3..] == [es[3]] + es[4..];
  }

  lemma FiveLengths(es: seq<H.TlsExtension>)
    requires |es| == 5
    ensures ExtensionsLength(es) == 20 + |es[0].data| + |es[1].data| + |es[2].data| + |es[3].data| + |es[4].data|
  {
    assert ExtensionsLength([]) == 0;
    hide ExtensionsLength;
    ListStep(es[0], es[1..]);
    ListStep(es[1], es[2..]);
    ListStep(es[2], es[3..]);
    ListStep(es[3], es[4..]);
    ListStep(es[4], []);
    assert es == [es[0]] + es[1..] && es[1..] == [es[1]] + es[2..] && es[2..] == [es[2]] + es[3..];
    assert es[3..] == [es[3]] + es[4..] && es[4..] == [es[4]] + [];
  }

  lemma ListStep(e: H.TlsExtension, es: seq<H.TlsExtension>)
    ensures ExtensionsLength([e] + es) == 4 + |e.data| + ExtensionsLength(es)
    ensures H.FindExtension([e] + es, H.EXTENSION_ECJPAKE_KKPP)
         == if e.extensionType == H.EXTENSION_ECJPAKE_KKPP then Some(e.data) else H.FindExtension(es, H.EXTENSION_ECJPAKE_KKPP)
  {
    assert ([e] + es)[1..] == es;
  }

  lemma ServerHelloEncodes(random: H.Random, kkpp: Bytes)
    requires |kkpp| <= 330
    ensures var b := H.EncodeServerHello(H.ThreadServerHello(random, kkpp)); b.Ok? && |b.value| <= 1000
    ensures H.FindExtension(H.ThreadServerHello(random, kkpp).extensions, H.EXTENSION_ECJPAKE_KKPP) == Some(kkpp)
  {
    var es := H.ThreadServerHello(random, kkpp).extensions;
    ListStep(es[0], [es[1]]);
    ListStep(es[1], []);
    assert es == [es[0]] + [es[1]] && [es[1]] == [es[1]] + [];
    hide H.EncodeExtensionList;
    ExtensionListEncodes(es);
  }

  lemma Pushes(t: Bytes, m: HandshakeMessage)
    requires |m.payload| <= MAX_U24
    ensures TranscriptBytes(m).Ok? && Push(t, m) == Ok(t + TranscriptBytes(m).value)
  {
    EncodableMessage(m);
  }

  // ----- Message by message

  function HelloMessage(c: Crypto, i: Inputs, cookie: Bytes, messageSeq: U16): Result<HandshakeMessage> {
    var kkpp :- ClientKkpp(c, i.Client0(c));
    var payload :- H.EncodeClientHello(H.ThreadClientHello(i.clientRandom, cookie, kkpp));
    Ok(HandshakeMessage(ClientHello, messageSeq, payload))
  }

  /** Both states right after the cookie-bearing ClientHello `m`. */
  function Client1(c: Crypto, i: Inputs, t: Bytes): (s: ClientState)
    ensures s.WellSized()
  {
    i.Client0(c).(transcript := t)
  }

  function Server1(c: Crypto, i: Inputs, t: Bytes): (s: ServerState)
    ensures s.WellSized()
  {
    i.Server0(c).(clientOne := Some(i.Client0(c).clientOne), clientRandom := Some(i.clientRandom), transcript := t)
  }

  lemma ClientHelloAccepted(c: Crypto, i: Inputs, cookie: Bytes, messageSeq: U16)
    requires i.Drawn(c) && |cookie| <= 255
    ensures var r := HelloMessage(c, i, cookie, messageSeq);
            && r.Ok? && |r.value.payload| <= 1000
            && H.DecodeClientHello(r.value.payload).Ok?
            && H.DecodeClientHello(r.value.payload).value.random == i.clientRandom
            && H.DecodeClientHello(r.value.payload).value.cookie == cookie
            && TranscriptBytes(r.value).Ok?
            && HandleClientHello(c, i.Server0(c), r.value) == Ok(Server1(c, i, TranscriptBytes(r.value).value))
            && RecordClientHello(i.Client0(c), r.value) == Ok(Client1(c, i, TranscriptBytes(r.value).value))
  {
    hide EncodeKkpp, DecodeKkpp, MakeRoundOne, VerifyRoundOne, TranscriptBytes;
    hide H.EncodeClientHello, H.DecodeClientHello, H.FindExtension;
    var one := i.Client0(c).clientOne;
    var party := i.ClientParty(c);
    RoundOneCanonical(c, party, i.n.c1, i.n.c2);
    RoundOneAccepted(c, party, i.n.c1, i.n.c2);
    KkppSize(c, one);
    KkppRoundTrip(c, one);
    var kkpp := EncodeKkpp(c, one).value;
    ClientHelloEncodes(i.clientRandom, cookie, kkpp);
    var hello := H.ThreadClientHello(i.clientRandom, cookie, kkpp);
    H.ClientHelloRoundTrip(hello);
    ClientExtensions(hello.extensions, kkpp);
    var m := HelloMessage(c, i, cookie, messageSeq).value;
    Pushes([], m);
    assert [] + TranscriptBytes(m).value == TranscriptBytes(m).value;
  }

  /** Both states right after ServerHello. */
  function Client2(c: Crypto, i: Inputs, t: Bytes): (s: ClientState)
    ensures s.WellSized()
  {
    Client1(c, i, t).(serverOne := Some(i.Server0(c).serverOne), serverRandom := Some(i.serverRandom))
  }

  lemma ServerHelloAccepted(c: Crypto, i: Inputs, t: Bytes)
    requires i.Drawn(c)
    ensures var r := BuildServerHello(c, Server1(c, i, t), 1);
            && r.Ok?
            && var (s, m) := r.value;
            && m.messageType == ServerHello && |m.payload| <= 1000 && TranscriptBytes(m).Ok?
            && s == Server1(c, i, t + TranscriptBytes(m).value)
            && HandleServerHello(c, Client1(c, i, t), m) == Ok(Client2(c, i, t + TranscriptBytes(m).value))
  {
    hide EncodeKkpp, DecodeKkpp, MakeRoundOne, VerifyRoundOne, TranscriptBytes;
    hide H.EncodeServerHello, H.DecodeServerHello, H.FindExtension;
    var one := i.Server0(c).serverOne;
    var party := i.ServerParty(c);
    RoundOneCanonical(c, party, i.n.s1, i.n.s2);
    RoundOneAccepted(c, party, i.n.s1, i.n.s2);
    KkppSize(c, one);
    KkppRoundTrip(c, one);
    var kkpp := EncodeKkpp(c, one).value;
    ServerHelloEncodes(i.serverRandom, kkpp);
    H.ServerHelloRoundTrip(H.ThreadServerHello(i.serverRandom, kkpp));
    Pushes(t, HandshakeMessage(ServerHello, 1, H.EncodeServerHello(H.ThreadServerHello(i.serverRandom, kkpp)).value));
  }

  lemma InputsArePair(c: Crypto, i: Inputs)
    requires i.Drawn(c)
    ensures HonestPair(c, i.ClientParty(c), i.ServerParty(c)) && NonzeroNonces(c, i.n)
    ensures i.ClientParty(c).secret == i.ServerParty(c).secret
    ensures i.Client0(c).clientOne == ClientOne(c, i.ClientParty(c), i.n)
    ensures i.Server0(c).serverOne == ServerOne(c, i.ServerParty(c), i.n)
  {
    hide ScalarFromSecret, MakeRoundOne;
  }

  function Client3(c: Crypto, i: Inputs, two: RoundTwo, t: Bytes): (s: ClientState)
    ensures s.WellSized()
  {
    Client2(c, i, t).(serverTwo := Some(two))
  }

  lemma ServerKeyExchangeAccepted(c: Crypto, i: Inputs, t: Bytes)
    requires i.Drawn(c)
    ensures var two := ServerTwo(c, i.ClientParty(c), i.ServerParty(c), i.n);
            var r := BuildServerKeyExchange(c, Server1(c, i, t), 2, i.n.s3);
            && (r.Ok? <==> two.Ok?)
            && (r.Ok? ==>
                 var (s, m) := r.value;
                 && m.messageType == ServerKeyExchange && |m.payload| <= 1000 && TranscriptBytes(m).Ok?
                 && s == Server1(c, i, t + TranscriptBytes(m).value)
                 && HandleServerKeyExchange(c, Client2(c, i, t), m) == Ok(Client3(c, i, two.value, t + TranscriptBytes(m).value)))
  {
    hide MakeRoundTwo, MakeRoundOne, EncodeKeyExchange, DecodeKeyExchange, TranscriptBytes, CanonicalRoundTwo, ScalarFromSecret;
    InputsArePair(c, i);
    var two := ServerTwo(c, i.ClientParty(c), i.ServerParty(c), i.n);
    if two.Ok? {
      RoundTwoCanonical(c, i.ServerParty(c), i.Server0(c).serverOne, i.Client0(c).clientOne, i.n.s3);
      KeyExchangeSize(c, two.value, Server.ThreadId(), true);
      KeyExchangeRoundTrip(c, two.value, Server.ThreadId(), true);
      Pushes(t, HandshakeMessage(ServerKeyExchange, 2, EncodeKeyExchange(c, two.value, true).value));
    }
  }

  lemma ServerHelloDoneAccepted(c: Crypto, i: Inputs, two: RoundTwo, t: Bytes)
    ensures var r := BuildServerHelloDone(Server1(c, i, t), 3);
            && r.Ok?
            && var (s, m) := r.value;
            && m.messageType == ServerHelloDone && m.payload == [] && TranscriptBytes(m).Ok?
            && s == Server1(c, i, t + TranscriptBytes(m).value)
            && HandleServerHelloDone(Client3(c, i, two, t), m) == Ok(Client3(c, i, two, t + TranscriptBytes(m).value))
  {
    hide MakeRoundOne, TranscriptBytes;
    Pushes(t, HandshakeMessage(ServerHelloDone, 3, []));
  }

  function Server2(c: Crypto, i: Inputs, two: RoundTwo, t: Bytes): (s: ServerState)
    ensures s.WellSized()
  {
    Server1(c, i, t).(clientTwo := Some(two))
  }

  lemma ClientKeyExchangeAccepted(c: Crypto, i: Inputs, serverTwo: RoundTwo, messageSeq: U16, t: Bytes)
    requires i.Drawn(c)
    ensures var two := ClientTwo(c, i.ClientParty(c), i.ServerParty(c), i.n);
            var r := BuildClientKeyExchange(c, Client3(c, i, serverTwo, t), messageSeq, i.n.c3);
            && (r.Ok? <==> two.Ok?)
            && (r.Ok? ==>
                 var (s, m) := r.value;
                 && m.messageType == ClientKeyExchange && |m.payload| <= 1000 && TranscriptBytes(m).Ok?
                 && s == Client3(c, i, serverTwo, t + TranscriptBytes(m).value)
                 && HandleClientKeyExchange(c, Server1(c, i, t), m) == Ok(Server2(c, i, two.value, t + TranscriptBytes(m).value)))
  {
    hide MakeRoundTwo, MakeRoundOne, EncodeKeyExchange, DecodeKeyExchange, TranscriptBytes, CanonicalRoundTwo, ScalarFromSecret;
    InputsArePair(c, i);
    var two := ClientTwo(c, i.ClientParty(c), i.ServerParty(c), i.n);
    if two.Ok? {
      RoundTwoCanonical(c, i.ClientParty(c), i.Client0(c).clientOne, i.Server0(c).serverOne, i.n.c3);
      KeyExchangeSize(c, two.value, Client.ThreadId(), false);
      KeyExchangeRoundTrip(c, two.value, Client.ThreadId(), false);
      Pushes(t, HandshakeMessage(ClientKeyExchange, messageSeq, EncodeKeyExchange(c, two.value, false).value));
    }
  }

  /** The keys of a non-degenerate run. */
  function AgreedKeys(c: Crypto, i: Inputs): KeyMaterial
    requires AgreedPoint(c, i.ClientParty(c), i.ServerParty(c)) != 0
  {
    DeriveKeys(c, SessionKey(c, AgreedPoint(c, i.ClientParty(c), i.ServerParty(c))), i.clientRandom, i.serverRandom)
  }

  lemma KeysAgree(c: Crypto, i: Inputs, t1: Bytes, t2: Bytes)
    requires i.Drawn(c) && NonDegenerate(c, i.ClientParty(c), i.ServerParty(c))
    ensures AgreedPoint(c, i.ClientParty(c), i.ServerParty(c)) != 0
    ensures var tc, ts := ClientTwo(c, i.ClientParty(c), i.ServerParty(c), i.n), ServerTwo(c, i.ClientParty(c), i.ServerParty(c), i.n);
            && tc.Ok? && ts.Ok?
            && ClientKeys(c, Client3(c, i, ts.value, t1)) == Ok(AgreedKeys(c, i))
            && ServerKeys(c, Server2(c, i, tc.value, t2)) == Ok(AgreedKeys(c, i))
  {
    hide Finish, DeriveKeys, AgreedPoint, ClientOne, ServerOne, ClientTwo, ServerTwo, NonDegenerate, HonestPair, NonzeroNonces, SessionKey;
    InputsArePair(c, i);
    KeyAgreement(c, i.ClientParty(c), i.ServerParty(c), i.n);
    PartiesInStates(c, i);
  }

  lemma PartiesInStates(c: Crypto, i: Inputs)
    ensures i.Client0(c).party == i.ClientParty(c) && i.Server0(c).party == i.ServerParty(c)
    ensures i.Client0(c).clientRandom == i.clientRandom && i.Server0(c).serverRandom == i.serverRandom
  {
  }

  lemma FinishedAccepted(c: Crypto, i: Inputs, ts: RoundTwo, tc: RoundTwo, keys: KeyMaterial, messageSeq: U16, t: Bytes)
    requires ClientKeys(c, Client3(c, i, ts, t)) == Ok(keys)
    ensures var r := BuildClientFinished(c, Client3(c, i, ts, t), messageSeq);
            && r.Ok?
            && var (s, m) := r.value;
            && m.messageType == Finished && |m.payload| == 12 && TranscriptBytes(m).Ok?
            && s == Client3(c, i, ts, t + TranscriptBytes(m).value)
            && VerifyClientFinished(c, Server2(c, i, tc, t), m, keys) == Ok(Server2(c, i, tc, t + TranscriptBytes(m).value))
  {
    hide MakeRoundOne, TranscriptBytes, ClientKeys, VerifyData;
    Pushes(t, HandshakeMessage(Finished, messageSeq, FinishedData(c, t, keys, Client)));
  }

  lemma ServerFinishedAccepted(c: Crypto, i: Inputs, ts: RoundTwo, tc: RoundTwo, keys: KeyMaterial, t: Bytes)
    ensures var r := BuildServerFinished(c, Server2(c, i, tc, t), 4, keys);
            && r.Ok?
            && var (s, m) := r.value;
            && m.messageType == Finished && |m.payload| == 12 && TranscriptBytes(m).Ok?
            && s == Server2(c, i, tc, t + TranscriptBytes(m).value)
            && VerifyServerFinished(c, Client3(c, i, ts, t), m, keys) == Ok(Client3(c, i, ts, t + TranscriptBytes(m).value))
  {
    hide MakeRoundOne, TranscriptBytes, VerifyData;
    Pushes(t, HandshakeMessage(Finished, 4, FinishedData(c, t, keys, Server)));
  }
}
