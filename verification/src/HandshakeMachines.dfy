/** The two handshake machines as the objects they are: optional peer fields set
    step by step over a growing transcript, each method refining the function of
    the same name.  After an error the machine is not used again. */
module HandshakeMachines {
  import opened Bytes
  import opened Primitives
  import opened EcJpake
  import opened EcJpakeCodec
  import opened EcJpakeReader
  import opened KeySchedule
  import opened Handshake
  import opened ThreadHandshake
  import H = Hello

  class ThreadDtlsHandshake {
    const party: Party
    const clientOne: RoundOne
    const clientRandom: H.Random
    var serverOne: Option<RoundOne>
    var serverTwo: Option<RoundTwo>
    var serverRandom: Option<H.Random>
    const transcript: HandshakeTranscript

    ghost function View(): ClientState
      reads this, transcript
    {
      ClientState(party, clientOne, serverOne, serverTwo, clientRandom, serverRandom, transcript.bytes)
    }

    /** The transcript is the encoding of the messages pushed. */
    ghost predicate Valid()
      reads this, transcript
    {
      transcript.Valid() && View().WellSized()
    }

    constructor (c: Crypto, secret: Bytes, random: H.Random, x1: nat, x2: nat, v1: nat, v2: nat)
      ensures Valid() && View() == NewClient(c, secret, random, x1, x2, v1, v2) && fresh(transcript)
    {
      var p := NewParty(c, Client, secret, x1, x2);
      party, clientOne, clientRandom := p, MakeRoundOne(c, p, v1, v2), random;
      serverOne, serverTwo, serverRandom := None, None, None;
      transcript := new HandshakeTranscript();
    }

    /** The cached round-one bytes for the ClientHello. */
    method ClientHelloKkpp(c: Crypto) returns (r: Result<Bytes>)
      requires Valid()
      ensures r == ClientKkpp(c, View())
    {
      hide EncodeKkpp;
      r := EncodeKkpp(c, clientOne);
    }

    method RecordClientHello(message: HandshakeMessage) returns (r: Result<()>)
      requires Valid()
      modifies transcript
      ensures Valid()
      ensures match ThreadHandshake.RecordClientHello(old(View()), message)
              case Ok(s) => r == Ok(()) && View() == s
              case Err(e) => r == Err(e)
    {
      hide TranscriptBytes;
      if message.messageType != ClientHello {
        return Err(Error.Crypto);
      }
      r := transcript.Push(message);
    }

    method HandleServerHello(c: Crypto, message: HandshakeMessage) returns (r: Result<()>)
      requires Valid()
      modifies this, transcript
      ensures Valid()
      ensures match ThreadHandshake.HandleServerHello(c, old(View()), message)
              case Ok(s) => r == Ok(()) && View() == s
              case Err(e) => r == Err(e)
    {
      hide TranscriptBytes, H.DecodeServerHello, H.FindExtension, DecodeKkpp;
      if message.messageType != ServerHello {
        return Err(Error.Crypto);
      }
      var hello := H.ServerHelloDecode(message.payload);
      if hello.Err? {
        return Err(hello.error);
      }
      if hello.value.cipherSuite != H.TLS_ECJPAKE_WITH_AES_128_CCM_8
         || hello.value.compressionMethod != H.TLS_COMPRESSION_NULL {
        return Err(Error.Crypto);
      }
      var kkpp := H.FindExtension(hello.value.extensions, H.EXTENSION_ECJPAKE_KKPP);
      if kkpp.None? {
        return Err(Error.Crypto);
      }
      var one := DecodeTlsKkpp(c, kkpp.value, Server.ThreadId());
      if one.Err? {
        return Err(one.error);
      }
      serverOne, serverRandom := Some(one.value), Some(hello.value.random);
      r := transcript.Push(message);
    }

    method HandleServerKeyExchange(c: Crypto, message: HandshakeMessage) returns (r: Result<()>)
      requires Valid()
      modifies this, transcript
      ensures Valid()
      ensures match ThreadHandshake.HandleServerKeyExchange(c, old(View()), message)
              case Ok(s) => r == Ok(()) && View() == s
              case Err(e) => r == Err(e)
    {
      hide TranscriptBytes, DecodeKeyExchange;
      if message.messageType != ServerKeyExchange {
        return Err(Error.Crypto);
      }
      var two := DecodeTlsKeyExchange(c, message.payload, Server.ThreadId(), true);
      if two.Err? {
        return Err(two.error);
      }
      serverTwo := Some(two.value);
      r := transcript.Push(message);
    }

    method HandleServerHelloDone(message: HandshakeMessage) returns (r: Result<()>)
      requires Valid()
      modifies transcript
      ensures Valid()
      ensures match ThreadHandshake.HandleServerHelloDone(old(View()), message)
              case Ok(s) => r == Ok(()) && View() == s
              case Err(e) => r == Err(e)
    {
      hide TranscriptBytes;
      if message.messageType != ServerHelloDone || message.payload != [] {
        return Err(Error.Crypto);
      }
      r := transcript.Push(message);
    }

    method BuildClientKeyExchange(c: Crypto, messageSeq: U16, v: nat) returns (r: Result<HandshakeMessage>)
      requires Valid()
      modifies transcript
      ensures Valid()
      ensures match ThreadHandshake.BuildClientKeyExchange(c, old(View()), messageSeq, v)
              case Ok((s, m)) => r == Ok(m) && View() == s
              case Err(e) => r == Err(e)
    {
      hide TranscriptBytes, MakeRoundTwo, EncodeKeyExchange;
      if serverOne.None? {
        return Err(InvalidState);
      }
      var two := MakeRoundTwo(c, party, clientOne, serverOne.value, v);
      if two.Err? {
        return Err(two.error);
      }
      var payload := EncodeKeyExchange(c, two.value, false);
      if payload.Err? {
        return Err(payload.error);
      }
      var message := HandshakeMessage(ClientKeyExchange, messageSeq, payload.value);
      var pushed := transcript.Push(message);
      r := Then(pushed, message);
    }

    method DeriveKeyMaterial(c: Crypto) returns (r: Result<KeyMaterial>)
      requires Valid()
      ensures r == ClientKeys(c, View())
    {
      hide Finish, DeriveKeys;
      if serverOne.None? || serverTwo.None? || serverRandom.None? {
        return Err(InvalidState);
      }
      var preMaster := Finish(c, party, clientOne, serverOne.value, serverTwo.value);
      if preMaster.Err? {
        return Err(preMaster.error);
      }
      r := Ok(DeriveKeys(c, preMaster.value, clientRandom, serverRandom.value));
    }

    method BuildClientFinished(c: Crypto, messageSeq: U16) returns (r: Result<HandshakeMessage>)
      requires Valid()
      modifies transcript
      ensures Valid()
      ensures match ThreadHandshake.BuildClientFinished(c, old(View()), messageSeq)
              case Ok((s, m)) => r == Ok(m) && View() == s
              case Err(e) => r == Err(e)
      ensures r.Ok? ==> ClientKeys(c, old(View())).Ok?
      ensures r.Ok? ==> IsFinished(c, ClientKeys(c, old(View())).value.masterSecret, Client, old(transcript.bytes), r.value.payload)
    {
      hide TranscriptBytes, ClientKeys, FinishedData, IsFinished;
      var keys := DeriveKeyMaterial(c);
      if keys.Err? {
        return Err(keys.error);
      }
      FinishedIs(c, transcript.bytes, keys.value, Client);
      var message := HandshakeMessage(Finished, messageSeq, FinishedData(c, transcript.bytes, keys.value, Client));
      var pushed := transcript.Push(message);
      r := Then(pushed, message);
    }

    method VerifyServerFinished(c: Crypto, message: HandshakeMessage, keys: KeyMaterial) returns (r: Result<()>)
      requires Valid()
      modifies transcript
      ensures Valid()
      ensures match ThreadHandshake.VerifyServerFinished(c, old(View()), message, keys)
              case Ok(s) => r == Ok(()) && View() == s
              case Err(e) => r == Err(e)
      ensures r.Ok? <==> message.messageType == Finished && IsFinished(c, keys.masterSecret, Server, old(transcript.bytes), message.payload)
    {
      hide TranscriptBytes, FinishedData, IsFinished;
      ServerFinishedExact(c, View(), message, keys);
      if message.messageType != Finished || message.payload != FinishedData(c, transcript.bytes, keys, Server) {
        return Err(Error.Crypto);
      }
      r := transcript.Push(message);
    }
  }

  class ThreadDtlsServerHandshake {
    const party: Party
    const serverOne: RoundOne
    const serverRandom: H.Random
    var clientOne: Option<RoundOne>
    var clientTwo: Option<RoundTwo>
    var clientRandom: Option<H.Random>
    const transcript: HandshakeTranscript

    ghost function View(): ServerState
      reads this, transcript
    {
      ServerState(party, serverOne, clientOne, clientTwo, serverRandom, clientRandom, transcript.bytes)
    }

    ghost predicate Valid()
      reads this, transcript
    {
      transcript.Valid() && View().WellSized()
    }

    constructor (c: Crypto, secret: Bytes, random: H.Random, x1: nat, x2: nat, v1: nat, v2: nat)
      ensures Valid() && View() == NewServer(c, secret, random, x1, x2, v1, v2) && fresh(transcript)
    {
      var p := NewParty(c, Server, secret, x1, x2);
      party, serverOne, serverRandom := p, MakeRoundOne(c, p, v1, v2), random;
      clientOne, clientTwo, clientRandom := None, None, None;
      transcript := new HandshakeTranscript();
    }

    method HandleClientHello(c: Crypto, message: HandshakeMessage) returns (r: Result<()>)
      requires Valid()
      modifies this, transcript
      ensures Valid()
      ensures match ThreadHandshake.HandleClientHello(c, old(View()), message)
              case Ok(s) => r == Ok(()) && View() == s
              case Err(e) => r == Err(e)
    {
      hide TranscriptBytes, H.DecodeClientHello, H.FindExtension, DecodeKkpp;
      if message.messageType != ClientHello {
        return Err(Error.Crypto);
      }
      var hello := H.ClientHelloDecode(message.payload);
      if hello.Err? {
        return Err(hello.error);
      }
      if H.TLS_ECJPAKE_WITH_AES_128_CCM_8 !in hello.value.cipherSuites
         || H.TLS_COMPRESSION_NULL !in hello.value.compressionMethods {
        return Err(Error.Crypto);
      }
      var kkpp := H.FindExtension(hello.value.extensions, H.EXTENSION_ECJPAKE_KKPP);
      if kkpp.None? {
        return Err(Error.Crypto);
      }
      var one := DecodeTlsKkpp(c, kkpp.value, Client.ThreadId());
      if one.Err? {
        return Err(one.error);
      }
      clientOne, clientRandom := Some(one.value), Some(hello.value.random);
      r := transcript.Push(message);
    }

    method BuildServerHello(c: Crypto, messageSeq: U16) returns (r: Result<HandshakeMessage>)
      requires Valid()
      modifies transcript
      ensures Valid()
      ensures match ThreadHandshake.BuildServerHello(c, old(View()), messageSeq)
              case Ok((s, m)) => r == Ok(m) && View() == s
              case Err(e) => r == Err(e)
    {
      hide TranscriptBytes, EncodeKkpp, H.EncodeServerHello, H.ThreadServerHello;
      if clientRandom.None? {
        return Err(InvalidState);
      }
      var kkpp := EncodeKkpp(c, serverOne);
      if kkpp.Err? {
        return Err(kkpp.error);
      }
      var payload := H.EncodeServerHello(H.ThreadServerHello(serverRandom, kkpp.value));
      if payload.Err? {
        return Err(payload.error);
      }
      var message := HandshakeMessage(ServerHello, messageSeq, payload.value);
      var pushed := transcript.Push(message);
      r := Then(pushed, message);
    }

    method BuildServerKeyExchange(c: Crypto, messageSeq: U16, v: nat) returns (r: Result<HandshakeMessage>)
      requires Valid()
      modifies transcript
      ensures Valid()
      ensures match ThreadHandshake.BuildServerKeyExchange(c, old(View()), messageSeq, v)
              case Ok((s, m)) => r == Ok(m) && View() == s
              case Err(e) => r == Err(e)
    {
      hide TranscriptBytes, MakeRoundTwo, EncodeKeyExchange;
      if clientOne.None? {
        return Err(InvalidState);
      }
      var two := MakeRoundTwo(c, party, serverOne, clientOne.value, v);
      if two.Err? {
        return Err(two.error);
      }
      var payload := EncodeKeyExchange(c, two.value, true);
      if payload.Err? {
        return Err(payload.error);
      }
      var message := HandshakeMessage(ServerKeyExchange, messageSeq, payload.value);
      var pushed := transcript.Push(message);
      r := Then(pushed, message);
    }

    method BuildServerHelloDone(messageSeq: U16) returns (r: Result<HandshakeMessage>)
      requires Valid()
      modifies transcript
      ensures Valid()
      ensures match ThreadHandshake.BuildServerHelloDone(old(View()), messageSeq)
              case Ok((s, m)) => r == Ok(m) && View() == s
              case Err(e) => r == Err(e)
    {
      hide TranscriptBytes;
      var message := HandshakeMessage(ServerHelloDone, messageSeq, []);
      var pushed := transcript.Push(message);
      r := Then(pushed, message);
    }

    method HandleClientKeyExchange(c: Crypto, message: HandshakeMessage) returns (r: Result<()>)
      requires Valid()
      modifies this, transcript
      ensures Valid()
      ensures match ThreadHandshake.HandleClientKeyExchange(c, old(View()), message)
              case Ok(s) => r == Ok(()) && View() == s
              case Err(e) => r == Err(e)
    {
      hide TranscriptBytes, DecodeKeyExchange;
      if message.messageType != ClientKeyExchange {
        return Err(Error.Crypto);
      }
      var two := DecodeTlsKeyExchange(c, message.payload, Client.ThreadId(), false);
      if two.Err? {
        return Err(two.error);
      }
      clientTwo := Some(two.value);
      r := transcript.Push(message);
    }

    method DeriveKeyMaterial(c: Crypto) returns (r: Result<KeyMaterial>)
      requires Valid()
      ensures r == ServerKeys(c, View())
    {
      hide Finish, DeriveKeys;
      if clientOne.None? || clientTwo.None? || clientRandom.None? {
        return Err(InvalidState);
      }
      var preMaster := Finish(c, party, serverOne, clientOne.value, clientTwo.value);
      if preMaster.Err? {
        return Err(preMaster.error);
      }
      r := Ok(DeriveKeys(c, preMaster.value, clientRandom.value, serverRandom));
    }

    method VerifyClientFinished(c: Crypto, message: HandshakeMessage, keys: KeyMaterial) returns (r: Result<()>)
      requires Valid()
      modifies transcript
      ensures Valid()
      ensures match ThreadHandshake.VerifyClientFinished(c, old(View()), message, keys)
              case Ok(s) => r == Ok(()) && View() == s
              case Err(e) => r == Err(e)
      ensures r.Ok? <==> message.messageType == Finished && IsFinished(c, keys.masterSecret, Client, old(transcript.bytes), message.payload)
    {
      hide TranscriptBytes, FinishedData, IsFinished;
      ClientFinishedExact(c, View(), message, keys);
      if message.messageType != Finished || message.payload != FinishedData(c, transcript.bytes, keys, Client) {
        return Err(Error.Crypto);
      }
      r := transcript.Push(message);
    }

    method BuildServerFinished(c: Crypto, messageSeq: U16, keys: KeyMaterial) returns (r: Result<HandshakeMessage>)
      requires Valid()
      modifies transcript
      ensures Valid()
      ensures match ThreadHandshake.BuildServerFinished(c, old(View()), messageSeq, keys)
              case Ok((s, m)) => r == Ok(m) && View() == s
              case Err(e) => r == Err(e)
      ensures r.Ok? ==> IsFinished(c, keys.masterSecret, Server, old(transcript.bytes), r.value.payload)
    {
      hide TranscriptBytes, FinishedData, IsFinished;
      FinishedIs(c, transcript.bytes, keys, Server);
      var message := HandshakeMessage(Finished, messageSeq, FinishedData(c, transcript.bytes, keys, Server));
      var pushed := transcript.Push(message);
      r := Then(pushed, message);
    }
  }
}
