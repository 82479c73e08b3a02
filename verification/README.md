# ot-commissioner-rs: a verified model

This project models the protocol core of the Rust Thread commissioner and proves
what it promises. It covers:

- the EC-JPAKE exchange and its codecs, over the scalars mod a prime q;
- the Thread DTLS 1.2 profile: hello, record and handshake codecs, reassembly,
  transcript, key schedule, record protection, replay window, the two handshake
  machines and the two drivers that run them;
- the joiner commissioning session;
- the CoAP codec, the MeshCoP exchange loop and the commissioner lifecycle;
- the adaptive network-diagnostic collector and its keep-alive timing;
- steering data: the CRC-16 Bloom filter of joiner IDs.

Every module pairs a value-level machine or function with lemmas about it. Where
the program updates things in place there is also a class or a loop method whose
contract ties it to that machine, so the lemmas about runs speak of the loops too.

## Reading guide

| area | modules |
|---|---|
| octets, bits, algebra | `Bytes`, `Bits`, `CarryLess`, `PrimeField`, `Primitives` |
| EC-JPAKE | `EcJpake`, `SchnorrSoundness`, `EcJpakeCodec`, `EcJpakeReader` |
| wire formats | `Cursors`, `Hello`, `Record`, `Handshake`, `Reassembly`, `Coap` |
| keys and records | `KeySchedule`, `RecordProtection`, `ReplayWindow`, `Session`, `SecureChannel` |
| handshake | `ThreadHandshake`, `HandshakeMachines`, `HonestHandshake` |
| drivers | `ServerDriver`, `AcceptLoop`, `AcceptorSafety`, `AcceptorNumbering`, `CookieBinding`, `ClientDriver`, `ConnectLoop`, `HonestRun` |
| joiner session | `Joiner`, `JoinerSafety`, `JoinerEvidence`, `JoinerObject` |
| commissioner | `CommissionerClient`, `CommissionerHandle`, `Lifecycle`, `ExchangeLoop` |
| collector | `Splitter`, `KeepAliveTiming`, `Collectors` |
| steering data | `Steering` |

## Modelling choices

- The hash, MAC, AEAD, point encoding and group order are one record `Crypto`. It
  assumes only that decryption inverts encryption for the same key, nonce and
  additional data, that point encodings invert, sizes, and that q is prime. The
  theorems hold for every such record.
- What a hash or MAC covers is stated by separation: whenever two inputs differ
  there is a record of primitives under which the outputs differ. That forged
  records do not open is a premise of `SecureChannel` only, on the records of the
  run: the AEAD opens none that the sender did not seal under that nonce and
  additional data.
- Group elements are their discrete logarithms mod q.
- Randomness, time, datagrams, timeouts, the outcome of each send of the
  commissioner, the joiner handler's answers and the effect of relay traffic are
  inputs. Theorems quantify over all of them.
- An error is its variant. Any error of a handshake, a session or an exchange ends
  it.
- Machine integers wrap where the program wraps them.
- 64-bit words and CRC registers are naturals with their bits given by recursion.
- The collector's time is a natural number and local work takes none. That the
  dataset fetch after the petition takes less than the interval is a premise of the
  timing theorem only, and `FirstCheckInTime` shows it is exactly what the first
  check needs.

## Where the code and its text differ

- The collector's header comment says that it first asks for the whole TLV set
  and that an unanswered single TLV is skipped on every later node. The code
  starts from chunks of six and skips a TLV for the one node only. The model
  follows the code.
- The lifecycle is meant to leave Petitioning on every exit. A commissioner ID
  longer than 65535 octets makes the request builder fail after the state was
  set, and configuration does not check the length. `PetitioningReachable` gives
  the exact condition.

## Model

| member | source | states |
|---|---|---|
| `EcJpake.SchnorrComplete` | crates/thread-dtls/src/ecjpake/schnorr.rs:19-66 | An honestly generated proof verifies if and only if the base and the exponent are nonzero mod q. |
| `SchnorrSoundness.VerifyExact` | crates/thread-dtls/src/ecjpake/schnorr.rs:41-66 | A proof is accepted if and only if it is in the prover's name, the public point is not the identity, and commitment and response solve base*r + public*h = v mod q. |
| `SchnorrSoundness.ResponseUnique` | crates/thread-dtls/src/ecjpake/schnorr.rs:41-66 | For a nonzero base, two accepted proofs with one commitment have the same response, so every altered response is refused. |
| `SchnorrSoundness.ExponentKnown` | crates/thread-dtls/src/ecjpake/schnorr.rs:41-87 | Special soundness: two accepted proofs with one commitment and different challenges, under any two hashes, give x with base*x = public and x*(h2-h1) = r1-r2 mod q. |
| `SchnorrSoundness.InputInjective` | crates/thread-dtls/src/ecjpake/schnorr.rs:70-93 | The hashed octets determine the base, commitment, public point, prover and other information. |
| `SchnorrSoundness.ChallengeSeparates` | crates/thread-dtls/src/ecjpake/schnorr.rs:70-93 | For any two different inputs there is a hash under which the challenges differ. |
| `SchnorrSoundness.RoundOneExact` | crates/thread-dtls/src/ecjpake/mod.rs:221-234 | A round one verifies if and only if both points decode and both exponents are proven in the sender's name. |
| `SchnorrSoundness.RoundTwoExact` | crates/thread-dtls/src/ecjpake/mod.rs:236-258 | A second round is made if and only if the peer's first round is proven and the base is not the identity. |
| `SchnorrSoundness.FinishExact` | crates/thread-dtls/src/ecjpake/mod.rs:260-288 | A shared point is computed if and only if all three proofs of the peer hold. |
| `SchnorrSoundness.SameScalar` | crates/thread-dtls/src/ecjpake/mod.rs:341-355 | Two secrets mean the same scalar if and only if their numbers (a digest above 32 octets) are congruent mod q, zero counting as one. |
| `SchnorrSoundness.PassphrasesMustMatch` | crates/thread-dtls/src/ecjpake/mod.rs:260-355 | Over arbitrary secrets: the shared points coincide if and only if the secrets mean the same scalar or x1+x2+x3+x4 = 0 mod q. |
| `SchnorrSoundness.KeySeparates` | crates/thread-dtls/src/ecjpake/mod.rs:386-410 | Some hash gives two shared points different keys if and only if their x coordinates differ. |
| `EcJpake.HonestRounds` | crates/thread-dtls/src/ecjpake/mod.rs:204-308 | Both first rounds verify; each second round fails exactly on a degenerate base; otherwise each side computes the other's received point in closed form. |
| `EcJpake.KeyAgreement` | crates/thread-dtls/src/ecjpake/mod.rs:204-288 | With equal secrets both sides finish if and only if x1+x3, x1+x3+x4 and x1+x2+x3 are nonzero mod q, and then both derive the key of the point (x1+x3)*x2*x4*s. |
| `EcJpake.SecretsMustMatch` | crates/thread-dtls/src/ecjpake/mod.rs:260-308 | The two shared points coincide if and only if the secrets are equal mod q or x1+x2+x3+x4 = 0 mod q; q is only assumed prime. |
| `EcJpakeCodec.PadTrim` | crates/thread-dtls/src/ecjpake/codec.rs:119-125 | Left-padding a trimmed scalar to its width gives it back; at least one octet is kept. |
| `EcJpakeCodec.KkppRoundTrip` | crates/thread-dtls/src/ecjpake/codec.rs:33-62 | Every verified canonical round one survives encoding and decoding. |
| `EcJpakeCodec.KkppAccepted` | crates/thread-dtls/src/ecjpake/codec.rs:41-62 | Whatever decodes holds two proofs that solve their equations in the sender's name, is canonical and re-encodes to something that decodes to it. |
| `EcJpakeCodec.KeyExchangeRoundTrip` | crates/thread-dtls/src/ecjpake/codec.rs:69-93 | Every canonical round two survives the wire, with and without the curve parameters. |
| `EcJpakeCodec.RoundOneCanonical` | crates/thread-dtls/src/ecjpake/mod.rs:204-219 | Honest round-one messages are canonical, so the round trip applies to them. |
| `EcJpakeCodec.RoundTwoCanonical` | crates/thread-dtls/src/ecjpake/mod.rs:236-258 | Honest round-two messages are canonical. |
| `EcJpakeReader.ReadSchnorrProof` | crates/thread-dtls/src/ecjpake/codec.rs:148-168 | The cursor reader computes the proof reader, canonicalising the point and left-padding the scalar. |
| `EcJpakeReader.DecodeTlsKkpp` | crates/thread-dtls/src/ecjpake/codec.rs:41-62 | The cursor decoder computes the round-one decoder. |
| `EcJpakeReader.DecodeTlsKeyExchange` | crates/thread-dtls/src/ecjpake/codec.rs:79-93 | The cursor decoder computes the round-two decoder. |
| `Cursors.Cursor.ReadExact` | crates/thread-dtls/src/hello.rs:504-515 | A bounds-checked read takes exactly the octets asked for, or fails and moves nothing. |
| `Hello.ReadExtensionList` | crates/thread-dtls/src/hello.rs:472-488 | The extension loop computes the recursive decoder. |
| `Hello.AppendExtensions` | crates/thread-dtls/src/hello.rs:408-419 | The extension writer computes the recursive encoder. |
| `Hello.FindsFirst` | crates/thread-dtls/src/hello.rs:401-406 | The first extension of a type is found, and none exactly when there is none. |
| `Hello.ClientHelloDecode` | crates/thread-dtls/src/hello.rs:226-258 | The cursor decoder computes the decoding function. |
| `Hello.ClientHelloRoundTrip` | crates/thread-dtls/src/hello.rs:195-258 | decode(encode(h)) = h for every ClientHello that encodes. |
| `Hello.ClientHelloInverse` | crates/thread-dtls/src/hello.rs:195-258 | What decodes re-encodes to the same octets, plus two zero octets exactly when the input had no extension block. |
| `Hello.ServerHelloDecode` | crates/thread-dtls/src/hello.rs:345-366 | The cursor decoder computes the decoding function. |
| `Hello.ServerHelloRoundTrip` | crates/thread-dtls/src/hello.rs:331-366 | decode(encode(h)) = h for every ServerHello that encodes. |
| `Hello.ServerHelloInverse` | crates/thread-dtls/src/hello.rs:331-366 | As for ClientHello. |
| `Hello.HelloVerifyRoundTrip` | crates/thread-dtls/src/hello.rs:272-292 | decode(encode(h)) = h for every HelloVerifyRequest that encodes. |
| `Record.HeaderRoundTrip` | crates/thread-dtls/src/record.rs:56-90 | Parsing an encoded header gives it back for every 48-bit sequence number. |
| `Record.AdditionalDataIsHeader` | crates/thread-dtls/src/record.rs:92-106 | The additional data is the encoded header reordered: epoch and sequence number, type and version, plaintext length. |
| `Record.AdditionalDataInjective` | crates/thread-dtls/src/record.rs:92-106 | Equal additional data come from equal epochs, types, versions, plaintext lengths and 48-bit sequence numbers. |
| `Record.DatagramRoundTrip` | crates/thread-dtls/src/record.rs:140-172 | Any list of well-formed records encodes, and parses back to itself. |
| `Record.DatagramInverse` | crates/thread-dtls/src/record.rs:153-172 | Whatever parses as a datagram is the encoding of what was parsed. |
| `Record.ReadDatagram` | crates/thread-dtls/src/record.rs:153-172 | The shrinking-slice loop computes the datagram parser. |
| `Handshake.EncodeIsTranscript` | crates/thread-dtls/src/handshake.rs:182-214 | Encoding a message and its transcript octets agree on every message, and fail exactly above 24 bits of length. |
| `Handshake.ParseTranscript` | crates/thread-dtls/src/handshake.rs:347-374 | The packed-message parser inverts concatenated encodings. |
| `Handshake.ParseMessagesInverse` | crates/thread-dtls/src/handshake.rs:347-374 | Whatever octets parse are the encoding of what was parsed. |
| `Handshake.TranscriptInjective` | crates/thread-dtls/src/handshake.rs:283-287 | Equal transcript octets come from equal message lists. |
| `Handshake.SingleMessage` | crates/thread-dtls/src/handshake.rs:313-345 | The single-message reader agrees with the packed reader, both ways. |
| `Handshake.ReadMessages` | crates/thread-dtls/src/handshake.rs:347-374 | The parsing loop computes the packed-message parser. |
| `Handshake.HandshakeTranscript.Push` | crates/thread-dtls/src/handshake.rs:284-288 | The transcript stays the encoding of the list of messages pushed. |
| `Reassembly.HandshakeReassembler.PushFragment` | crates/thread-dtls/src/handshake.rs:395-429 | The in-place buffers refine a partial map from offsets to octets. |
| `Reassembly.ReassemblyCorrect` | crates/thread-dtls/src/handshake.rs:393-457 | For any order, sizes, overlaps and duplicates of a message's fragments, every push succeeds and returns the message exactly when the ranges pushed so far cover it. |
| `Reassembly.OversizeRefused` | crates/thread-dtls/src/handshake.rs:431-457 | A first fragment is refused if and only if the message is over the limit. |
| `Reassembly.FilledNeverChanges` | crates/thread-dtls/src/handshake.rs:395-429 | In every run, failing pushes included, a filled octet never changes. |
| `Reassembly.ReturnedWasPushed` | crates/thread-dtls/src/handshake.rs:393-457 | Provenance in every run, failing pushes included: each octet of a returned message came at its position in a pushed fragment with that message's type, number and length. |
| `Reassembly.FragmentReassemble` | crates/thread-dtls/src/handshake.rs:217-259 | Fragmenting at any size and pushing the fragments gives the message back, so its transcript does not depend on fragmentation. |
| `KeySchedule.Tls12Prf` | crates/thread-dtls/src/key_schedule.rs:59-83 | The chain loop computes the PRF. |
| `KeySchedule.PrfPrefix` | crates/thread-dtls/src/key_schedule.rs:59-83 | A shorter output is a prefix of a longer one. |
| `KeySchedule.KekFromKeyBlock` | crates/thread-dtls/src/key_schedule.rs:130-145 | The joiner router KEK is a digest of exactly the session's write keys and IVs. |
| `KeySchedule.KeysAre` | crates/thread-dtls/src/key_schedule.rs:85-127 | Master secret, write keys and IVs as octets of HMAC blocks over the RFC 5246 labels and randoms, in their order. |
| `KeySchedule.FinishedSeparates` | crates/thread-dtls/src/key_schedule.rs:149-161 | Any two different triples of master secret, sender and transcript have different Finished data under some hash and MAC. |
| `ThreadHandshake.FinishedIs` | crates/thread-dtls/src/handshake.rs:295-311 | The Finished data is the first 12 octets of HMAC(ms, HMAC(ms, s) + s) with s the sender's label and SHA-256 of the transcript. |
| `ThreadHandshake.FinishedCovers` | crates/thread-dtls/src/handshake.rs:295-311 | If secret, sender or transcript differ, the Finished data differ under some hash and MAC. |
| `RecordProtection.NonceInjective` | crates/thread-dtls/src/ccm.rs:108-129 | No two pairs of epoch and 48-bit sequence share a nonce. |
| `RecordProtection.ProtectSucceeds` | crates/thread-dtls/src/record_protection.rs:22-55 | Protection succeeds exactly for 48-bit numbers and plaintexts that leave room for the nonce and the tag. |
| `RecordProtection.OpenProtect` | crates/thread-dtls/src/record_protection.rs:22-79 | Opening inverts protecting under the same key and IV; that nothing else opens is `SecureChannel.DeliveredWasSent`. |
| `ReplayWindow.WindowRefinesSet` | crates/thread-dtls/src/driver.rs:304-338 | After any marks, a number counts as seen if and only if it was marked or some marked number is 64 or more above it. |
| `ReplayWindow.DtlsReplayWindow.Has` | crates/thread-dtls/src/driver.rs:304-313 | The bitmap test computes the window predicate. |
| `ReplayWindow.DtlsReplayWindow.Mark` | crates/thread-dtls/src/driver.rs:315-338 | The in-place update computes the new window. |
| `Session.SessionState.ProtectApplicationData` | crates/thread-dtls/src/driver.rs:113-137 | Advances the counter exactly when a record was protected. |
| `Session.SessionState.OpenApplicationData` | crates/thread-dtls/src/driver.rs:139-163 | Marks a number exactly when its record was opened. |
| `Session.NoncesDistinct` | crates/thread-dtls/src/driver.rs:113-137 | No two records of a session, nor the Finished before them, share a nonce under the write key. |
| `Session.FinishedNonceUnused` | crates/thread-dtls/src/driver.rs:113-137 | No record of a session reuses the nonce of the Finished before it. |
| `Session.ExhaustedForever` | crates/thread-dtls/src/driver.rs:113-137 | Once the counter is 2^48 every protection fails. |
| `Session.RecordFate` | crates/thread-dtls/src/driver.rs:139-163 | A record is delivered if and only if it authenticates, was not delivered before, and is less than 64 behind every delivered number; otherwise the session is unchanged. |
| `Session.DeliveredOnce` | crates/thread-dtls/src/driver.rs:139-163 | No sequence number is delivered twice. |
| `Session.SentNumber` | crates/thread-dtls/src/driver.rs:113-137 | Over any series of sends, the next number is one more than the sends that succeeded: a failed send takes no number. |
| `Session.ArrivalFate` | crates/thread-dtls/src/driver.rs:113-163 | End to end over any repetition, reordering and loss, whatever sends fail: an arriving record is delivered as the octets sent, unless it arrived before or lies 64 or more successful sends behind an earlier arrival. |
| `SecureChannel.ChangedHeaderChangesCall` | crates/thread-dtls/src/record_protection.rs:57-80 | A record with a changed epoch, sequence number, type or version, and only such a one, asks the AEAD for something never sealed. |
| `SecureChannel.DeliveredWasSent` | crates/thread-dtls/src/driver.rs:206-238 | Under ciphertext integrity of the AEAD in the run, whatever arrives: a delivered plaintext is that of a successful send whose record arrived with its epoch, number, type, version and payload. |
| `SecureChannel.DeliveredAtMostOnce` | crates/thread-dtls/src/driver.rs:139-163 | Each send is delivered at most once, and each delivery has one send. |
| `HandshakeMachines.ThreadDtlsHandshake.constructor` | crates/thread-dtls/src/thread_handshake.rs:43-57 | A fresh client state with an empty transcript. |
| `HandshakeMachines.ThreadDtlsHandshake.RecordClientHello` | crates/thread-dtls/src/thread_handshake.rs:83-88 | Object step refines the client state function; the transcript stays the encoding of the messages pushed. |
| `HandshakeMachines.ThreadDtlsHandshake.HandleServerHello` | crates/thread-dtls/src/thread_handshake.rs:91-104 | Sets the server's round one and random from a profile-conforming hello, or fails. |
| `HandshakeMachines.ThreadDtlsHandshake.HandleServerKeyExchange` | crates/thread-dtls/src/thread_handshake.rs:107-118 | Sets the server's round two from a decoded exchange, or fails. |
| `HandshakeMachines.ThreadDtlsHandshake.HandleServerHelloDone` | crates/thread-dtls/src/thread_handshake.rs:121-128 | Accepts only an empty ServerHelloDone. |
| `HandshakeMachines.ThreadDtlsHandshake.BuildClientKeyExchange` | crates/thread-dtls/src/thread_handshake.rs:131-150 | Builds and records the second round, or fails without the server's first. |
| `HandshakeMachines.ThreadDtlsHandshake.DeriveKeyMaterial` | crates/thread-dtls/src/thread_handshake.rs:153-186 | Keys exist exactly when both server rounds and the random do and the exchange finishes. |
| `HandshakeMachines.ThreadDtlsHandshake.BuildClientFinished` | crates/thread-dtls/src/thread_handshake.rs:196-206 | The Finished data is the HMAC form over the client's keys and the transcript up to it. |
| `HandshakeMachines.ThreadDtlsHandshake.VerifyServerFinished` | crates/thread-dtls/src/thread_handshake.rs:209-226 | Accepts exactly a Finished with the server's HMAC form over the current transcript. |
| `HandshakeMachines.ThreadDtlsServerHandshake.constructor` | crates/thread-dtls/src/thread_server_handshake.rs:107-121 | A fresh server state with an empty transcript. |
| `HandshakeMachines.ThreadDtlsServerHandshake.HandleClientHello` | crates/thread-dtls/src/thread_server_handshake.rs:143-168 | Sets the client's round one and random from a conforming hello, or fails. |
| `HandshakeMachines.ThreadDtlsServerHandshake.BuildServerHello` | crates/thread-dtls/src/thread_server_handshake.rs:171-195 | Builds and records the hello after a ClientHello was accepted. |
| `HandshakeMachines.ThreadDtlsServerHandshake.BuildServerKeyExchange` | crates/thread-dtls/src/thread_server_handshake.rs:198-217 | Builds and records the second round, or fails without the client's first. |
| `HandshakeMachines.ThreadDtlsServerHandshake.BuildServerHelloDone` | crates/thread-dtls/src/thread_server_handshake.rs:220-228 | Builds and records the empty message. |
| `HandshakeMachines.ThreadDtlsServerHandshake.HandleClientKeyExchange` | crates/thread-dtls/src/thread_server_handshake.rs:231-242 | Sets the client's round two, or fails. |
| `HandshakeMachines.ThreadDtlsServerHandshake.DeriveKeyMaterial` | crates/thread-dtls/src/thread_server_handshake.rs:245-271 | The server's keys, as on the client. |
| `HandshakeMachines.ThreadDtlsServerHandshake.VerifyClientFinished` | crates/thread-dtls/src/thread_server_handshake.rs:274-291 | Accepts exactly a Finished with the client's HMAC form over the current transcript. |
| `HandshakeMachines.ThreadDtlsServerHandshake.BuildServerFinished` | crates/thread-dtls/src/thread_server_handshake.rs:294-309 | The Finished data is the server's HMAC form over the transcript including the client's Finished. |
| `ThreadHandshake.ClientFinishedExact` | crates/thread-dtls/src/thread_server_handshake.rs:274-291 | The server accepts a message if and only if it is a Finished with the client's data over the server's own transcript. |
| `ThreadHandshake.ServerFinishedExact` | crates/thread-dtls/src/thread_handshake.rs:209-226 | The client accepts a message if and only if it is a Finished with the server's data over the client's own transcript. |
| `ThreadHandshake.AlteredTranscriptRefused` | crates/thread-dtls/src/thread_server_handshake.rs:274-291 | For every other transcript there is a hash and MAC under which its Finished is refused, by either side. |
| `CookieBinding.HandedOut` | crates/thread-dtls/src/thread_server_handshake.rs:63-72 | The cookie sent for a random is the first 16 octets of its HMAC under the cookie key. |
| `CookieBinding.ScanBinds` | crates/thread-dtls/src/server_driver.rs:161-202 | A hello returning a cookie handed out for another random or key is chosen if and only if the two HMACs agree in 16 octets; otherwise it gets one demand for its own cookie. |
| `CookieBinding.JoinerBinds` | crates/ot-commissioner-rs/src/commissioner/joiner.rs:304-330 | The same at the joiner session, whose handshake and phase stay as they were. |
| `CookieBinding.ForeignCookieRefused` | crates/thread-dtls/src/thread_server_handshake.rs:63-83 | For any other random or key there is a MAC under which the cookie is refused. |
| `AcceptLoop.Accept` | crates/thread-dtls/src/server_driver.rs:148-324 | The nested receive loops return and send exactly what the acceptor machine says. |
| `AcceptLoop.ScanDatagram` | crates/thread-dtls/src/server_driver.rs:161-202 | The record and message loops before a peer is chosen compute the scan. |
| `AcceptLoop.ServePeer` | crates/thread-dtls/src/server_driver.rs:204-324 | The flight and the loop with the chosen peer follow the machine from its choice on. |
| `AcceptorSafety.AcceptorIsSafe` | crates/thread-dtls/src/server_driver.rs:148-324 | Over every datagram sequence, a session is returned only for a peer whose hello carried 16 octets of the HMAC of its own random under the cookie key, with keys from that peer's ClientKeyExchange and the client's Finished data over the transcript under those keys from that peer, in a later record than a ChangeCipherSpec of that peer. |
| `AcceptorNumbering.RunNumbered` | crates/thread-dtls/src/server_driver.rs:148-324 | In every run the epoch-0 records built carry 0, 1, 2, ... mod 2^64. |
| `ConnectLoop.DtlsClientHelloState.NextClientHelloRecord` | crates/thread-dtls/src/hello.rs:70-96 | Numbers and builds the next ClientHello. |
| `ConnectLoop.DtlsClientHelloState.HandleHelloVerifyRequest` | crates/thread-dtls/src/hello.rs:99-118 | Takes the cookie only from an answer to the last hello, and otherwise changes nothing. |
| `ConnectLoop.VerifyDatagram` | crates/thread-dtls/src/client_driver.rs:230-267 | The wait for the cookie demand follows the machine. |
| `ConnectLoop.FlightDatagram` | crates/thread-dtls/src/client_driver.rs:269-335 | The wait for the server flight follows the machine. |
| `ConnectLoop.FinishedDatagram` | crates/thread-dtls/src/client_driver.rs:337-399 | The wait for the server Finished follows the machine. |
| `ConnectLoop.Connect` | crates/thread-dtls/src/client_driver.rs:136-228 | The three waits and four flights return and send exactly what the client machine says. |
| `HonestHandshake.KeysAgree` | crates/thread-dtls/src/thread_server_handshake.rs:245-271 | Non-degenerate honest parties derive the same master secret and key block. |
| `HonestRun.HonestRunCompletes` | crates/thread-dtls/src/client_driver.rs:136-228 | For all randoms, cookie keys and non-degenerate scalars, the two drivers under one PSK connect: each accepts the other's Finished, all keys are equal, and both transcripts are the same seven messages, without the first ClientHello and the HelloVerifyRequest; the sixth holds the client's Finished data over the first five and the seventh the server's over the first six. |
| `HonestRun.HonestRunExact` | crates/thread-dtls/src/client_driver.rs:136-228 | The honest run connects if and only if the scalars are not degenerate. |
| `JoinerObject.JoinerSession.constructor` | crates/ot-commissioner-rs/src/commissioner/joiner.rs:212-236 | A session that awaits a hello, with nothing decided and both counters zero. |
| `JoinerObject.JoinerSession.PlaintextRecord` | crates/ot-commissioner-rs/src/commissioner/joiner.rs:502-506 | Numbers epoch-0 records from the counter. |
| `JoinerObject.JoinerSession.HandlePlaintextHandshake` | crates/ot-commissioner-rs/src/commissioner/joiner.rs:304-365 | The step on a plaintext message: cookie demand, flight, repeated flight, key exchange or failure. |
| `JoinerObject.JoinerSession.TakeClientFinished` | crates/ot-commissioner-rs/src/commissioner/joiner.rs:383-407 | Verifies, answers and connects, or fails. |
| `JoinerObject.JoinerSession.HandleEncryptedHandshake` | crates/ot-commissioner-rs/src/commissioner/joiner.rs:367-410 | The loop over the opened messages follows the machine. |
| `JoinerObject.JoinerSession.HandleApplicationData` | crates/ot-commissioner-rs/src/commissioner/joiner.rs:412-476 | The JOIN_FIN step; a decision made before a failure is kept. |
| `JoinerObject.JoinerSession.ReceiveDatagram` | crates/ot-commissioner-rs/src/commissioner/joiner.rs:264-302 | The loop over records returns exactly the events the machine pushed, or its error. |
| `JoinerSafety.NeverMovesBack` | crates/ot-commissioner-rs/src/commissioner/joiner.rs:264-476 | Between any two points of any run the phase does not move back, keys are frozen from Connected on, a decision stays, and logs only grow. |
| `JoinerSafety.DecidedOnce` | crates/ot-commissioner-rs/src/commissioner/joiner.rs:412-476 | In every run the handler is asked at most once and Finalized is emitted at most once, with that decision and that request's information. |
| `JoinerEvidence.ConnectedIsAuthenticated` | crates/ot-commissioner-rs/src/commissioner/joiner.rs:264-410 | For a connected session some record among the inputs opens under its keys to the client's Finished data over the transcript of the handshake reached from a fresh one by a received hello with the HMAC of its random as cookie and at least one received ClientKeyExchange; that handshake derives those keys, and the hello, the exchanges and a ChangeCipherSpec came in earlier records. |
| `JoinerEvidence.ResponsesAgree` | crates/ot-commissioner-rs/src/commissioner/joiner.rs:412-476 | Every application-data datagram sent opens to the JOIN_FIN response, carrying the one decision, to a request that some received record opens to; the KEK flag equals that decision, and the joiner was authenticated as above. |
| `JoinerEvidence.DecisionIsHandlers` | crates/ot-commissioner-rs/src/commissioner/joiner.rs:429-434 | The decision is what the handler answered when a received JOIN_FIN request was put to it. |
| `JoinerSafety.ResponseWire` | crates/ot-commissioner-rs/src/commissioner/joiner.rs:432-449 | The response on the wire: acknowledgement 2.04 with the request's ID and token and a State TLV of 1 or 0xff. |
| `JoinerSafety.ResponseTellsDecision` | crates/ot-commissioner-rs/src/commissioner/joiner.rs:432-449 | Two responses with the same octets carry the same decision and answer the same message ID and token. |
| `JoinerSafety.JoinerNoncesDistinct` | crates/ot-commissioner-rs/src/commissioner/joiner.rs:391-460 | The epoch-1 records carry 0, 1, 2, ... and no two share a nonce. |
| `Coap.NibbleRoundTrip` | crates/ot-commissioner-rs/src/meshcop/coap.rs:272-302 | The extended-nibble decoder inverts the encoder on every 16-bit value. |
| `Coap.EmptyAckWire` | crates/ot-commissioner-rs/src/meshcop/coap.rs:164-192 | The empty acknowledgement on the wire is 0x60, 0x00 and the message ID. |
| `Coap.EmptyAckRead` | crates/ot-commissioner-rs/src/meshcop/coap.rs:195-249 | What is taken for the empty acknowledgement of an ID is exactly that, or that with a lone payload marker. |
| `Coap.NibbleInverse` | crates/ot-commissioner-rs/src/meshcop/coap.rs:272-302 | Every accepted spelling is the encoder's. |
| `Coap.SortIsStable` | crates/ot-commissioner-rs/src/meshcop/coap.rs:174-176 | The sort orders the numbers and keeps the options of each number in order. |
| `Coap.StablySortedUnique` | crates/ot-commissioner-rs/src/meshcop/coap.rs:174-176 | That arrangement is unique, so the algorithm does not matter. |
| `Coap.EncodeSucceeds` | crates/ot-commissioner-rs/src/meshcop/coap.rs:164-192 | A message encodes if and only if its token has at most 8 octets and every option value fits 16 bits. |
| `Coap.DecodeEncode` | crates/ot-commissioner-rs/src/meshcop/coap.rs:164-249 | decode(encode(m)) is m with its options stably sorted. |
| `Coap.EncodeDecode` | crates/ot-commissioner-rs/src/meshcop/coap.rs:164-249 | b decodes to m if and only if m is encodable and ordered and b is encode(m), or encode(m) and a lone payload marker when the payload is empty. |
| `Coap.EncodeMessage` | crates/ot-commissioner-rs/src/meshcop/coap.rs:164-192 | The encoder loop computes the encoding. |
| `Coap.DecodeMessage` | crates/ot-commissioner-rs/src/meshcop/coap.rs:195-249 | The decoder loop computes the decoding. |
| `Coap.ReadUriPath` | crates/ot-commissioner-rs/src/meshcop/coap.rs:146-161 | The option loop computes the path. |
| `Coap.UriPathRoundTrip` | crates/ot-commissioner-rs/src/meshcop/coap.rs:122-161 | A path that was set is read back behind one slash; setting fails exactly when a second slash comes first, a slash comes last or two are adjacent. |
| `Coap.LeadingSlash` | crates/ot-commissioner-rs/src/meshcop/coap.rs:122-144 | One slash in front of a path makes no difference. |
| `Coap.PiecesWithoutSlash` | crates/ot-commissioner-rs/src/meshcop/coap.rs:122-144 | No segment of a path holds a slash. |
| `Coap.PathSurvivesWire` | crates/ot-commissioner-rs/src/meshcop/coap.rs:146-249 | Encoding and decoding keep the path, wherever its options stood. |
| `CommissionerHandle.Commissioner.constructor` | crates/ot-commissioner-rs/src/commissioner/client/mod.rs:72-100 | A connected handle with no session, prefix, events or joiner sessions. |
| `CommissionerHandle.Commissioner.SetJoinerHandler` | crates/ot-commissioner-rs/src/commissioner/client/mod.rs:106-108 | Installs the handler and nothing else. |
| `CommissionerHandle.Commissioner.ClearJoinerHandler` | crates/ot-commissioner-rs/src/commissioner/client/mod.rs:111-114 | Also drops the joiner sessions. |
| `CommissionerHandle.Commissioner.NextRequestIdentity` | crates/ot-commissioner-rs/src/commissioner/client/mod.rs:269-272 | Wrapping 16-bit message IDs, with the token spelling the ID. |
| `CommissionerHandle.Commissioner.SendWire` | crates/ot-commissioner-rs/src/commissioner/client/transport.rs:298-317 | Sends over the DTLS session or fails and sends nothing. |
| `CommissionerHandle.Commissioner.AckIfConfirmable` | crates/ot-commissioner-rs/src/commissioner/client/transport.rs:330-336 | One empty acknowledgement for a confirmable message. |
| `CommissionerHandle.Commissioner.SendProxiedAck` | crates/ot-commissioner-rs/src/commissioner/client/transport.rs:339-354 | One acknowledgement through the proxy to the source. |
| `CommissionerHandle.Commissioner.RouteUnsolicitedMessage` | crates/ot-commissioner-rs/src/commissioner/client/transport.rs:356-387 | Relays, or queues an event, and drops the cached prefix on a dataset change. |
| `CommissionerHandle.Commissioner.RouteUnsolicitedProxied` | crates/ot-commissioner-rs/src/commissioner/client/transport.rs:390-410 | Queues an event, drops the cached prefix on a dataset change, and answers a confirmable notification. |
| `CommissionerHandle.Commissioner.HandleIncoming` | crates/ot-commissioner-rs/src/commissioner/client/transport.rs:210-282 | One message, refining the routing function. |
| `CommissionerHandle.Commissioner.Execute` | crates/ot-commissioner-rs/src/commissioner/client/transport.rs:129-201 | The exchange loop follows the exchange function over the arrivals. |
| `CommissionerHandle.Commissioner.ExecuteMeshcop` | crates/ot-commissioner-rs/src/commissioner/client/transport.rs:66-77 | Also refuses 4.xx and 5.xx responses. |
| `CommissionerHandle.Commissioner.Petition` | crates/ot-commissioner-rs/src/commissioner/client/mod.rs:142-190 | The whole new state of a petition, every exit included. |
| `CommissionerHandle.Commissioner.KeepAlive` | crates/ot-commissioner-rs/src/commissioner/client/mod.rs:193-210 | The whole new state of a keep-alive; a rejection ends the session. |
| `CommissionerHandle.Commissioner.Resign` | crates/ot-commissioner-rs/src/commissioner/client/mod.rs:213-225 | Disconnects unless the exchange fails or the response is pending. |
| `CommissionerHandle.Commissioner.NextEvent` | crates/ot-commissioner-rs/src/commissioner/client/mod.rs:242-258 | The oldest queued event, or the first that arrives. |
| `CommissionerHandle.Commissioner.Disconnect` | crates/ot-commissioner-rs/src/commissioner/client/mod.rs:261-267 | Drops everything the session held. |
| `CommissionerHandle.Commissioner.RequireMeshLocalPrefix` | crates/ot-commissioner-rs/src/commissioner/client/transport.rs:23-41 | The cached prefix, or the one fetched and checked. |
| `ExchangeLoop.ExchangeReturns` | crates/ot-commissioner-rs/src/commissioner/client/transport.rs:129-282 | For every stream: a returned response is the first arrival, direct or decapsulated, that answers the request; events were queued in arrival order; each arrival up to it was acknowledged exactly once if confirmable and routed or the response, and otherwise not at all. |
| `ExchangeLoop.ExchangeReturnsWhen` | crates/ot-commissioner-rs/src/commissioner/client/transport.rs:129-282 | An exchange returns a response if and only if, read off the arrivals and send outcomes, all arrivals before the first answer decode and pass (nothing shown, the empty acknowledgement, or a notification relayed and acknowledged without error; an unknown encapsulated message also passes) and the answer can be acknowledged. |
| `ExchangeLoop.LateAnswerIgnored` | crates/ot-commissioner-rs/src/commissioner/client/mod.rs:269-272 | A late answer to a request is not taken for the answer to any of the next 65535 requests. |
| `ExchangeLoop.ChangedWire` | crates/ot-commissioner-rs/src/commissioner/client/transport.rs:390-410 | A proxied notification is answered with an acknowledgement 2.04 that repeats its ID and token. |
| `ExchangeLoop.EventsFaithful` | crates/ot-commissioner-rs/src/commissioner/client/transport.rs:356-410 | An event tells all of its notification but the relaying router's locator, and the peer where it names one. |
| `Lifecycle.AlwaysConsistent` | crates/ot-commissioner-rs/src/commissioner/client/mod.rs:142-288 | After any calls: a session ID exactly while Active; nothing left while Disabled; Petitioning only with an ID too long for a TLV; a cached prefix in fd00::/8 and newer than the last routed dataset change. |
| `Lifecycle.DisabledForever` | crates/ot-commissioner-rs/src/commissioner/client/mod.rs:261-288 | Disabled is absorbing, with no session ID, DTLS session, prefix or joiner session. |
| `Lifecycle.PetitioningReachable` | crates/ot-commissioner-rs/src/commissioner/client/mod.rs:142-151 | Some calls end in Petitioning if and only if the commissioner ID is longer than 65535 octets. |
| `Lifecycle.StuckPetitioning` | crates/ot-commissioner-rs/src/commissioner/client/mod.rs:142-147 | With such an ID a petition fails and leaves the handle petitioning, where every later petition fails. |
| `Lifecycle.LongIdSticks` | crates/ot-commissioner-rs/src/commissioner/client/mod.rs:142-147 | A concrete ID of 65536 octets that does so. |
| `Lifecycle.ExchangeTraffic` | crates/ot-commissioner-rs/src/commissioner/client/transport.rs:356-410 | Traffic changes no session field, and a response arrives after every dataset change routed before it. |
| `Splitter.CollectSettles` | crates/ot-netdiag/src/collect.rs:287-336 | Whatever the node does short of a fatal error, each requested flag but MAC_ADDR ends in exactly one answered batch or one lone refusal (a zero flag may end in a batch that asks for nothing), and n flags cost at most 2n queries less one per initial chunk. |
| `Splitter.DrainSettles` | crates/ot-netdiag/src/collect.rs:316-334 | From any stack: every flag on it is settled once more, and the queries are bounded by the weight of the stack. |
| `Splitter.CollectedData` | crates/ot-netdiag/src/collect.rs:294-334 | The merged result holds exactly the values of the primer and of the answered queries, the latest winning. |
| `Splitter.NothingSkipped` | crates/ot-netdiag/src/collect.rs:316-321 | With nonzero flags no batch is skipped. |
| `Splitter.ChunkCount` | crates/ot-netdiag/src/collect.rs:306-314 | n flags start as n/6 chunks, rounded up. |
| `Splitter.ChunksInOrder` | crates/ot-netdiag/src/collect.rs:306-314 | The first batches asked for hold the flags in the given order, six each but for the last. |
| `Splitter.HalvesInOrder` | crates/ot-netdiag/src/collect.rs:324-328 | A refused batch is cut in halves that differ by at most one flag, and the second half is asked for first. |
| `Splitter.CombinedBits` | crates/ot-netdiag/src/collect.rs:318-321 | A query asks for exactly the bits of the flags in its batch. |
| `Collectors.Collector.ServeBatch` | crates/ot-netdiag/src/collect.rs:316-334 | One turn of the work-list loop follows the machine. |
| `Collectors.Collector.CollectDiag` | crates/ot-netdiag/src/collect.rs:287-336 | None means four silent attempts; a result is the primer merged with what draining the stack collects. |
| `Collectors.Collector.Prime` | crates/ot-netdiag/src/collect.rs:341-352 | At most four attempts; none only after four silent ones. |
| `Collectors.Collector.DiagQuery` | crates/ot-netdiag/src/collect.rs:358-382 | The four recoverable errors and the timeout mean no answer, anything else is fatal; an answer exactly at the timeout is taken; the clock moves by the wait, cut off at the timeout. |
| `Collectors.Collector.KeepAliveBeforeRequest` | crates/ot-netdiag/src/collect.rs:384-415 | The clock moves by the keep-alive step: one is sent exactly when a whole wait could cross the deadline, and anything but acceptance fails. |
| `Collectors.Start` | crates/ot-netdiag/src/collect.rs:108-136 | Refuses exactly a node timeout that is not shorter than the interval; the clock starts in time if and only if the dataset fetch took less than the interval. |
| `Collectors.Collector.Walk` | crates/ot-netdiag/src/collect.rs:139-219 | Over any nodes, each entry is the data fetched from that node or stands for four silent attempts; if the clock started in time, every logged keep-alive and request was in time. |
| `KeepAliveTiming.AlwaysInTime` | crates/ot-netdiag/src/collect.rs:384-415 | In every run each diagnostic request starts and ends strictly before the last accepted keep-alive plus the interval, and each keep-alive is sent before it. |
| `KeepAliveTiming.FirstCheckInTime` | crates/ot-netdiag/src/collect.rs:108-136 | The first check is in time if and only if the dataset fetch took less than the interval. |
| `KeepAliveTiming.TimeoutMustBeShorter` | crates/ot-netdiag/src/collect.rs:452-458 | A request that waits out its timeout after an accepted keep-alive is in time if and only if the timeout is shorter than the interval. |
| `Steering.Crc16` | crates/ot-commissioner-rs/src/crypto/pskc.rs:205-218 | The nested loop computes the CRC. |
| `Steering.CrcIsRemainder` | crates/ot-commissioner-rs/src/crypto/pskc.rs:205-218 | For every 16-bit polynomial and message, the CRC is the remainder of message*x^16 modulo x^16 + poly over carry-less products, and nothing else is. |
| `Steering.OneBitNoticed` | crates/ot-commissioner-rs/src/crypto/pskc.rs:205-218 | With an odd polynomial, messages that differ in one bit have different CRCs. |
| `Steering.CrcLinear` | crates/ot-commissioner-rs/src/crypto/pskc.rs:205-218 | The CRC is XOR-linear on inputs of one length, for any polynomial. |
| `Steering.CrcResidue` | crates/ot-commissioner-rs/src/crypto/pskc.rs:205-218 | A message followed by its own CRC has CRC zero. |
| `Steering.SetBitInPlace` | crates/ot-commissioner-rs/src/crypto/pskc.rs:200-203 | The in-place update computes the new filter. |
| `Steering.SetBitEffect` | crates/ot-commissioner-rs/src/crypto/pskc.rs:200-203 | Setting a bit sets that bit and touches no other. |
| `Steering.ComputeBloomFilter` | crates/ot-commissioner-rs/src/crypto/pskc.rs:192-198 | Adds both CRC bits in place. |
| `Steering.AddJoinerToSteeringData` | crates/ot-commissioner-rs/src/crypto/pskc.rs:118-124 | Adds an ID to a filter, replacing one of the wrong size first. |
| `Steering.FilterContents` | crates/ot-commissioner-rs/src/crypto/pskc.rs:118-124 | After any additions the set bits are exactly those set before and the two remainders mod 128 of every added ID, modulo x^16+x^12+x^5+1 and x^16+x^15+x^2+1. |
| `Steering.FilterDependsOnSet` | crates/ot-commissioner-rs/src/crypto/pskc.rs:118-124 | The filter depends only on which IDs were added. |
| `Steering.WrongSizeIsReset` | crates/ot-commissioner-rs/src/crypto/pskc.rs:118-124 | A filter of the wrong size counts as empty. |

## Left out

- The primitive cryptography itself, point parsing and field arithmetic.
- Sockets, polling, timers, timeouts as durations, and cancellation of a call in progress.
- Zeroization, redaction, constant-time comparison and tracing.
- The command line, JSON, topology rendering and every other user interface.
- Error strings and alert descriptions.
- `relay.rs`: expiry of joiner sessions and packing of relay messages; what handling a relayed datagram does is an arbitrary input of the exchange.
- MeshCoP request builders, notification parsers, dataset accessors and diagnostic TLV decoders: straight-line packing, passed in as functions.
- Parsing of the JOIN_FIN.req payload and UTF-8 validity: passed in as functions.
- `set_uri_path` updates its message in place; `Coap.SetUriPath` returns the new message, so what a failed call leaves behind is not captured. The CoAP request constructors are easy members.
- The legacy ClientHello without an EC-JPAKE extension in the cookie-retry state: the client driver never sends it.
- The receive loop of an established session: that it passes only application data of epoch 1 to the window is the premise `Passed`; alerts, and records dropped behind a delivered one in its datagram, are not modelled.
- Joiner.Receive: outgoing datagrams are kept as the records that form them; `Record.EncodeDatagram` is their wire form.
- Collectors.Collector.Walk: the topology built from the answers is not modelled, only what is fetched from each node and when.
- AcceptLoop.Accept: takes every send to succeed and every datagram to arrive parsed; a failed send, a transport error or an unparsable datagram ends the call in the program and is not modelled.
- ConnectLoop.Connect: as for the acceptor.
