/** DTLS handshake messages: framing, fragments and the transcript. */
module Handshake {
  import opened Bytes
  import opened Record

  const MAX_U24: nat := 0xff_ffff
  const HANDSHAKE_HEADER_LEN: nat := 12

  datatype HandshakeType =
    | HelloRequest | ClientHello | ServerHello | HelloVerifyRequest | Certificate | ServerKeyExchange
    | CertificateRequest | ServerHelloDone | CertificateVerify | ClientKeyExchange | Finished
  {
    function Code(): Byte {
      match this
      case HelloRequest => 0
      case ClientHello => 1
      case ServerHello => 2
      case HelloVerifyRequest => 3
      case Certificate => 11
      case ServerKeyExchange => 12
      case CertificateRequest => 13
      case ServerHelloDone => 14
      case CertificateVerify => 15
      case ClientKeyExchange => 16
      case Finished => 20
    }
  }

  function HandshakeTypeOf(code: Byte): (r: Result<HandshakeType>)
    ensures r.Ok? ==> r.value.Code() == code
    ensures forall t: HandshakeType :: t.Code() == code ==> r == Ok(t)
  {
    match code
    case 0 => Ok(HelloRequest)
    case 1 => Ok(ClientHello)
    case 2 => Ok(ServerHello)
    case 3 => Ok(HelloVerifyRequest)
    case 11 => Ok(Certificate)
    case 12 => Ok(ServerKeyExchange)
    case 13 => Ok(CertificateRequest)
    case 14 => Ok(ServerHelloDone)
    case 15 => Ok(CertificateVerify)
    case 16 => Ok(ClientKeyExchange)
    case 20 => Ok(Finished)
    case _ => Err(Error.Crypto)
  }

  datatype HandshakeHeader = HandshakeHeader(
    messageType: HandshakeType, length: nat, messageSeq: U16, fragmentOffset: nat, fragmentLength: nat)
  {
    predicate Valid() {
      && length <= MAX_U24 && fragmentOffset <= MAX_U24 && fragmentLength <= MAX_U24
      && fragmentOffset + fragmentLength <= length
    }
  }

  datatype HandshakeFragment = HandshakeFragment(header: HandshakeHeader, fragment: Bytes)

  datatype HandshakeMessage = HandshakeMessage(messageType: HandshakeType, messageSeq: U16, payload: Bytes)

  // ----- Headers

  function EncodeHandshakeHeader(h: HandshakeHeader): (r: Result<Bytes>)
    ensures r.Ok? ==> |r.value| == HANDSHAKE_HEADER_LEN
  {
    if !h.Valid() then Err(Error.Crypto) else
    Ok([h.messageType.Code()] + BigEndian(h.length, 3) + BigEndian(h.messageSeq, 2)
       + BigEndian(h.fragmentOffset, 3) + BigEndian(h.fragmentLength, 3))
  }

  function ParseHandshakeHeader(b: Bytes): (r: Result<HandshakeHeader>)
    ensures r.Ok? ==> |b| >= HANDSHAKE_HEADER_LEN && r.value.Valid()
  {
    PowerValues();
    if |b| < HANDSHAKE_HEADER_LEN then Err(Error.Crypto) else
    var ty :- HandshakeTypeOf(b[0]);
    var h := HandshakeHeader(ty, FromBigEndian(b[1..4]), FromBigEndian(b[4..6]), FromBigEndian(b[6..9]), FromBigEndian(b[9..12]));
    if h.Valid() then Ok(h) else Err(Error.Crypto)
  }

  lemma HandshakeHeaderRoundTrip(h: HandshakeHeader, rest: Bytes)
    requires h.Valid()
    ensures ParseHandshakeHeader(EncodeHandshakeHeader(h).value + rest) == Ok(h)
  {
    hide BigEndian, FromBigEndian;
    PowerValues();
    var b := EncodeHandshakeHeader(h).value;
    var s := b + rest;
    assert s[1..4] == b[1..4] == BigEndian(h.length, 3);
    assert s[4..6] == b[4..6] == BigEndian(h.messageSeq, 2);
    assert s[6..9] == b[6..9] == BigEndian(h.fragmentOffset, 3);
    assert s[9..12] == b[9..12] == BigEndian(h.fragmentLength, 3);
    BigEndianRoundTrip(h.length, 3);
    BigEndianRoundTrip(h.messageSeq, 2);
    BigEndianRoundTrip(h.fragmentOffset, 3);
    BigEndianRoundTrip(h.fragmentLength, 3);
  }

  lemma HandshakeHeaderInverse(s: Bytes)
    requires ParseHandshakeHeader(s).Ok?
    ensures EncodeHandshakeHeader(ParseHandshakeHeader(s).value) == Ok(s[..HANDSHAKE_HEADER_LEN])
  {
    hide BigEndian, FromBigEndian;
    FromBigEndianRoundTrip(s[1..4]);
    FromBigEndianRoundTrip(s[4..6]);
    FromBigEndianRoundTrip(s[6..9]);
    FromBigEndianRoundTrip(s[9..12]);
    assert s[..HANDSHAKE_HEADER_LEN] == [s[0]] + s[1..4] + s[4..6] + s[6..9] + s[9..12];
  }

  // ----- Fragments

  function ParseFragment(b: Bytes): (r: Result<HandshakeFragment>)
    ensures r.Ok? ==> r.value.header.Valid() && |r.value.fragment| == r.value.header.fragmentLength
                      && HANDSHAKE_HEADER_LEN + |r.value.fragment| <= |b|
  {
    var h :- ParseHandshakeHeader(b);
    var end := HANDSHAKE_HEADER_LEN + h.fragmentLength;
    if |b| < end then Err(Error.Crypto) else Ok(HandshakeFragment(h, b[HANDSHAKE_HEADER_LEN..end]))
  }

  function EncodeFragment(f: HandshakeFragment): Result<Bytes> {
    if |f.fragment| != f.header.fragmentLength then Err(Error.Crypto) else
    Prefixed2(EncodeHandshakeHeader(f.header), f.fragment)
  }

  function Prefixed2(head: Result<Bytes>, tail: Bytes): Result<Bytes> {
    var h :- head;
    Ok(h + tail)
  }

  // ----- Whole messages

  /** The canonical single-fragment form hashed by Finished. */
  function TranscriptBytes(m: HandshakeMessage): Result<Bytes> {
    Prefixed2(EncodeHandshakeHeader(HandshakeHeader(m.messageType, |m.payload|, m.messageSeq, 0, |m.payload|)), m.payload)
  }

  /** The chunks of the payload from `offset` on. */
  function FragmentsFrom(m: HandshakeMessage, max: nat, offset: nat): seq<HandshakeFragment>
    requires max > 0 && offset <= |m.payload|
    decreases |m.payload| - offset
  {
    if offset == |m.payload| then [] else
    var end := if offset + max < |m.payload| then offset + max else |m.payload|;
    [HandshakeFragment(HandshakeHeader(m.messageType, |m.payload|, m.messageSeq, offset, end - offset), m.payload[offset..end])]
    + FragmentsFrom(m, max, end)
  }

  function Fragment(m: HandshakeMessage, max: nat): Result<seq<HandshakeFragment>> {
    if max == 0 || |m.payload| > MAX_U24 then Err(Error.Crypto) else
    var fragments := FragmentsFrom(m, max, 0);
    Ok(if fragments == [] then [HandshakeFragment(HandshakeHeader(m.messageType, 0, m.messageSeq, 0, 0), [])] else fragments)
  }

  function EncodeMessage(m: HandshakeMessage): Result<Bytes> {
    var fragments :- Fragment(m, if |m.payload| == 0 then 1 else |m.payload|);
    if fragments == [] then Err(Error.Crypto) else EncodeFragment(fragments[0])
  }

  /** The wire form of a message and its transcript form are the same octets. */
  lemma EncodeIsTranscript(m: HandshakeMessage)
    ensures EncodeMessage(m) == TranscriptBytes(m)
    ensures EncodeMessage(m).Ok? <==> |m.payload| <= MAX_U24
  {
    hide EncodeHandshakeHeader;
    if 0 < |m.payload| <= MAX_U24 {
      var n := |m.payload|;
      assert m.payload[0..n] == m.payload;
      assert FragmentsFrom(m, n, 0)[0] == HandshakeFragment(HandshakeHeader(m.messageType, n, m.messageSeq, 0, n), m.payload);
    }
    EncodableHeader(m);
  }

  lemma EncodableHeader(m: HandshakeMessage)
    ensures EncodeHandshakeHeader(HandshakeHeader(m.messageType, |m.payload|, m.messageSeq, 0, |m.payload|)).Ok?
            <==> |m.payload| <= MAX_U24
    ensures |m.payload| > MAX_U24 ==>
      EncodeHandshakeHeader(HandshakeHeader(m.messageType, |m.payload|, m.messageSeq, 0, |m.payload|)) == Err(Error.Crypto)
  {
  }

  // ----- Messages packed into one record

  function TakeMessage(s: Bytes): (r: Result<(HandshakeMessage, Bytes)>)
    ensures r.Ok? ==> |r.value.1| < |s| && |r.value.0.payload| <= MAX_U24
  {
    var f :- ParseFragment(s);
    if f.header.fragmentOffset != 0 || f.header.fragmentLength != f.header.length then Err(Error.Crypto) else
    Ok((HandshakeMessage(f.header.messageType, f.header.messageSeq, f.fragment), s[HANDSHAKE_HEADER_LEN + |f.fragment|..]))
  }

  function ParseMessages(s: Bytes): Result<seq<HandshakeMessage>>
    decreases |s|
  {
    if s == [] then Ok([]) else
    var (m, rest) :- TakeMessage(s);
    Prefixed([m], ParseMessages(rest))
  }

  /** `parse_unfragmented_handshake_messages` */
  function RecordMessages(r: DtlsRecord): Result<seq<HandshakeMessage>> {
    if r.header.contentType != ContentType.Handshake then Err(Error.Crypto) else ParseMessages(r.payload)
  }

  /** `parse_unfragmented_handshake_record` */
  function RecordMessage(r: DtlsRecord, expected: HandshakeType): Result<HandshakeMessage> {
    if r.header.contentType != ContentType.Handshake then Err(Error.Crypto) else
    var f :- ParseFragment(r.payload);
    if HANDSHAKE_HEADER_LEN + |f.fragment| != |r.payload| || f.header.messageType != expected
       || f.header.fragmentOffset != 0 || f.header.fragmentLength != f.header.length
    then Err(Error.Crypto)
    else Ok(HandshakeMessage(f.header.messageType, f.header.messageSeq, f.fragment))
  }

  /** The transcript of a list of messages: what `HandshakeTranscript` holds
      after pushing them in order. */
  function Transcript(ms: seq<HandshakeMessage>): Result<Bytes> {
    if ms == [] then Ok([]) else
    var first :- TranscriptBytes(ms[0]);
    Prefixed(first, Transcript(ms[1..]))
  }

  lemma TakeMessageAppend(m: HandshakeMessage, rest: Bytes)
    requires |m.payload| <= MAX_U24
    ensures TranscriptBytes(m).Ok? && TakeMessage(TranscriptBytes(m).value + rest) == Ok((m, rest))
  {
    hide EncodeHandshakeHeader, ParseHandshakeHeader;
    var h := HandshakeHeader(m.messageType, |m.payload|, m.messageSeq, 0, |m.payload|);
    EncodableHeader(m);
    var b := EncodeHandshakeHeader(h).value;
    var s := TranscriptBytes(m).value + rest;
    assert s == b + (m.payload + rest);
    HandshakeHeaderRoundTrip(h, m.payload + rest);
    assert s[HANDSHAKE_HEADER_LEN..HANDSHAKE_HEADER_LEN + |m.payload|] == m.payload;
    assert s[HANDSHAKE_HEADER_LEN + |m.payload|..] == rest;
  }

  lemma TakeMessageInverse(s: Bytes)
    requires TakeMessage(s).Ok?
    ensures var (m, rest) := TakeMessage(s).value;
            TranscriptBytes(m).Ok? && TranscriptBytes(m).value + rest == s
  {
    hide EncodeHandshakeHeader, ParseHandshakeHeader;
    HandshakeHeaderInverse(s);
    var n := HANDSHAKE_HEADER_LEN + |TakeMessage(s).value.0.payload|;
    assert s[..HANDSHAKE_HEADER_LEN] + s[HANDSHAKE_HEADER_LEN..n] + s[n..] == s;
  }

  /** Parsing inverts the concatenated encodings. */
  lemma {:induction false} ParseTranscript(ms: seq<HandshakeMessage>)
    requires Transcript(ms).Ok?
    ensures ParseMessages(Transcript(ms).value) == Ok(ms)
  {
    if ms != [] {
      hide TakeMessage;
      EncodableMessage(ms[0]);
      var rest := Transcript(ms[1..]).value;
      TakeMessageAppend(ms[0], rest);
      ParseTranscript(ms[1..]);
      assert ms == [ms[0]] + ms[1..];
    }
  }

  lemma EncodableMessage(m: HandshakeMessage)
    ensures TranscriptBytes(m).Ok? <==> |m.payload| <= MAX_U24
  {
    EncodableHeader(m);
  }

  /** Whatever octets parse are the encoding of what was parsed. */
  lemma {:induction false} ParseMessagesInverse(s: Bytes)
    requires ParseMessages(s).Ok?
    ensures Transcript(ParseMessages(s).value) == Ok(s)
    decreases |s|
  {
    if s != [] {
      hide TakeMessage, TranscriptBytes;
      var (m, rest) := TakeMessage(s).value;
      TakeMessageInverse(s);
      ParseMessagesInverse(rest);
      var ms := ParseMessages(s).value;
      assert ms[0] == m && ms[1..] == ParseMessages(rest).value;
    }
  }

  /** Two message lists with the same transcript octets are the same list, so a
      Finished value covers the messages and not only their concatenation. */
  lemma TranscriptInjective(ms: seq<HandshakeMessage>, ns: seq<HandshakeMessage>)
    requires Transcript(ms).Ok? && Transcript(ms) == Transcript(ns)
    ensures ms == ns
  {
    ParseTranscript(ms);
    ParseTranscript(ns);
  }

  /** The record reader for one message agrees with the packed reader. */
  lemma SingleMessage(r: DtlsRecord, m: HandshakeMessage)
    ensures RecordMessages(r) == Ok([m]) <==> RecordMessage(r, m.messageType) == Ok(m)
  {
    hide ParseFragment;
    if r.payload != [] && TakeMessage(r.payload).Ok? {
      var (first, rest) := TakeMessage(r.payload).value;
      assert rest == [] <==> HANDSHAKE_HEADER_LEN + |first.payload| == |r.payload|;
      if ParseMessages(rest).Ok? {
        var tail := ParseMessages(rest).value;
        assert [first] + tail == [m] <==> first == m && tail == [] by {
          assert |[first] + tail| == 1 + |tail| && ([first] + tail)[0] == first;
        }
        EmptyList(rest);
      }
    }
    NoEmptyFragment();
  }

  lemma EmptyList(s: Bytes)
    requires ParseMessages(s).Ok?
    ensures ParseMessages(s).value == [] <==> s == []
  {
    hide TakeMessage;
    if s != [] {
      var (m, rest) := TakeMessage(s).value;
      assert |[m] + ParseMessages(rest).value| > 0;
    }
  }

  lemma NoEmptyFragment()
    ensures ParseFragment([]).Err?
  {
  }

  /** The source's loop over the shrinking record payload. */
  method ReadMessages(r: DtlsRecord) returns (result: Result<seq<HandshakeMessage>>)
    ensures result == RecordMessages(r)
  {
    hide ParseFragment;
    if r.header.contentType != ContentType.Handshake {
      return Err(Error.Crypto);
    }
    var bytes := r.payload;
    var messages: seq<HandshakeMessage> := [];
    PrefixedEmpty(ParseMessages(bytes));
    while bytes != []
      invariant ParseMessages(r.payload) == Prefixed(messages, ParseMessages(bytes))
      decreases |bytes|
    {
      var fragment := ParseFragment(bytes);
      if fragment.Err? {
        return Err(fragment.error);
      }
      var f := fragment.value;
      if f.header.fragmentOffset != 0 || f.header.fragmentLength != f.header.length {
        return Err(Error.Crypto);
      }
      var consumed := HANDSHAKE_HEADER_LEN + |f.fragment|;
      var m := HandshakeMessage(f.header.messageType, f.header.messageSeq, f.fragment);
      PrefixedStep(messages, [m], ParseMessages(bytes[consumed..]));
      messages := messages + [m];
      bytes := bytes[consumed..];
    }
    PrefixedEmpty(Ok(messages));
    return Ok(messages);
  }

  // ----- The mutable transcript

  class HandshakeTranscript {
    var bytes: Bytes
    ghost var messages: seq<HandshakeMessage>

    ghost predicate Valid()
      reads this
    {
      Transcript(messages) == Ok(bytes)
    }

    constructor ()
      ensures Valid() && messages == [] && bytes == []
    {
      bytes := [];
      messages := [];
    }

    /** Appends one message, or fails and changes nothing. */
    method Push(m: HandshakeMessage) returns (r: Result<()>)
      requires Valid()
      modifies this
      ensures Valid()
      ensures r.Ok? <==> |m.payload| <= MAX_U24
      ensures messages == if r.Ok? then old(messages) + [m] else old(messages)
      ensures match TranscriptBytes(m)
              case Ok(b) => r == Ok(()) && bytes == old(bytes) + b
              case Err(e) => r == Err(e) && bytes == old(bytes)
    {
      hide TranscriptBytes;
      var b := TranscriptBytes(m);
      EncodableMessage(m);
      if b.Err? {
        return Err(b.error);
      }
      TranscriptSnoc(messages, m);
      bytes := bytes + b.value;
      messages := messages + [m];
      return Ok(());
    }
  }

  lemma {:induction false} TranscriptSnoc(ms: seq<HandshakeMessage>, m: HandshakeMessage)
    requires Transcript(ms).Ok? && TranscriptBytes(m).Ok?
    ensures Transcript(ms + [m]) == Ok(Transcript(ms).value + TranscriptBytes(m).value)
  {
    hide TranscriptBytes;
    if ms == [] {
      assert [] + [m] == [m] && [m][1..] == [];
      PrefixedEmpty(TranscriptBytes(m));
      assert [] + TranscriptBytes(m).value == TranscriptBytes(m).value;
    } else {
      TranscriptSnoc(ms[1..], m);
      assert (ms + [m])[0] == ms[0] && (ms + [m])[1..] == ms[1..] + [m];
      PrefixedStep(TranscriptBytes(ms[0]).value, Transcript(ms[1..]).value, TranscriptBytes(m));
    }
  }
}
