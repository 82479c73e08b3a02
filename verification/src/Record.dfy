/** DTLS record framing. */
module Record {
  import opened Bytes

  type U64 = x: int | 0 <= x < 0x1_0000_0000_0000_0000

  const HEADER_LEN: nat := 13
  const SEQUENCE_LIMIT: nat := 0x1_0000_0000_0000
  const DTLS_VERSION: U16 := 0xfefd

  datatype ContentType = ChangeCipherSpec | Alert | Handshake | ApplicationData {
    function Code(): Byte {
      match this
      case ChangeCipherSpec => 20
      case Alert => 21
      case Handshake => 22
      case ApplicationData => 23
    }
  }

  function ContentTypeOf(code: Byte): (r: Result<ContentType>)
    ensures r.Ok? ==> r.value.Code() == code
    ensures forall t: ContentType :: t.Code() == code ==> r == Ok(t)
  {
    match code
    case 20 => Ok(ChangeCipherSpec)
    case 21 => Ok(Alert)
    case 22 => Ok(Handshake)
    case 23 => Ok(ApplicationData)
    case _ => Err(Error.Crypto)
  }

  datatype RecordHeader = RecordHeader(contentType: ContentType, version: U16, epoch: U16, sequence: U64, length: U16)

  datatype DtlsRecord = DtlsRecord(header: RecordHeader, payload: Bytes)

  /** Sequence numbers are truncated to 48 bits on the wire. */
  function EncodeHeader(h: RecordHeader): (b: Bytes)
    ensures |b| == HEADER_LEN
  {
    [h.contentType.Code()] + BigEndian(h.version, 2) + BigEndian(h.epoch, 2) + BigEndian(h.sequence, 6)
    + BigEndian(h.length, 2)
  }

  function ParseHeader(b: Bytes): (r: Result<RecordHeader>)
    ensures r.Ok? ==> |b| >= HEADER_LEN && r.value.sequence < SEQUENCE_LIMIT
  {
    PowerValues();
    if |b| < HEADER_LEN then Err(Error.Crypto) else
    var ty :- ContentTypeOf(b[0]);
    Ok(RecordHeader(ty, FromBigEndian(b[1..3]), FromBigEndian(b[3..5]), FromBigEndian(b[5..11]), FromBigEndian(b[11..13])))
  }

  /** Additional authenticated data of the AEAD record ciphers. */
  function AdditionalData(h: RecordHeader, plaintextLen: U16): (b: Bytes)
    ensures |b| == HEADER_LEN
  {
    BigEndian(h.epoch, 2) + BigEndian(h.sequence, 6) + [h.contentType.Code()] + BigEndian(h.version, 2)
    + BigEndian(plaintextLen, 2)
  }

  /** The additional data is the record header in another order: epoch and
      sequence number first, and the length that of the plaintext. */
  lemma AdditionalDataIsHeader(h: RecordHeader, plaintextLen: U16)
    ensures var w := EncodeHeader(h.(length := plaintextLen)); AdditionalData(h, plaintextLen) == w[3..11] + w[..3] + w[11..]
  {
    hide BigEndian;
    var w := EncodeHeader(h.(length := plaintextLen));
    assert w[3..11] == BigEndian(h.epoch, 2) + BigEndian(h.sequence, 6);
    assert w[..3] == [h.contentType.Code()] + BigEndian(h.version, 2);
    assert w[11..] == BigEndian(plaintextLen, 2);
  }

  /** It determines everything it is made of. */
  lemma AdditionalDataInjective(h1: RecordHeader, n1: U16, h2: RecordHeader, n2: U16)
    requires AdditionalData(h1, n1) == AdditionalData(h2, n2)
    ensures h1.epoch == h2.epoch && h1.contentType == h2.contentType && h1.version == h2.version && n1 == n2
    ensures h1.sequence < SEQUENCE_LIMIT && h2.sequence < SEQUENCE_LIMIT ==> h1.sequence == h2.sequence
  {
    hide BigEndian;
    PowerValues();
    DataParts(h1, n1);
    DataParts(h2, n2);
    BigEndianInjective(h1.epoch, h2.epoch, 2);
    BigEndianInjective(h1.version, h2.version, 2);
    BigEndianInjective(n1, n2, 2);
    if h1.sequence < SEQUENCE_LIMIT && h2.sequence < SEQUENCE_LIMIT {
      BigEndianInjective(h1.sequence, h2.sequence, 6);
    }
  }

  lemma DataParts(h: RecordHeader, n: U16)
    ensures var a := AdditionalData(h, n);
            && a[..2] == BigEndian(h.epoch, 2) && a[2..8] == BigEndian(h.sequence, 6) && a[8] == h.contentType.Code()
            && a[9..11] == BigEndian(h.version, 2) && a[11..] == BigEndian(n, 2)
  {
    hide BigEndian;
  }

  function NewRecord(ty: ContentType, epoch: U16, sequence: U64, payload: Bytes): Result<DtlsRecord> {
    if |payload| > 0xffff then Err(Error.Crypto)
    else Ok(DtlsRecord(RecordHeader(ty, DTLS_VERSION, epoch, sequence, |payload|), payload))
  }

  function EncodeRecord(r: DtlsRecord): Result<Bytes> {
    if |r.payload| != r.header.length then Err(Error.Crypto) else Ok(EncodeHeader(r.header) + r.payload)
  }

  function TakeRecord(s: Bytes): (r: Result<(DtlsRecord, Bytes)>)
    ensures r.Ok? ==> |r.value.1| < |s| && |r.value.0.payload| == r.value.0.header.length
    ensures r.Ok? ==> r.value.0.header.sequence < SEQUENCE_LIMIT
  {
    var h :- ParseHeader(s);
    var end := HEADER_LEN + h.length;
    if |s| < end then Err(Error.Crypto) else Ok((DtlsRecord(h, s[HEADER_LEN..end]), s[end..]))
  }

  /** All records of one datagram. */
  function ParseDatagram(s: Bytes): Result<seq<DtlsRecord>>
    decreases |s|
  {
    if s == [] then Ok([]) else
    var (r, rest) :- TakeRecord(s);
    Prefixed([r], ParseDatagram(rest))
  }

  function EncodeDatagram(rs: seq<DtlsRecord>): Result<Bytes> {
    if rs == [] then Ok([]) else
    var first :- EncodeRecord(rs[0]);
    Prefixed(first, EncodeDatagram(rs[1..]))
  }

  lemma HeaderFields(h: RecordHeader)
    ensures var b := EncodeHeader(h);
            && b[0] == h.contentType.Code() && b[1..3] == BigEndian(h.version, 2) && b[3..5] == BigEndian(h.epoch, 2)
            && b[5..11] == BigEndian(h.sequence, 6) && b[11..13] == BigEndian(h.length, 2)
  {
    hide BigEndian;
  }

  lemma HeaderRoundTrip(h: RecordHeader, rest: Bytes)
    requires h.sequence < SEQUENCE_LIMIT
    ensures ParseHeader(EncodeHeader(h) + rest) == Ok(h)
  {
    hide BigEndian, FromBigEndian, EncodeHeader;
    PowerValues();
    HeaderFields(h);
    var b := EncodeHeader(h);
    var s := b + rest;
    assert s[1..3] == b[1..3] && s[3..5] == b[3..5] && s[5..11] == b[5..11] && s[11..13] == b[11..13];
    BigEndianRoundTrip(h.version, 2);
    BigEndianRoundTrip(h.epoch, 2);
    BigEndianRoundTrip(h.sequence, 6);
    BigEndianRoundTrip(h.length, 2);
  }

  lemma HeaderInverse(s: Bytes)
    requires ParseHeader(s).Ok?
    ensures EncodeHeader(ParseHeader(s).value) == s[..HEADER_LEN]
  {
    hide BigEndian, FromBigEndian;
    FromBigEndianRoundTrip(s[1..3]);
    FromBigEndianRoundTrip(s[3..5]);
    FromBigEndianRoundTrip(s[5..11]);
    FromBigEndianRoundTrip(s[11..13]);
    assert s[..HEADER_LEN] == [s[0]] + s[1..3] + s[3..5] + s[5..11] + s[11..13];
  }

  lemma TakeRecordAppend(r: DtlsRecord, rest: Bytes)
    requires |r.payload| == r.header.length && r.header.sequence < SEQUENCE_LIMIT
    ensures TakeRecord(EncodeHeader(r.header) + r.payload + rest) == Ok((r, rest))
  {
    hide EncodeHeader, ParseHeader;
    var h := EncodeHeader(r.header);
    var s := h + r.payload + rest;
    assert s == h + (r.payload + rest);
    HeaderRoundTrip(r.header, r.payload + rest);
    assert s[HEADER_LEN..HEADER_LEN + |r.payload|] == r.payload;
    assert s[HEADER_LEN + |r.payload|..] == rest;
  }

  /** Records that `EncodeRecord` writes without losing anything. */
  ghost predicate WellFormed(r: DtlsRecord) {
    |r.payload| == r.header.length && r.header.sequence < SEQUENCE_LIMIT
  }

  lemma {:induction false} DatagramRoundTrip(rs: seq<DtlsRecord>)
    requires forall r :: r in rs ==> WellFormed(r)
    ensures EncodeDatagram(rs).Ok? && ParseDatagram(EncodeDatagram(rs).value) == Ok(rs)
  {
    if rs != [] {
      hide EncodeHeader, TakeRecord;
      assert WellFormed(rs[0]);
      DatagramRoundTrip(rs[1..]);
      var rest := EncodeDatagram(rs[1..]).value;
      TakeRecordAppend(rs[0], rest);
      assert EncodeDatagram(rs).value == EncodeHeader(rs[0].header) + rs[0].payload + rest;
      assert rs == [rs[0]] + rs[1..];
    }
  }

  lemma {:induction false} DatagramInverse(s: Bytes)
    requires ParseDatagram(s).Ok?
    ensures forall r :: r in ParseDatagram(s).value ==> WellFormed(r)
    ensures EncodeDatagram(ParseDatagram(s).value) == Ok(s)
    decreases |s|
  {
    if s != [] {
      var (r, rest) := TakeRecord(s).value;
      TakeRecordInverse(s);
      DatagramInverse(rest);
      var rs := ParseDatagram(s).value;
      assert rs[0] == r && rs[1..] == ParseDatagram(rest).value;
    }
  }

  lemma TakeRecordInverse(s: Bytes)
    requires TakeRecord(s).Ok?
    ensures var (r, rest) := TakeRecord(s).value;
            WellFormed(r) && EncodeRecord(r) == Ok(EncodeHeader(r.header) + r.payload)
            && EncodeHeader(r.header) + r.payload + rest == s
  {
    HeaderInverse(s);
    hide EncodeHeader, ParseHeader;
  }

  /** The source's loop over the shrinking datagram. */
  method ReadDatagram(datagram: Bytes) returns (r: Result<seq<DtlsRecord>>)
    ensures r == ParseDatagram(datagram)
  {
    hide EncodeHeader, ParseHeader;
    var bytes := datagram;
    var records: seq<DtlsRecord> := [];
    PrefixedEmpty(ParseDatagram(datagram));
    while bytes != []
      invariant ParseDatagram(datagram) == Prefixed(records, ParseDatagram(bytes))
      decreases |bytes|
    {
      var header := ParseHeader(bytes);
      if header.Err? {
        return Err(header.error);
      }
      var end := HEADER_LEN + header.value.length;
      if |bytes| < end {
        return Err(Error.Crypto);
      }
      var record := DtlsRecord(header.value, bytes[HEADER_LEN..end]);
      PrefixedStep(records, [record], ParseDatagram(bytes[end..]));
      records := records + [record];
      bytes := bytes[end..];
    }
    PrefixedEmpty(Ok(records));
    return Ok(records);
  }
}
