/** AES-128-CCM-8 record protection (sections 3 and 4 of RFC 6655) over an
    arbitrary AEAD. */
module RecordProtection {
  import opened Bytes
  import opened Primitives
  import opened Record

  const EXPLICIT_NONCE_LEN: nat := 8

  function Nonce(iv: FixedIv, epoch: U16, sequence: U64): (r: Result<Bytes>)
    ensures r.Ok? <==> sequence < SEQUENCE_LIMIT
    ensures r.Ok? ==> |r.value| == FIXED_IV_LEN + EXPLICIT_NONCE_LEN && r.value[..FIXED_IV_LEN] == iv
  {
    if sequence >= SEQUENCE_LIMIT then Err(Error.Crypto)
    else Ok(iv + (BigEndian(epoch, 2) + BigEndian(sequence, 6)))
  }

  /** The nonce names its record: no two (epoch, sequence) pairs share one. */
  lemma NonceInjective(iv: FixedIv, e1: U16, s1: U64, e2: U16, s2: U64)
    requires s1 < SEQUENCE_LIMIT && s2 < SEQUENCE_LIMIT
    requires Nonce(iv, e1, s1) == Nonce(iv, e2, s2)
    ensures e1 == e2 && s1 == s2
  {
    hide BigEndian;
    PowerValues();
    var n1, n2 := Nonce(iv, e1, s1).value, Nonce(iv, e2, s2).value;
    assert n1[4..6] == BigEndian(e1, 2) && n2[4..6] == BigEndian(e2, 2);
    assert n1[6..12] == BigEndian(s1, 6) && n2[6..12] == BigEndian(s2, 6);
    BigEndianInjective(e1, e2, 2);
    BigEndianInjective(s1, s2, 6);
  }

  function Protect(c: Crypto, ty: ContentType, epoch: U16, sequence: U64, key: Bytes, iv: FixedIv, plaintext: Bytes): Result<DtlsRecord> {
    if |plaintext| > 0xffff then Err(Error.Crypto) else
    var nonce :- Nonce(iv, epoch, sequence);
    var aad := AdditionalData(RecordHeader(ty, DTLS_VERSION, epoch, sequence, 0), |plaintext|);
    NewRecord(ty, epoch, sequence, nonce[FIXED_IV_LEN..] + c.seal(key, nonce, aad, plaintext))
  }

  function Open(c: Crypto, r: DtlsRecord, key: Bytes, iv: FixedIv): Result<Bytes> {
    if |r.payload| < EXPLICIT_NONCE_LEN + TAG_LEN then Err(Error.Crypto) else
    var encrypted := r.payload[EXPLICIT_NONCE_LEN..];
    var len := |encrypted| - TAG_LEN;
    if len > 0xffff then Err(Error.Crypto) else
    var nonce := iv + r.payload[..EXPLICIT_NONCE_LEN];
    match c.unseal(key, nonce, AdditionalData(r.header, len), encrypted)
    case Some(plaintext) => Ok(plaintext)
    case None => Err(Error.Crypto)
  }

  /** Protection succeeds exactly for 48-bit sequence numbers and plaintexts
      that leave room for the explicit nonce and the tag. */
  lemma ProtectSucceeds(c: Crypto, ty: ContentType, epoch: U16, sequence: U64, key: Bytes, iv: FixedIv, plaintext: Bytes)
    ensures Protect(c, ty, epoch, sequence, key, iv, plaintext).Ok?
            <==> sequence < SEQUENCE_LIMIT && |plaintext| + EXPLICIT_NONCE_LEN + TAG_LEN <= 0xffff
  {
    hide BigEndian, AdditionalData;
  }

  /** Opening inverts protecting under the same key and IV. */
  lemma OpenProtect(c: Crypto, ty: ContentType, epoch: U16, sequence: U64, key: Bytes, iv: FixedIv, plaintext: Bytes)
    requires Protect(c, ty, epoch, sequence, key, iv, plaintext).Ok?
    ensures Open(c, Protect(c, ty, epoch, sequence, key, iv, plaintext).value, key, iv) == Ok(plaintext)
  {
    hide BigEndian;
    var r := Protect(c, ty, epoch, sequence, key, iv, plaintext).value;
    var nonce := Nonce(iv, epoch, sequence).value;
    assert r.payload[..EXPLICIT_NONCE_LEN] == nonce[FIXED_IV_LEN..];
    assert nonce == iv + nonce[FIXED_IV_LEN..];
    var aad := AdditionalData(RecordHeader(ty, DTLS_VERSION, epoch, sequence, 0), |plaintext|);
    assert r.payload[EXPLICIT_NONCE_LEN..] == c.seal(key, nonce, aad, plaintext);
  }

  /** The nonce a protected record was sealed under, read off the record. */
  function RecordNonce(r: DtlsRecord, iv: FixedIv): Bytes
    requires |r.payload| >= EXPLICIT_NONCE_LEN
  {
    iv + r.payload[..EXPLICIT_NONCE_LEN]
  }

  lemma ProtectedNonce(c: Crypto, ty: ContentType, epoch: U16, sequence: U64, key: Bytes, iv: FixedIv, plaintext: Bytes)
    requires Protect(c, ty, epoch, sequence, key, iv, plaintext).Ok?
    ensures var r := Protect(c, ty, epoch, sequence, key, iv, plaintext).value;
            && r.header.contentType == ty && r.header.epoch == epoch && r.header.sequence == sequence
            && |r.payload| >= EXPLICIT_NONCE_LEN && WellFormed(r)
            && Nonce(iv, epoch, sequence) == Ok(RecordNonce(r, iv))
  {
    hide BigEndian;
    var r := Protect(c, ty, epoch, sequence, key, iv, plaintext).value;
    var nonce := Nonce(iv, epoch, sequence).value;
    assert r.payload[..EXPLICIT_NONCE_LEN] == nonce[FIXED_IV_LEN..];
    assert nonce == iv + nonce[FIXED_IV_LEN..];
  }
}
