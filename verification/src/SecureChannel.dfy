/** The two ends of a session over a network that may alter, forge, repeat,
    reorder and drop records. */
module SecureChannel {
  import opened Bytes
  import opened Primitives
  import opened Record
  import opened RecordProtection
  import opened KeySchedule
  import opened EcJpake
  import opened Session

  /** What the AEAD is asked to open for a record. */
  datatype AeadCall = AeadCall(nonce: Bytes, additional: Bytes, text: Bytes)

  function CallOf(r: DtlsRecord, iv: FixedIv): Option<AeadCall> {
    var n := |r.payload| - EXPLICIT_NONCE_LEN - TAG_LEN;
    if n < 0 || n > 0xffff then None
    else Some(AeadCall(iv + r.payload[..EXPLICIT_NONCE_LEN], AdditionalData(r.header, n), r.payload[EXPLICIT_NONCE_LEN..]))
  }

  /** The receive loop passes on only application data of epoch 1; a parsed
      sequence number has 48 bits. */
  predicate Passed(r: DtlsRecord) {
    r.header.epoch == 1 && r.header.contentType == ApplicationData && r.header.sequence < SEQUENCE_LIMIT
  }

  /** The sender sealed this very call: as application data, or as one of the
      other records it protected under the same key, its Finished. */
  ghost predicate WasSealed(c: Crypto, s: State, ps: seq<Bytes>, others: seq<DtlsRecord>, call: AeadCall) {
    || (exists i :: 0 <= i < |ps| && SealedBySend(c, s, ps, i, call))
    || (exists r :: r in others && r.header.contentType != ApplicationData && CallOf(r, s.WriteIv()) == Some(call))
  }

  ghost predicate SealedBySend(c: Crypto, s: State, ps: seq<Bytes>, i: nat, call: AeadCall)
    requires i < |ps|
  {
    SendResult(c, s, ps, i).Ok? && CallOf(SendResult(c, s, ps, i).value, s.WriteIv()) == Some(call)
  }

  /** The AEAD is not broken in this run: of the calls the arriving records make,
      it opens only those the sender sealed under that nonce and additional data. */
  ghost predicate Unforged(c: Crypto, s: State, ps: seq<Bytes>, others: seq<DtlsRecord>, rs: seq<DtlsRecord>) {
    forall k :: 0 <= k < |rs| ==>
      match CallOf(rs[k], s.WriteIv())
      case None => true
      case Some(call) => c.unseal(s.WriteKey(), call.nonce, call.additional, call.text).Some? ==> WasSealed(c, s, ps, others, call)
  }

  /** Record `k` to arrive is the record of send `i`, octet for octet but for the
      length field, which is not authenticated. */
  ghost predicate Origin(c: Crypto, s: State, ps: seq<Bytes>, rs: seq<DtlsRecord>, k: nat, i: nat)
    requires k < |rs| && i < |ps|
  {
    && SendResult(c, s, ps, i).Ok?
    && var r := SendResult(c, s, ps, i).value;
       rs[k].payload == r.payload && rs[k].header == r.header.(length := rs[k].header.length)
  }

  lemma OpenIsCall(c: Crypto, r: DtlsRecord, key: Bytes, iv: FixedIv)
    ensures Open(c, r, key, iv)
         == match CallOf(r, iv)
            case None => Err(Error.Crypto)
            case Some(call) =>
              match c.unseal(key, call.nonce, call.additional, call.text)
              case Some(p) => Ok(p)
              case None => Err(Error.Crypto)
  {
    hide AdditionalData;
  }

  /** Records that make the same call agree in all that is authenticated. */
  lemma SameCall(r1: DtlsRecord, r2: DtlsRecord, iv: FixedIv)
    requires CallOf(r1, iv).Some? && CallOf(r1, iv) == CallOf(r2, iv)
    ensures r1.payload == r2.payload && r1.header.contentType == r2.header.contentType
    ensures r1.header.sequence < SEQUENCE_LIMIT && r2.header.sequence < SEQUENCE_LIMIT
            ==> r1.header == r2.header.(length := r1.header.length)
  {
    hide AdditionalData;
    var n1, n2 := |r1.payload| - EXPLICIT_NONCE_LEN - TAG_LEN, |r2.payload| - EXPLICIT_NONCE_LEN - TAG_LEN;
    AdditionalDataInjective(r1.header, n1, r2.header, n2);
    var c1, c2 := CallOf(r1, iv).value, CallOf(r2, iv).value;
    assert r1.payload[..EXPLICIT_NONCE_LEN] == c1.nonce[FIXED_IV_LEN..] && r2.payload[..EXPLICIT_NONCE_LEN] == c2.nonce[FIXED_IV_LEN..];
    assert r1.payload == r1.payload[..EXPLICIT_NONCE_LEN] + c1.text && r2.payload == r2.payload[..EXPLICIT_NONCE_LEN] + c2.text;
  }

  /** A protected record whose epoch, sequence number, type or version was changed
      makes a call that was never sealed. */
  lemma ChangedHeaderChangesCall(r: DtlsRecord, h: RecordHeader, iv: FixedIv)
    requires CallOf(r, iv).Some? && r.header.sequence < SEQUENCE_LIMIT && h.sequence < SEQUENCE_LIMIT
    ensures CallOf(r.(header := h), iv) == CallOf(r, iv) <==> h == r.header.(length := h.length)
  {
    if CallOf(r.(header := h), iv) == CallOf(r, iv) {
      SameCall(r.(header := h), r, iv);
    }
  }

  /** Whatever arrives: what is delivered is the plaintext of a record that was
      sent, and arrived as it was sent. */
  lemma DeliveredWasSent(c: Crypto, keys: KeyMaterial, role: Role, ps: seq<Bytes>, others: seq<DtlsRecord>, rs: seq<DtlsRecord>, k: nat)
      returns (i: nat)
    requires var s := NewState(keys, role); Unforged(c, s, ps, others, rs)
    requires k < |rs| && Passed(rs[k]) && Delivered(OpenResult(c, NewState(keys, role.Peer()), rs, k))
    ensures i < |ps| && Origin(c, NewState(keys, role), ps, rs, k, i)
    ensures OpenResult(c, NewState(keys, role.Peer()), rs, k) == Ok(Some(ps[i]))
  {
    hide OpenResult, SendResult, Open, CallOf, Sends;
    var s, peer := NewState(keys, role), NewState(keys, role.Peer());
    RecordFate(c, keys, role.Peer(), rs, k);
    OpenIsCall(c, rs[k], s.WriteKey(), s.WriteIv());
    var call := CallOf(rs[k], s.WriteIv()).value;
    assert WasSealed(c, s, ps, others, call);
    if r :| r in others && r.header.contentType != ApplicationData && CallOf(r, s.WriteIv()) == Some(call) {
      SameCall(rs[k], r, s.WriteIv());
    }
    i :| 0 <= i < |ps| && SealedBySend(c, s, ps, i, call);
    var r := SendResult(c, s, ps, i).value;
    SentRecord(c, keys, role, ps, i);
    SentNumber(c, keys, role, ps, i + 1);
    SendsStep(c, s, ps, i);
    SameCall(rs[k], r, s.WriteIv());
    OpenIsCall(c, r, s.WriteKey(), s.WriteIv());
  }

  lemma SendsStep(c: Crypto, s: State, ps: seq<Bytes>, i: nat)
    requires i < |ps| && SendResult(c, s, ps, i).Ok?
    ensures Sends(c, s, ps, i + 1) == Sends(c, s, ps, i) + 1
  {
    hide SendResult;
  }

  /** Each send is delivered at most once, and each delivery has one send. */
  lemma DeliveredAtMostOnce(c: Crypto, keys: KeyMaterial, role: Role, ps: seq<Bytes>, rs: seq<DtlsRecord>, k: nat, l: nat, i: nat, j: nat)
    requires k < |rs| && l < |rs| && i < |ps| && j < |ps|
    requires var s := NewState(keys, role); Origin(c, s, ps, rs, k, i) && Origin(c, s, ps, rs, l, j)
    requires var peer := NewState(keys, role.Peer());
             Delivered(OpenResult(c, peer, rs, k)) && Delivered(OpenResult(c, peer, rs, l))
    ensures k == l <==> i == j
  {
    hide OpenResult, SendResult, Sends;
    SentRecord(c, keys, role, ps, i);
    SentRecord(c, keys, role, ps, j);
    if k == l {
      SameNumber(c, keys, role, ps, i, j);
    } else if k < l && i == j {
      DeliveredOnce(c, keys, role.Peer(), rs, k, l);
    } else if l < k && i == j {
      DeliveredOnce(c, keys, role.Peer(), rs, l, k);
    }
  }
}
