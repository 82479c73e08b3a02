/** An established session: application data protected under one write key and
    opened through the replay window. */
module Session {
  import opened Bytes
  import opened Bits
  import opened Primitives
  import opened Record
  import opened RecordProtection
  import opened ReplayWindow
  import opened KeySchedule
  import opened EcJpake

  datatype State = State(keys: KeyMaterial, role: Role, next: U64, window: Window) {
    function WriteKey(): Bytes { if role.Client? then keys.keyBlock.clientWriteKey else keys.keyBlock.serverWriteKey }
    function WriteIv(): FixedIv { if role.Client? then keys.keyBlock.clientWriteIv else keys.keyBlock.serverWriteIv }
    function ReadKey(): Bytes { if role.Client? then keys.keyBlock.serverWriteKey else keys.keyBlock.clientWriteKey }
    function ReadIv(): FixedIv { if role.Client? then keys.keyBlock.serverWriteIv else keys.keyBlock.clientWriteIv }
  }

  /** Sequence number 0 of epoch 1 was used by Finished. */
  function NewState(keys: KeyMaterial, role: Role): State {
    State(keys, role, 1, FRESH)
  }

  function ProtectData(c: Crypto, s: State, plaintext: Bytes): (State, Result<DtlsRecord>) {
    match Protect(c, ApplicationData, 1, s.next, s.WriteKey(), s.WriteIv(), plaintext)
    case Ok(r) => (s.(next := (s.next + 1) % 0x1_0000_0000_0000_0000), Ok(r))
    case Err(e) => (s, Err(e))
  }

  function OpenData(c: Crypto, s: State, r: DtlsRecord): (State, Result<Option<Bytes>>) {
    if HasSeen(s.window, r.header.sequence) then (s, Ok(None)) else
    match Open(c, r, s.ReadKey(), s.ReadIv())
    case Ok(plaintext) => (s.(window := MarkSeen(s.window, r.header.sequence)), Ok(Some(plaintext)))
    case Err(e) => (s, Err(e))
  }

  class SessionState {
    const keys: KeyMaterial
    const role: Role
    var nextApplicationSequence: U64
    const applicationReplay: DtlsReplayWindow

    ghost function View(): State
      reads this, applicationReplay
    {
      State(keys, role, nextApplicationSequence, applicationReplay.View())
    }

    constructor (keyMaterial: KeyMaterial, sessionRole: Role)
      ensures View() == NewState(keyMaterial, sessionRole) && fresh(applicationReplay)
    {
      keys, role, nextApplicationSequence := keyMaterial, sessionRole, 1;
      applicationReplay := new DtlsReplayWindow();
    }

    method ProtectApplicationData(c: Crypto, plaintext: Bytes) returns (r: Result<DtlsRecord>)
      modifies this`nextApplicationSequence
      ensures (View(), r) == ProtectData(c, old(View()), plaintext)
    {
      hide Protect;
      var key, iv := keys.keyBlock.serverWriteKey, keys.keyBlock.serverWriteIv;
      if role.Client? {
        key, iv := keys.keyBlock.clientWriteKey, keys.keyBlock.clientWriteIv;
      }
      r := Protect(c, ApplicationData, 1, nextApplicationSequence, key, iv, plaintext);
      if r.Ok? {
        nextApplicationSequence := (nextApplicationSequence + 1) % 0x1_0000_0000_0000_0000;
      }
    }

    method OpenApplicationData(c: Crypto, record: DtlsRecord) returns (r: Result<Option<Bytes>>)
      modifies applicationReplay
      ensures (View(), r) == OpenData(c, old(View()), record)
    {
      hide Open, MarkSeen, HasSeen;
      var seen := applicationReplay.Has(record.header.sequence);
      if seen {
        return Ok(None);
      }
      var key, iv := keys.keyBlock.clientWriteKey, keys.keyBlock.clientWriteIv;
      if role.Client? {
        key, iv := keys.keyBlock.serverWriteKey, keys.keyBlock.serverWriteIv;
      }
      var plaintext := Open(c, record, key, iv);
      if plaintext.Err? {
        return Err(plaintext.error);
      }
      applicationReplay.Mark(record.header.sequence);
      return Ok(Some(plaintext.value));
    }
  }

  // ----- Sending runs

  function SendState(c: Crypto, s: State, ps: seq<Bytes>): State {
    if ps == [] then s else ProtectData(c, SendState(c, s, ps[..|ps| - 1]), ps[|ps| - 1]).0
  }

  function SendResult(c: Crypto, s: State, ps: seq<Bytes>, k: nat): Result<DtlsRecord>
    requires k < |ps|
  {
    ProtectData(c, SendState(c, s, ps[..k]), ps[k]).1
  }

  lemma ProtectCounts(c: Crypto, s: State, p: Bytes)
    requires s.next <= SEQUENCE_LIMIT
    ensures var (after, r) := ProtectData(c, s, p);
            && after.next == s.next + (if r.Ok? then 1 else 0) && after.next <= SEQUENCE_LIMIT
            && after == s.(next := after.next)
            && (r.Ok? ==> s.next < SEQUENCE_LIMIT && r.value.header.sequence == s.next
                          && |r.value.payload| >= EXPLICIT_NONCE_LEN
                          && Nonce(s.WriteIv(), 1, s.next) == Ok(RecordNonce(r.value, s.WriteIv())))
  {
    hide Protect, Nonce;
    ProtectSucceeds(c, ApplicationData, 1, s.next, s.WriteKey(), s.WriteIv(), p);
    if Protect(c, ApplicationData, 1, s.next, s.WriteKey(), s.WriteIv(), p).Ok? {
      ProtectedNonce(c, ApplicationData, 1, s.next, s.WriteKey(), s.WriteIv(), p);
    }
  }

  lemma {:induction false} SendStateShape(c: Crypto, s: State, ps: seq<Bytes>)
    requires s.next <= SEQUENCE_LIMIT
    ensures var after := SendState(c, s, ps);
            s.next <= after.next <= SEQUENCE_LIMIT && after == s.(next := after.next)
  {
    if ps != [] {
      hide ProtectData;
      var n := |ps| - 1;
      SendStateShape(c, s, ps[..n]);
      ProtectCounts(c, SendState(c, s, ps[..n]), ps[n]);
    }
  }

  /** The counter only grows, so a later record has a larger number. */
  lemma {:induction false} LaterIsLarger(c: Crypto, s: State, ps: seq<Bytes>, i: nat, j: nat)
    requires s.next <= SEQUENCE_LIMIT && i < j <= |ps|
    requires SendResult(c, s, ps, i).Ok?
    ensures SendState(c, s, ps[..i]).next < SendState(c, s, ps[..j]).next
    decreases j
  {
    hide ProtectData;
    SendStateShape(c, s, ps[..j - 1]);
    ProtectCounts(c, SendState(c, s, ps[..j - 1]), ps[j - 1]);
    assert ps[..j][..j - 1] == ps[..j - 1];
    if i < j - 1 {
      LaterIsLarger(c, s, ps, i, j - 1);
    }
  }

  /** No record of a session reuses the nonce (1, 0) of the Finished before it. */
  lemma FinishedNonceUnused(c: Crypto, keys: KeyMaterial, role: Role, ps: seq<Bytes>, i: nat)
    requires i < |ps| && SendResult(c, NewState(keys, role), ps, i).Ok?
    ensures var s := NewState(keys, role);
            var r := SendResult(c, s, ps, i).value;
            |r.payload| >= EXPLICIT_NONCE_LEN && Ok(RecordNonce(r, s.WriteIv())) != Nonce(s.WriteIv(), 1, 0)
  {
    hide ProtectData, Nonce, RecordNonce;
    var s := NewState(keys, role);
    SendStateShape(c, s, ps[..i]);
    var si := SendState(c, s, ps[..i]);
    ProtectCounts(c, si, ps[i]);
    DistinctNonces(s.WriteIv(), 0, si.next);
  }

  /** No nonce is used twice under the write key of one session, counting the
      Finished record at (1, 0) that preceded the application data. */
  lemma NoncesDistinct(c: Crypto, keys: KeyMaterial, role: Role, ps: seq<Bytes>, i: nat, j: nat)
    requires i < j < |ps|
    requires var s := NewState(keys, role); SendResult(c, s, ps, i).Ok? && SendResult(c, s, ps, j).Ok?
    ensures var s := NewState(keys, role);
            var ri, rj := SendResult(c, s, ps, i).value, SendResult(c, s, ps, j).value;
            && |ri.payload| >= EXPLICIT_NONCE_LEN && |rj.payload| >= EXPLICIT_NONCE_LEN
            && RecordNonce(ri, s.WriteIv()) != RecordNonce(rj, s.WriteIv())
            && Ok(RecordNonce(ri, s.WriteIv())) != Nonce(s.WriteIv(), 1, 0)
            && Ok(RecordNonce(rj, s.WriteIv())) != Nonce(s.WriteIv(), 1, 0)
  {
    hide ProtectData, Nonce, RecordNonce;
    var s := NewState(keys, role);
    var iv := s.WriteIv();
    SendStateShape(c, s, ps[..i]);
    SendStateShape(c, s, ps[..j]);
    var si, sj := SendState(c, s, ps[..i]), SendState(c, s, ps[..j]);
    ProtectCounts(c, si, ps[i]);
    ProtectCounts(c, sj, ps[j]);
    LaterIsLarger(c, s, ps, i, j);
    DistinctNonces(iv, si.next, sj.next);
    FinishedNonceUnused(c, keys, role, ps, i);
    FinishedNonceUnused(c, keys, role, ps, j);
  }

  lemma DistinctNonces(iv: FixedIv, s1: U64, s2: U64)
    requires s1 < s2 < SEQUENCE_LIMIT
    ensures Nonce(iv, 1, s1) != Nonce(iv, 1, s2)
  {
    hide Nonce;
    if Nonce(iv, 1, s1) == Nonce(iv, 1, s2) {
      NonceInjective(iv, 1, s1, 1, s2);
      assert false;
    }
  }

  /** Once the counter reaches 2^48 nothing can be sent any more. */
  lemma {:induction false} ExhaustedForever(c: Crypto, s: State, ps: seq<Bytes>, k: nat)
    requires s.next == SEQUENCE_LIMIT && k < |ps|
    ensures SendState(c, s, ps[..k]) == s && SendResult(c, s, ps, k).Err?
  {
    hide Protect;
    ProtectSucceeds(c, ApplicationData, 1, s.next, s.WriteKey(), s.WriteIv(), ps[k]);
    if k > 0 {
      ExhaustedForever(c, s, ps, k - 1);
      assert ps[..k][..k - 1] == ps[..k - 1];
    }
  }

  // ----- Receiving runs

  function OpenState(c: Crypto, s: State, rs: seq<DtlsRecord>): State {
    if rs == [] then s else OpenData(c, OpenState(c, s, rs[..|rs| - 1]), rs[|rs| - 1]).0
  }

  function OpenResult(c: Crypto, s: State, rs: seq<DtlsRecord>, k: nat): Result<Option<Bytes>>
    requires k < |rs|
  {
    OpenData(c, OpenState(c, s, rs[..k]), rs[k]).1
  }

  predicate Delivered(r: Result<Option<Bytes>>) {
    r.Ok? && r.value.Some?
  }

  /** The sequence numbers delivered by the first `k` records. */
  ghost function DeliveredNumbers(c: Crypto, s: State, rs: seq<DtlsRecord>, k: nat): set<int>
    requires k <= |rs|
  {
    set i | 0 <= i < k && Delivered(OpenResult(c, s, rs, i)) :: rs[i].header.sequence
  }

  lemma DeliveredStep(c: Crypto, s: State, rs: seq<DtlsRecord>, k: nat)
    requires k < |rs|
    ensures DeliveredNumbers(c, s, rs, k + 1)
         == DeliveredNumbers(c, s, rs, k) + if Delivered(OpenResult(c, s, rs, k)) then {rs[k].header.sequence} else {}
  {
    hide OpenResult;
  }

  /** The window after a run stands for exactly the delivered numbers. */
  lemma {:induction false} WindowIsDelivered(c: Crypto, keys: KeyMaterial, role: Role, rs: seq<DtlsRecord>, k: nat)
    requires k <= |rs|
    ensures var s := NewState(keys, role);
            var after := OpenState(c, s, rs[..k]);
            after == s.(window := after.window) && Represents(after.window, DeliveredNumbers(c, s, rs, k))
  {
    var s := NewState(keys, role);
    if k == 0 {
      assert DeliveredNumbers(c, s, rs, 0) == {};
    } else {
      hide Represents, Open, HasSeen, MarkSeen, DeliveredNumbers;
      WindowIsDelivered(c, keys, role, rs, k - 1);
      assert rs[..k][..k - 1] == rs[..k - 1];
      DeliveredStep(c, s, rs, k - 1);
      var numbers := DeliveredNumbers(c, s, rs, k - 1);
      assert numbers + {} == numbers;
      MarkSeenRepresents(OpenState(c, s, rs[..k - 1]).window, numbers, rs[k - 1].header.sequence);
    }
  }

  /** The fate of every record in every run: it is delivered exactly when it
      authenticates, was not delivered before, and is less than 64 behind every
      delivered number; otherwise the session is unchanged. */
  lemma RecordFate(c: Crypto, keys: KeyMaterial, role: Role, rs: seq<DtlsRecord>, k: nat)
    requires k < |rs|
    ensures var s := NewState(keys, role);
            var n, done := rs[k].header.sequence, DeliveredNumbers(c, s, rs, k);
            var plain := Open(c, rs[k], s.ReadKey(), s.ReadIv());
            && (Delivered(OpenResult(c, s, rs, k))
                <==> plain.Ok? && n !in done && forall m :: m in done ==> m - n < WORD_BITS)
            && (Delivered(OpenResult(c, s, rs, k)) ==> OpenResult(c, s, rs, k).value == Some(plain.value))
            && (!Delivered(OpenResult(c, s, rs, k)) ==> OpenState(c, s, rs[..k + 1]) == OpenState(c, s, rs[..k]))
  {
    hide Open, MarkSeen, HasSeen;
    var s := NewState(keys, role);
    WindowIsDelivered(c, keys, role, rs, k);
    var w := OpenState(c, s, rs[..k]).window;
    HasSeenMeans(w, DeliveredNumbers(c, s, rs, k), rs[k].header.sequence);
    assert rs[..k + 1][..k] == rs[..k];
  }

  /** No sequence number is delivered twice. */
  lemma DeliveredOnce(c: Crypto, keys: KeyMaterial, role: Role, rs: seq<DtlsRecord>, i: nat, j: nat)
    requires i < j < |rs|
    requires var s := NewState(keys, role); Delivered(OpenResult(c, s, rs, i)) && Delivered(OpenResult(c, s, rs, j))
    ensures rs[i].header.sequence != rs[j].header.sequence
  {
    hide OpenResult, Open;
    RecordFate(c, keys, role, rs, j);
  }

  // ----- Both directions together

  /** How many of the first `i` sends succeeded. */
  function Sends(c: Crypto, s: State, ps: seq<Bytes>, i: nat): nat
    requires i <= |ps|
  {
    if i == 0 then 0 else Sends(c, s, ps, i - 1) + if SendResult(c, s, ps, i - 1).Ok? then 1 else 0
  }

  /** Successful sends carry consecutive numbers, whatever failed between them. */
  lemma {:induction false} SentNumber(c: Crypto, keys: KeyMaterial, role: Role, ps: seq<Bytes>, i: nat)
    requires i <= |ps|
    ensures Sends(c, NewState(keys, role), ps, i) + 1 <= SEQUENCE_LIMIT
    ensures var s := NewState(keys, role); SendState(c, s, ps[..i]) == s.(next := Sends(c, s, ps, i) + 1)
  {
    hide ProtectData;
    var s := NewState(keys, role);
    if i > 0 {
      SentNumber(c, keys, role, ps, i - 1);
      assert ps[..i][..i - 1] == ps[..i - 1];
      ProtectCounts(c, SendState(c, s, ps[..i - 1]), ps[i - 1]);
    }
  }

  lemma SentRecord(c: Crypto, keys: KeyMaterial, role: Role, ps: seq<Bytes>, i: nat)
    requires i < |ps| && SendResult(c, NewState(keys, role), ps, i).Ok?
    ensures var s := NewState(keys, role);
            var r := SendResult(c, s, ps, i).value;
            r.header.sequence == Sends(c, s, ps, i) + 1 && Open(c, r, s.WriteKey(), s.WriteIv()) == Ok(ps[i])
  {
    hide Protect, Open, Sends;
    var s := NewState(keys, role);
    SentNumber(c, keys, role, ps, i);
    ProtectCounts(c, SendState(c, s, ps[..i]), ps[i]);
    OpenProtect(c, ApplicationData, 1, Sends(c, s, ps, i) + 1, s.WriteKey(), s.WriteIv(), ps[i]);
  }

  /** Two successful sends with the same number are the same send. */
  lemma SameNumber(c: Crypto, keys: KeyMaterial, role: Role, ps: seq<Bytes>, i: nat, j: nat)
    requires i < |ps| && j < |ps|
    requires var s := NewState(keys, role);
             SendResult(c, s, ps, i).Ok? && SendResult(c, s, ps, j).Ok? && Sends(c, s, ps, i) == Sends(c, s, ps, j)
    ensures i == j
  {
    hide SendResult, Sends;
    var s := NewState(keys, role);
    SentNumber(c, keys, role, ps, i);
    SentNumber(c, keys, role, ps, j);
    if i < j {
      LaterIsLarger(c, s, ps, i, j);
    } else if j < i {
      LaterIsLarger(c, s, ps, j, i);
    }
  }

  /** 64 or more successful sends behind an earlier arrival. */
  ghost predicate TooOld(c: Crypto, s: State, ps: seq<Bytes>, arrivals: seq<nat>, k: nat)
    requires k < |arrivals| && forall j :: 0 <= j < |arrivals| ==> arrivals[j] < |ps|
  {
    exists j :: 0 <= j < k && Sends(c, s, ps, arrivals[j]) - Sends(c, s, ps, arrivals[k]) >= WORD_BITS
  }

  /** The records that arrive: `arrivals[j]` is the send that made the j-th one. */
  ghost predicate Arrived(c: Crypto, s: State, ps: seq<Bytes>, arrivals: seq<nat>, rs: seq<DtlsRecord>) {
    && |rs| == |arrivals|
    && forall j :: 0 <= j < |arrivals| ==>
         arrivals[j] < |ps| && SendResult(c, s, ps, arrivals[j]) == Ok(rs[j])
  }

  lemma ArrivedRecord(c: Crypto, keys: KeyMaterial, role: Role, ps: seq<Bytes>, arrivals: seq<nat>, rs: seq<DtlsRecord>, j: nat)
    requires Arrived(c, NewState(keys, role), ps, arrivals, rs) && j < |rs|
    ensures var peer := NewState(keys, role.Peer());
            && rs[j].header.sequence == Sends(c, NewState(keys, role), ps, arrivals[j]) + 1
            && Open(c, rs[j], peer.ReadKey(), peer.ReadIv()) == Ok(ps[arrivals[j]])
  {
    hide SendResult, SendState, Open, Sends;
    SentRecord(c, keys, role, ps, arrivals[j]);
  }

  /** What arrived before is delivered, or far behind something delivered. */
  lemma ArrivalSettled(c: Crypto, keys: KeyMaterial, role: Role, ps: seq<Bytes>, arrivals: seq<nat>, rs: seq<DtlsRecord>, j: nat, k: nat)
    requires Arrived(c, NewState(keys, role), ps, arrivals, rs) && j < k <= |rs|
    ensures var done, n := DeliveredNumbers(c, NewState(keys, role.Peer()), rs, k), rs[j].header.sequence;
            n in done || exists m :: m in done && m - n >= WORD_BITS
  {
    hide SendResult, OpenResult, Open, Sends;
    var peer := NewState(keys, role.Peer());
    ArrivedRecord(c, keys, role, ps, arrivals, rs, j);
    RecordFate(c, keys, role.Peer(), rs, j);
    assert DeliveredNumbers(c, peer, rs, j) <= DeliveredNumbers(c, peer, rs, k);
  }

  /** End to end, whatever sends fail and whatever the network repeats, reorders
      or drops: a record that arrives is delivered as the octets that were sent,
      unless it arrived before or lies 64 or more behind an earlier arrival. */
  lemma ArrivalFate(c: Crypto, keys: KeyMaterial, role: Role, ps: seq<Bytes>, arrivals: seq<nat>, rs: seq<DtlsRecord>, k: nat)
    requires Arrived(c, NewState(keys, role), ps, arrivals, rs) && k < |rs|
    ensures OpenResult(c, NewState(keys, role.Peer()), rs, k)
         == Ok(if arrivals[k] in arrivals[..k] || TooOld(c, NewState(keys, role), ps, arrivals, k) then None
               else Some(ps[arrivals[k]]))
  {
    hide OpenResult, Open, Sends, TooOld, Arrived;
    var peer := NewState(keys, role.Peer());
    ArrivedRecord(c, keys, role, ps, arrivals, rs, k);
    RecordFate(c, keys, role.Peer(), rs, k);
    WindowIsDelivered(c, keys, role.Peer(), rs, k);
    NeverFails(c, peer, rs, k);
    ArrivalsDecide(c, keys, role, ps, arrivals, rs, k);
  }

  lemma ArrivalsDecide(c: Crypto, keys: KeyMaterial, role: Role, ps: seq<Bytes>, arrivals: seq<nat>, rs: seq<DtlsRecord>, k: nat)
    requires Arrived(c, NewState(keys, role), ps, arrivals, rs) && k < |rs|
    ensures var n, done := rs[k].header.sequence, DeliveredNumbers(c, NewState(keys, role.Peer()), rs, k);
            n in done || (exists m :: m in done && m - n >= WORD_BITS)
            <==> arrivals[k] in arrivals[..k] || TooOld(c, NewState(keys, role), ps, arrivals, k)
  {
    hide OpenResult, SendResult, Open, Sends, DeliveredNumbers;
    var s, done := NewState(keys, role), DeliveredNumbers(c, NewState(keys, role.Peer()), rs, k);
    var n := rs[k].header.sequence;
    ArrivedRecord(c, keys, role, ps, arrivals, rs, k);
    if arrivals[k] in arrivals[..k] {
      var j :| 0 <= j < k && arrivals[j] == arrivals[k];
      ArrivalSettled(c, keys, role, ps, arrivals, rs, j, k);
    } else if TooOld(c, s, ps, arrivals, k) {
      var j :| 0 <= j < k && Sends(c, s, ps, arrivals[j]) - Sends(c, s, ps, arrivals[k]) >= WORD_BITS;
      ArrivedRecord(c, keys, role, ps, arrivals, rs, j);
      ArrivalSettled(c, keys, role, ps, arrivals, rs, j, k);
    }
    if m :| m in done && (m == n || m - n >= WORD_BITS) {
      var j := DeliveredArrived(c, keys, role, rs, k, m);
      ArrivedRecord(c, keys, role, ps, arrivals, rs, j);
      if m == n {
        SameNumber(c, keys, role, ps, arrivals[j], arrivals[k]);
        assert arrivals[..k][j] == arrivals[k];
      }
    }
  }

  lemma DeliveredArrived(c: Crypto, keys: KeyMaterial, role: Role, rs: seq<DtlsRecord>, k: nat, m: int) returns (j: nat)
    requires k <= |rs| && m in DeliveredNumbers(c, NewState(keys, role.Peer()), rs, k)
    ensures j < k && rs[j].header.sequence == m
  {
    hide OpenResult, Open;
    j :| 0 <= j < k && rs[j].header.sequence == m;
  }

  lemma NeverFails(c: Crypto, s: State, rs: seq<DtlsRecord>, k: nat)
    requires k < |rs| && Open(c, rs[k], s.ReadKey(), s.ReadIv()).Ok?
    requires OpenState(c, s, rs[..k]) == s.(window := OpenState(c, s, rs[..k]).window)
    ensures OpenResult(c, s, rs, k).Ok?
  {
    hide Open, MarkSeen, HasSeen;
  }
}
