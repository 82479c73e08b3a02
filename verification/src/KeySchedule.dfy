/** The TLS 1.2 key schedule (section 5 of RFC 5246) over an arbitrary HMAC. */
module KeySchedule {
  import opened Bytes
  import opened Primitives
  import opened EcJpake

  const LABEL_MASTER_SECRET: Bytes := [0x6d, 0x61, 0x73, 0x74, 0x65, 0x72, 0x20, 0x73, 0x65, 0x63, 0x72, 0x65, 0x74]
  const LABEL_KEY_EXPANSION: Bytes := [0x6b, 0x65, 0x79, 0x20, 0x65, 0x78, 0x70, 0x61, 0x6e, 0x73, 0x69, 0x6f, 0x6e]
  const LABEL_CLIENT_FINISHED: Bytes := [0x63, 0x6c, 0x69, 0x65, 0x6e, 0x74, 0x20, 0x66, 0x69, 0x6e, 0x69, 0x73, 0x68, 0x65, 0x64]
  const LABEL_SERVER_FINISHED: Bytes := [0x73, 0x65, 0x72, 0x76, 0x65, 0x72, 0x20, 0x66, 0x69, 0x6e, 0x69, 0x73, 0x68, 0x65, 0x64]

  datatype KeyBlock = KeyBlock(clientWriteKey: Bytes, serverWriteKey: Bytes, clientWriteIv: FixedIv, serverWriteIv: FixedIv)

  datatype KeyMaterial = KeyMaterial(masterSecret: Bytes, keyBlock: KeyBlock)

  /** A(i + 1) of the P_hash chain. */
  function Chain(c: Crypto, secret: Bytes, seed: Bytes, i: nat): (a: Bytes)
    ensures |a| == DIGEST_LEN
  {
    if i == 0 then c.hmac(secret, seed) else c.hmac(secret, Chain(c, secret, seed, i - 1))
  }

  /** The first `n` blocks of P_hash. */
  function Blocks(c: Crypto, secret: Bytes, seed: Bytes, n: nat): (b: Bytes)
    ensures |b| == DIGEST_LEN * n
  {
    if n == 0 then [] else Blocks(c, secret, seed, n - 1) + c.hmac(secret, Chain(c, secret, seed, n - 1) + seed)
  }

  function Prf(c: Crypto, secret: Bytes, tag: Bytes, seed: Bytes, len: nat): (b: Bytes)
    ensures |b| == len
  {
    Blocks(c, secret, tag + seed, len / DIGEST_LEN + 1)[..len]
  }

  lemma {:induction false} BlocksPrefix(c: Crypto, secret: Bytes, seed: Bytes, m: nat, n: nat)
    requires m <= n
    ensures Blocks(c, secret, seed, m) <= Blocks(c, secret, seed, n)
  {
    if m < n {
      BlocksPrefix(c, secret, seed, m, n - 1);
    }
  }

  /** A shorter output is a prefix of a longer one. */
  lemma PrfPrefix(c: Crypto, secret: Bytes, tag: Bytes, seed: Bytes, m: nat, n: nat)
    requires m <= n
    ensures Prf(c, secret, tag, seed, m) == Prf(c, secret, tag, seed, n)[..m]
  {
    BlocksPrefix(c, secret, tag + seed, m / DIGEST_LEN + 1, n / DIGEST_LEN + 1);
  }

  /** The source's loop: blocks are appended until enough octets exist. */
  method Tls12Prf(c: Crypto, secret: Bytes, tag: Bytes, seed: Bytes, len: nat) returns (out: Bytes)
    ensures out == Prf(c, secret, tag, seed, len)
  {
    var labelSeed := tag + seed;
    out := [];
    var a := c.hmac(secret, labelSeed);
    ghost var n := 0;
    while |out| < len
      invariant out == Blocks(c, secret, labelSeed, n)
      invariant a == Chain(c, secret, labelSeed, n)
      decreases len - |out|
    {
      out := out + c.hmac(secret, a + labelSeed);
      a := c.hmac(secret, a);
      n := n + 1;
    }
    if n <= len / DIGEST_LEN + 1 {
      BlocksPrefix(c, secret, labelSeed, n, len / DIGEST_LEN + 1);
    } else {
      BlocksPrefix(c, secret, labelSeed, len / DIGEST_LEN + 1, n);
    }
    out := out[..len];
  }

  function MasterSecret(c: Crypto, preMaster: Bytes, clientRandom: Bytes, serverRandom: Bytes): Bytes {
    Prf(c, preMaster, LABEL_MASTER_SECRET, clientRandom + serverRandom, 48)
  }

  function DeriveKeyBlock(c: Crypto, master: Bytes, clientRandom: Bytes, serverRandom: Bytes): KeyBlock {
    var b := Prf(c, master, LABEL_KEY_EXPANSION, serverRandom + clientRandom, 40);
    KeyBlock(b[0..16], b[16..32], b[32..36], b[36..40])
  }

  function DeriveKeys(c: Crypto, preMaster: Bytes, clientRandom: Bytes, serverRandom: Bytes): KeyMaterial {
    var master := MasterSecret(c, preMaster, clientRandom, serverRandom);
    KeyMaterial(master, DeriveKeyBlock(c, master, clientRandom, serverRandom))
  }

  function JoinerRouterKek(c: Crypto, master: Bytes, clientRandom: Bytes, serverRandom: Bytes): Bytes {
    c.sha256(Prf(c, master, LABEL_KEY_EXPANSION, serverRandom + clientRandom, 40))[..16]
  }

  /** The KEK is a digest of exactly the traffic keys and IVs of the session. */
  lemma KekFromKeyBlock(c: Crypto, master: Bytes, clientRandom: Bytes, serverRandom: Bytes)
    ensures var k := DeriveKeyBlock(c, master, clientRandom, serverRandom);
            JoinerRouterKek(c, master, clientRandom, serverRandom)
            == c.sha256(k.clientWriteKey + k.serverWriteKey + k.clientWriteIv + k.serverWriteIv)[..16]
  {
    hide Prf;
    var b := Prf(c, master, LABEL_KEY_EXPANSION, serverRandom + clientRandom, 40);
    assert b == b[0..16] + b[16..32] + b[32..36] + b[36..40];
  }

  function VerifyData(c: Crypto, master: Bytes, role: Role, transcriptHash: Bytes): (v: Bytes)
    ensures |v| == 12
  {
    Prf(c, master, if role.Client? then LABEL_CLIENT_FINISHED else LABEL_SERVER_FINISHED, transcriptHash, 12)
  }

  // ----- What the derived octets are, in HMAC and SHA-256 alone

  lemma Labels()
    ensures LABEL_MASTER_SECRET == Ascii("master secret") && LABEL_KEY_EXPANSION == Ascii("key expansion")
    ensures LABEL_CLIENT_FINISHED == Ascii("client finished") && LABEL_SERVER_FINISHED == Ascii("server finished")
  {
  }

  /** Two blocks of the TLS 1.2 PRF. */
  ghost function TwoBlocks(hmac: (Bytes, Bytes) -> Bytes, secret: Bytes, seed: Bytes): Bytes {
    var a1 := hmac(secret, seed);
    hmac(secret, a1 + seed) + hmac(secret, hmac(secret, a1) + seed)
  }

  lemma PrfOfTwo(c: Crypto, secret: Bytes, tag: Bytes, seed: Bytes, len: nat)
    requires len < 2 * DIGEST_LEN
    ensures |TwoBlocks(c.hmac, secret, tag + seed)| == 2 * DIGEST_LEN
    ensures Prf(c, secret, tag, seed, len) == TwoBlocks(c.hmac, secret, tag + seed)[..len]
  {
    var s := tag + seed;
    assert Chain(c, secret, s, 1) == c.hmac(secret, c.hmac(secret, s));
    assert Blocks(c, secret, s, 1) == c.hmac(secret, c.hmac(secret, s) + s);
    assert Blocks(c, secret, s, 2) == TwoBlocks(c.hmac, secret, s);
    BlocksPrefix(c, secret, s, len / DIGEST_LEN + 1, 2);
  }

  /** The master secret and the four traffic keys (sections 8.1 and 6.3 of
      RFC 5246). */
  lemma KeysAre(c: Crypto, preMaster: Bytes, clientRandom: Bytes, serverRandom: Bytes)
    ensures var keys := DeriveKeys(c, preMaster, clientRandom, serverRandom);
            var m := TwoBlocks(c.hmac, preMaster, Ascii("master secret") + (clientRandom + serverRandom));
            var b := TwoBlocks(c.hmac, keys.masterSecret, Ascii("key expansion") + (serverRandom + clientRandom));
            && |m| == |b| == 64 && keys.masterSecret == m[..48]
            && keys.keyBlock.clientWriteKey == b[..16] && keys.keyBlock.serverWriteKey == b[16..32]
            && keys.keyBlock.clientWriteIv == b[32..36] && keys.keyBlock.serverWriteIv == b[36..40]
  {
    hide Prf, TwoBlocks;
    Labels();
    var master := MasterSecret(c, preMaster, clientRandom, serverRandom);
    PrfOfTwo(c, preMaster, LABEL_MASTER_SECRET, clientRandom + serverRandom, 48);
    PrfOfTwo(c, master, LABEL_KEY_EXPANSION, serverRandom + clientRandom, 40);
  }

  /** `data` is the Finished data of `sender` over the transcript `t` (section
      7.4.9 of RFC 5246). */
  ghost predicate IsFinished(c: Crypto, master: Bytes, sender: Role, t: Bytes, data: Bytes) {
    var seed := FinishedSeed(c, sender, t);
    data == c.hmac(master, c.hmac(master, seed) + seed)[..12]
  }

  ghost function FinishedSeed(c: Crypto, sender: Role, t: Bytes): (seed: Bytes)
    ensures |seed| == 47 && seed[0] == (if sender.Client? then 'c' else 's') as int
    ensures seed[46] == c.sha256(t)[DIGEST_LEN - 1]
  {
    (if sender.Client? then Ascii("client finished") else Ascii("server finished")) + c.sha256(t)
  }

  lemma VerifyDataIs(c: Crypto, master: Bytes, role: Role, t: Bytes)
    ensures IsFinished(c, master, role, t, VerifyData(c, master, role, c.sha256(t)))
  {
    Labels();
    var tag := if role.Client? then LABEL_CLIENT_FINISHED else LABEL_SERVER_FINISHED;
    PrfOfTwo(c, master, tag, c.sha256(t), 12);
  }

  // ----- The Finished data covers the secret, the sender and the transcript

  function Repeat(x: Byte): (d: Bytes)
    ensures |d| == DIGEST_LEN && d[0] == x
  {
    seq(DIGEST_LEN, _ => x)
  }

  /** A digest that only tells `first` from the rest. */
  function Tells(first: Bytes, b: Bytes): (d: Bytes)
    ensures |d| == DIGEST_LEN && (d[0] == d[DIGEST_LEN - 1] == if b == first then 0 else 1)
  {
    Repeat(if b == first then 0 else 1)
  }

  /** A MAC that only tells the octet at position `at` from the end. */
  function Shows(at: nat, b: Bytes): (d: Bytes)
    ensures |d| == DIGEST_LEN && (at < |b| ==> d[0] == b[|b| - 1 - at])
  {
    Repeat(if at < |b| then b[|b| - 1 - at] else 0)
  }

  /** Any two different triples of secret, sender and transcript have different
      Finished data under some hash and MAC. */
  lemma FinishedSeparates(c: Crypto, m1: Bytes, s1: Role, t1: Bytes, m2: Bytes, s2: Role, t2: Bytes) returns (d: Crypto)
    requires (m1, s1, t1) != (m2, s2, t2)
    ensures SameGroup(c, d)
    ensures forall data :: IsFinished(d, m1, s1, t1, data) ==> !IsFinished(d, m2, s2, t2, data)
  {
    if t1 != t2 {
      d := TranscriptsSeparate(c, m1, s1, t1, m2, s2, t2);
    } else if s1 != s2 {
      d := SendersSeparate(c, m1, s1, t1, m2, s2, t2);
    } else {
      d := SecretsSeparate(c, m1, s1, t1, m2, s2, t2);
    }
  }

  lemma TranscriptsSeparate(c: Crypto, m1: Bytes, s1: Role, t1: Bytes, m2: Bytes, s2: Role, t2: Bytes) returns (d: Crypto)
    requires t1 != t2
    ensures SameGroup(c, d)
    ensures forall data :: IsFinished(d, m1, s1, t1, data) ==> !IsFinished(d, m2, s2, t2, data)
  {
    hide Repeat, FinishedSeed;
    d := WithDigests(c, b => Tells(t1, b), (k, b) => Shows(0, b));
  }

  lemma SendersSeparate(c: Crypto, m1: Bytes, s1: Role, t1: Bytes, m2: Bytes, s2: Role, t2: Bytes) returns (d: Crypto)
    requires s1 != s2
    ensures SameGroup(c, d)
    ensures forall data :: IsFinished(d, m1, s1, t1, data) ==> !IsFinished(d, m2, s2, t2, data)
  {
    hide Repeat, FinishedSeed;
    d := WithDigests(c, c.sha256, (k, b) => Shows(46, b));
  }

  lemma SecretsSeparate(c: Crypto, m1: Bytes, s1: Role, t1: Bytes, m2: Bytes, s2: Role, t2: Bytes) returns (d: Crypto)
    requires m1 != m2
    ensures SameGroup(c, d)
    ensures forall data :: IsFinished(d, m1, s1, t1, data) ==> !IsFinished(d, m2, s2, t2, data)
  {
    hide Repeat, FinishedSeed;
    d := WithDigests(c, c.sha256, (k, b) => Tells(m1, k));
  }
}
