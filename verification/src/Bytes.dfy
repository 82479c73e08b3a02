/** Octets, fixed-width big-endian integers and the error type shared by every
    codec in the project.  Error strings are not part of the model: an error is
    its variant. */
module Bytes {

  type Byte = x: int | 0 <= x < 0x100
  type Bytes = seq<Byte>
  type U16 = x: int | 0 <= x < 0x1_0000

  /** The octets of a text. */
  function Ascii(text: string): (b: Bytes)
    requires forall i :: 0 <= i < |text| ==> text[i] as int < 0x100
    ensures |b| == |text| && forall i :: 0 <= i < |b| ==> b[i] == text[i] as int
  {
    seq(|text|, i requires 0 <= i < |text| => text[i] as int)
  }

  datatype Option<+T> = None | Some(value: T)

  datatype Error = Crypto | InvalidState | Dataset | Tlv | Timeout | Configuration | Transport | PetitionRejected

  /** The source's `Result`; failure-compatible, so `:-` reads like `?`. */
  datatype Result<+T> = Ok(value: T) | Err(error: Error) {
    predicate IsFailure() { Err? }
    function PropagateFailure<U>(): Result<U>
      requires Err?
    {
      Err(error)
    }
    function Extract(): T
      requires Ok?
    {
      value
    }
  }

  /** The value, once a step has succeeded. */
  function Then<T>(r: Result<()>, value: T): Result<T> {
    match r
    case Ok(_) => Ok(value)
    case Err(e) => Err(e)
  }

  /** What an accumulating loop has built, followed by what is still to come. */
  function Prefixed<T>(done: seq<T>, r: Result<seq<T>>): Result<seq<T>> {
    if r.Ok? then Ok(done + r.value) else r
  }

  lemma PrefixedEmpty<T>(r: Result<seq<T>>)
    ensures Prefixed([], r) == r
    ensures r.Ok? ==> Prefixed(r.value, Ok([])) == r
  {
    if r.Ok? {
      assert [] + r.value == r.value + [] == r.value;
    }
  }

  lemma PrefixedStep<T>(done: seq<T>, next: seq<T>, r: Result<seq<T>>)
    ensures Prefixed(done, Prefixed(next, r)) == Prefixed(done + next, r)
  {
    if r.Ok? {
      assert done + (next + r.value) == done + next + r.value;
    }
  }

  function Pow256(k: nat): (p: nat)
    ensures p > 0
  {
    if k == 0 then 1 else 256 * Pow256(k - 1)
  }

  lemma PowerValues()
    ensures Pow256(1) == 0x100
    ensures Pow256(2) == 0x1_0000
    ensures Pow256(3) == 0x100_0000
    ensures Pow256(6) == 0x1_0000_0000_0000
  {
    assert Pow256(3) == 256 * Pow256(2);
    assert Pow256(4) == 256 * Pow256(3);
    assert Pow256(5) == 256 * Pow256(4);
    assert Pow256(6) == 256 * Pow256(5);
  }

  /** The low `k` octets of `n`, most significant first; higher octets are
      dropped, as a truncating cast drops them. */
  function BigEndian(n: nat, k: nat): (b: Bytes)
    ensures |b| == k
  {
    if k == 0 then [] else BigEndian(n / 256, k - 1) + [n % 256]
  }

  function FromBigEndian(b: Bytes): (n: nat)
    ensures n < Pow256(|b|)
  {
    if b == [] then 0 else 256 * FromBigEndian(b[..|b| - 1]) + b[|b| - 1]
  }

  lemma {:induction false} BigEndianRoundTrip(n: nat, k: nat)
    requires n < Pow256(k)
    ensures FromBigEndian(BigEndian(n, k)) == n
  {
    if k > 0 {
      BigEndianRoundTrip(n / 256, k - 1);
      assert BigEndian(n, k)[..k - 1] == BigEndian(n / 256, k - 1);
    }
  }

  lemma {:induction false} FromBigEndianRoundTrip(b: Bytes)
    ensures BigEndian(FromBigEndian(b), |b|) == b
  {
    if b != [] {
      FromBigEndianRoundTrip(b[..|b| - 1]);
      assert FromBigEndian(b) / 256 == FromBigEndian(b[..|b| - 1]);
      assert b == b[..|b| - 1] + [b[|b| - 1]];
    }
  }

  lemma BigEndianInjective(m: nat, n: nat, k: nat)
    requires m < Pow256(k) && n < Pow256(k)
    requires BigEndian(m, k) == BigEndian(n, k)
    ensures m == n
  {
    BigEndianRoundTrip(m, k);
    BigEndianRoundTrip(n, k);
  }

  /** Splits `n` octets off the front: the effect of a bounds-checked cursor
      read on the unread input. */
  function Take(s: Bytes, n: nat): (r: Result<(Bytes, Bytes)>)
    ensures r.Ok? <==> n <= |s|
    ensures r.Ok? ==> r.value.0 + r.value.1 == s && |r.value.0| == n
  {
    if n <= |s| then Ok((s[..n], s[n..])) else Err(Crypto)
  }

  lemma TakeAppend(a: Bytes, b: Bytes)
    ensures Take(a + b, |a|) == Ok((a, b))
  {
    assert (a + b)[..|a|] == a;
    assert (a + b)[|a|..] == b;
  }

  /** A `k`-octet big-endian integer read from the front. */
  function TakeInt(s: Bytes, k: nat): (r: Result<(nat, Bytes)>)
    ensures r.Ok? <==> k <= |s|
    ensures r.Ok? ==> r.value.0 < Pow256(k) && |r.value.1| == |s| - k
  {
    var (b, rest) :- Take(s, k);
    Ok((FromBigEndian(b), rest))
  }

  lemma TakeIntAppend(n: nat, k: nat, rest: Bytes)
    requires n < Pow256(k)
    ensures TakeInt(BigEndian(n, k) + rest, k) == Ok((n, rest))
  {
    TakeAppend(BigEndian(n, k), rest);
    BigEndianRoundTrip(n, k);
  }

  lemma TakeIntInverse(s: Bytes, k: nat)
    requires k <= |s|
    ensures TakeInt(s, k).Ok?
    ensures var (n, rest) := TakeInt(s, k).value; s == BigEndian(n, k) + rest
  {
    FromBigEndianRoundTrip(s[..k]);
  }

  /** A length-prefixed vector: `k` octets of length, then that many octets. */
  function TakeVector(s: Bytes, k: nat): (r: Result<(Bytes, Bytes)>)
    ensures r.Ok? ==> |r.value.0| < Pow256(k) && |r.value.1| + |r.value.0| + k == |s|
  {
    var (n, rest) :- TakeInt(s, k);
    Take(rest, n)
  }

  function Vector(v: Bytes, k: nat): Bytes {
    BigEndian(|v|, k) + v
  }

  lemma TakeVectorAppend(v: Bytes, k: nat, rest: Bytes)
    requires |v| < Pow256(k)
    ensures TakeVector(Vector(v, k) + rest, k) == Ok((v, rest))
  {
    assert Vector(v, k) + rest == BigEndian(|v|, k) + (v + rest);
    TakeIntAppend(|v|, k, v + rest);
    TakeAppend(v, rest);
  }

  lemma TakeVectorInverse(s: Bytes, k: nat)
    requires TakeVector(s, k).Ok?
    ensures var (v, rest) := TakeVector(s, k).value; s == Vector(v, k) + rest
  {
    TakeIntInverse(s, k);
    var (n, r1) := TakeInt(s, k).value;
    var (v, rest) := Take(r1, n).value;
    assert s == BigEndian(n, k) + (v + rest);
  }
}
