/** The bounds-checked reader over received octets. */
module Cursors {
  import opened Bytes

  class Cursor {
    const bytes: Bytes
    var offset: nat

    ghost predicate Valid()
      reads this
    {
      offset <= |bytes|
    }

    /** The unread input. */
    ghost function Rest(): Bytes
      requires Valid()
      reads this
    {
      bytes[offset..]
    }

    constructor (input: Bytes)
      ensures Valid() && bytes == input && Rest() == input
    {
      bytes := input;
      offset := 0;
    }

    method Remaining() returns (n: nat)
      requires Valid()
      ensures n == |Rest()|
    {
      n := |bytes| - offset;
    }

    /** Reads exactly `len` octets, or fails and reads nothing. */
    method ReadExact(len: nat) returns (r: Result<Bytes>)
      requires Valid()
      modifies this`offset
      ensures Valid()
      ensures match Take(old(Rest()), len)
              case Ok((b, rest)) => r == Ok(b) && Rest() == rest
              case Err(e) => r == Err(e) && Rest() == old(Rest())
    {
      var end := offset + len;
      if |bytes| < end {
        return Err(Crypto);
      }
      r := Ok(bytes[offset..end]);
      assert bytes[offset..][..len] == bytes[offset..end];
      assert bytes[offset..][len..] == bytes[end..];
      offset := end;
    }

    method ReadInt(k: nat) returns (r: Result<nat>)
      requires Valid()
      modifies this`offset
      ensures Valid()
      ensures match TakeInt(old(Rest()), k)
              case Ok((n, rest)) => r == Ok(n) && Rest() == rest
              case Err(e) => r == Err(e) && Rest() == old(Rest())
    {
      var b := ReadExact(k);
      if b.Err? {
        return Err(b.error);
      }
      r := Ok(FromBigEndian(b.value));
    }

    /** Reads a vector with a `k`-octet length.  When the octets run out the
        length has already been consumed, but the decoders stop there. */
    method ReadVector(k: nat) returns (r: Result<Bytes>)
      requires Valid()
      modifies this`offset
      ensures Valid()
      ensures match TakeVector(old(Rest()), k)
              case Ok((v, rest)) => r == Ok(v) && Rest() == rest
              case Err(e) => r == Err(e)
    {
      var n := ReadInt(k);
      if n.Err? {
        return Err(n.error);
      }
      r := ReadExact(n.value);
    }
  }
}
