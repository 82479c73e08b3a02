/** The CoAP message codec (sections 3 and 3.1 of RFC 7252).  Shifts and masks on
    an octet are written as division and remainder. */
module Coap {
  import opened Bytes

  datatype CoapType = Confirmable | NonConfirmable | Acknowledgement | Reset

  datatype CoapOption = CoapOption(number: U16, value: Bytes)

  datatype CoapMessage = CoapMessage(
    ty: CoapType,
    code: Byte,
    messageId: U16,
    token: Bytes,
    options: seq<CoapOption>,
    payload: Bytes)

  const EMPTY: Byte := 0x00
  const POST: Byte := 0x02
  const CHANGED: Byte := 0x44
  const CONTENT: Byte := 0x45
  const URI_PATH: U16 := 11
  const PAYLOAD_MARKER: Byte := 0xff

  function TypeValue(ty: CoapType): (v: nat)
    ensures v < 4
  {
    match ty
    case Confirmable => 0
    case NonConfirmable => 1
    case Acknowledgement => 2
    case Reset => 3
  }

  function TypeOf(v: nat): CoapType
    requires v < 4
  {
    if v == 0 then Confirmable else if v == 1 then NonConfirmable else if v == 2 then Acknowledgement else Reset
  }

  function EmptyAck(messageId: U16): CoapMessage {
    CoapMessage(Acknowledgement, EMPTY, messageId, [], [], [])
  }

  predicate IsEmptyAckFor(m: CoapMessage, messageId: U16) {
    m == EmptyAck(messageId)
  }

  /** The empty acknowledgement on the wire (section 4.2 of RFC 7252): version 1,
      type 2, no token, code 0.00 and the message ID. */
  lemma EmptyAckWire(messageId: U16)
    ensures Encode(EmptyAck(messageId)) == Ok([0x60, 0x00] + BigEndian(messageId, 2))
  {
    hide BigEndian;
    assert Ordered(0, StableSort([])) && EncodeOptions(0, StableSort([])) == Ok([]);
    var w: Bytes := [0x60, 0x00] + BigEndian(messageId, 2);
    assert w + [] == w;
  }

  /** What is taken for it is exactly that, or that with an empty payload marked. */
  lemma EmptyAckRead(messageId: U16, wire: Bytes)
    requires Decode(wire).Ok?
    ensures IsEmptyAckFor(Decode(wire).value, messageId)
            <==> var w := [0x60, 0x00] + BigEndian(messageId, 2); wire == w || wire == w + [0xff]
  {
    hide BigEndian, Decode, Encode;
    EmptyAckWire(messageId);
    EncodeDecode(wire, EmptyAck(messageId));
    assert Encodable(EmptyAck(messageId)) && Ordered(0, EmptyAck(messageId).options);
  }

  // ----- Extended nibbles

  function EncodeNibble(v: U16): (r: (Byte, Bytes))
    ensures r.0 <= 14 && |r.1| <= 2
  {
    if v <= 12 then (v, [])
    else if v <= 268 then (13, [v - 13])
    else (14, BigEndian(v - 269, 2))
  }

  /** The value and the number of extension octets it used. */
  function DecodeNibble(nibble: nat, bytes: Bytes): (r: Result<(U16, nat)>)
    ensures r.Ok? ==> r.value.1 <= |bytes|
  {
    if nibble <= 12 then Ok((nibble, 0))
    else if nibble == 13 then if bytes == [] then Err(Dataset) else Ok((bytes[0] as int + 13, 1))
    else if nibble == 14 then
      if |bytes| < 2 then Err(Dataset)
      else
        var value := FromBigEndian(bytes[..2]) + 269;
        if value < 0x1_0000 then Ok((value, 2)) else Err(Dataset)
    else Err(Dataset)
  }

  lemma NibbleRoundTrip(v: U16, rest: Bytes)
    ensures var (nibble, extra) := EncodeNibble(v);
            DecodeNibble(nibble, extra + rest) == Ok((v, |extra|))
            && (extra + rest)[|extra|..] == rest
  {
    var (nibble, extra) := EncodeNibble(v);
    if nibble == 14 {
      PowerValues();
      BigEndianRoundTrip(v - 269, 2);
      assert (extra + rest)[..2] == extra;
    }
  }

  lemma NibbleInverse(nibble: nat, bytes: Bytes)
    requires DecodeNibble(nibble, bytes).Ok?
    ensures var (v, used) := DecodeNibble(nibble, bytes).value;
            EncodeNibble(v) == (nibble, bytes[..used])
  {
    if nibble == 13 {
      assert bytes[..1] == [bytes[0]];
    } else if nibble == 14 {
      PowerValues();
      FromBigEndianRoundTrip(bytes[..2]);
    }
  }

  // ----- Options

  function OptionHeader(delta: U16, length: U16): (b: Bytes)
    ensures b != [] && b[0] != PAYLOAD_MARKER
  {
    var (d, deltaExtra) := EncodeNibble(delta);
    var (l, lengthExtra) := EncodeNibble(length);
    [16 * d + l] + deltaExtra + lengthExtra
  }

  predicate OptionFits(o: CoapOption) {
    |o.value| < 0x1_0000
  }

  ghost predicate AllFit(os: seq<CoapOption>) {
    forall o :: o in os ==> OptionFits(o)
  }

  /** Nondecreasing option numbers, none below `last`. */
  predicate Ordered(last: U16, os: seq<CoapOption>)
    decreases |os|
  {
    os == [] || (last <= os[0].number && Ordered(os[0].number, os[1..]))
  }

  function EncodeOptions(last: U16, os: seq<CoapOption>): Result<Bytes>
    requires Ordered(last, os)
    decreases |os|
  {
    if os == [] then Ok([])
    else if !OptionFits(os[0]) then Err(Dataset)
    else
      var rest :- EncodeOptions(os[0].number, os[1..]);
      Ok(OptionHeader(os[0].number - last, |os[0].value|) + os[0].value + rest)
  }

  /** One option off the front: the option and the octets after it. */
  function DecodeOption(last: U16, bytes: Bytes): (r: Result<(CoapOption, Bytes)>)
    requires bytes != []
    ensures r.Ok? ==> |r.value.1| < |bytes|
  {
    var afterHeader := bytes[1..];
    var (delta, usedDelta) :- DecodeNibble(bytes[0] / 16, afterHeader);
    var afterDelta := afterHeader[usedDelta..];
    var (length, usedLength) :- DecodeNibble(bytes[0] % 16, afterDelta);
    var afterLength := afterDelta[usedLength..];
    if |afterLength| < length then Err(Dataset)
    else if last + delta >= 0x1_0000 then Err(Dataset)
    else Ok((CoapOption(last + delta, afterLength[..length]), afterLength[length..]))
  }

  function DecodeOptions(last: U16, bytes: Bytes): Result<(seq<CoapOption>, Bytes)>
    decreases |bytes|
  {
    if bytes == [] then Ok(([], []))
    else if bytes[0] == PAYLOAD_MARKER then Ok(([], bytes[1..]))
    else
      var (o, rest) :- DecodeOption(last, bytes);
      var (os, payload) :- DecodeOptions(o.number, rest);
      Ok(([o] + os, payload))
  }

  lemma OptionRoundTrip(last: U16, o: CoapOption, rest: Bytes)
    requires last <= o.number && OptionFits(o)
    ensures DecodeOption(last, OptionHeader(o.number - last, |o.value|) + o.value + rest) == Ok((o, rest))
  {
    hide DecodeNibble, EncodeNibble;
    var delta, length: U16 := o.number - last, |o.value|;
    var (d, deltaExtra) := EncodeNibble(delta);
    var (l, lengthExtra) := EncodeNibble(length);
    var bytes := OptionHeader(delta, length) + o.value + rest;
    var afterLength := o.value + rest;
    assert bytes[1..] == deltaExtra + (lengthExtra + afterLength);
    NibbleRoundTrip(delta, lengthExtra + afterLength);
    NibbleRoundTrip(length, afterLength);
    assert bytes[0] / 16 == d && bytes[0] % 16 == l;
    assert afterLength[..length] == o.value && afterLength[length..] == rest;
  }

  /** Where a decoded option was cut: `i` octets of extended delta, `j` of
      extended length and `k` of value. */
  lemma OptionParts(last: U16, bytes: Bytes) returns (delta: U16, i: nat, j: nat, k: U16)
    requires bytes != [] && DecodeOption(last, bytes).Ok?
    ensures 1 + i + j + k <= |bytes| && last + delta < 0x1_0000
    ensures var a := bytes[1..]; var b := a[i..]; var c := b[j..];
            && EncodeNibble(delta) == (bytes[0] / 16, a[..i]) && EncodeNibble(k) == (bytes[0] % 16, b[..j])
            && DecodeOption(last, bytes) == Ok((CoapOption(last + delta, c[..k]), c[k..]))
  {
    hide DecodeNibble, EncodeNibble;
    var a := bytes[1..];
    NibbleInverse(bytes[0] / 16, a);
    delta, i := DecodeNibble(bytes[0] / 16, a).value.0, DecodeNibble(bytes[0] / 16, a).value.1;
    var b := a[i..];
    NibbleInverse(bytes[0] % 16, b);
    k, j := DecodeNibble(bytes[0] % 16, b).value.0, DecodeNibble(bytes[0] % 16, b).value.1;
  }

  lemma OptionInverse(last: U16, bytes: Bytes)
    requires bytes != [] && DecodeOption(last, bytes).Ok?
    ensures var (o, rest) := DecodeOption(last, bytes).value;
            last <= o.number && OptionFits(o)
            && bytes == OptionHeader(o.number - last, |o.value|) + o.value + rest
  {
    hide DecodeOption, EncodeNibble, OptionHeader;
    var delta, deltaExtra, lengthExtra, value, rest := OptionPieces(last, bytes);
    HeaderParts(delta, |value|);
    Nibbles(bytes[0]);
  }

  lemma OptionPieces(last: U16, bytes: Bytes)
    returns (delta: U16, deltaExtra: Bytes, lengthExtra: Bytes, value: Bytes, rest: Bytes)
    requires bytes != [] && DecodeOption(last, bytes).Ok?
    ensures last + delta < 0x1_0000 && |value| < 0x1_0000
    ensures EncodeNibble(delta) == (bytes[0] / 16, deltaExtra) && EncodeNibble(|value|) == (bytes[0] % 16, lengthExtra)
    ensures DecodeOption(last, bytes) == Ok((CoapOption(last + delta, value), rest))
    ensures bytes == [bytes[0]] + deltaExtra + lengthExtra + value + rest
  {
    hide DecodeOption, EncodeNibble;
    var d, i, j, k := OptionParts(last, bytes);
    delta, deltaExtra, lengthExtra := d, bytes[1..][..i], bytes[1..][i..][..j];
    value, rest := bytes[1..][i..][j..][..k], bytes[1..][i..][j..][k..];
    Rejoin(bytes, i, j, k);
  }

  lemma HeaderParts(delta: U16, length: U16)
    ensures OptionHeader(delta, length)
         == [16 * EncodeNibble(delta).0 + EncodeNibble(length).0] + EncodeNibble(delta).1 + EncodeNibble(length).1
  {
    hide EncodeNibble;
  }

  lemma Nibbles(b: Byte)
    ensures 16 * (b / 16) + b % 16 == b
  {
  }

  /** An octet string cut at three places after its first octet. */
  lemma Rejoin(bytes: Bytes, i: nat, j: nat, k: nat)
    requires bytes != [] && 1 + i + j + k <= |bytes|
    ensures var a := bytes[1..]; var b := a[i..]; var c := b[j..];
            bytes == [bytes[0]] + a[..i] + b[..j] + c[..k] + c[k..]
  {
  }

  function PayloadPart(payload: Bytes): Bytes {
    if payload == [] then [] else [PAYLOAD_MARKER] + payload
  }

  /** What follows the last option when it decodes to `payload`: a lone marker
      is also read as an empty payload. */
  predicate PayloadSpelling(tail: Bytes, payload: Bytes) {
    tail == PayloadPart(payload) || (payload == [] && tail == [PAYLOAD_MARKER])
  }

  lemma DecodeTail(last: U16, tail: Bytes, payload: Bytes)
    requires PayloadSpelling(tail, payload)
    ensures DecodeOptions(last, tail) == Ok(([], payload))
  {
    hide DecodeOption;
    assert tail != [] ==> tail[1..] == payload;
  }

  lemma DecodeFirst(last: U16, o: CoapOption, rest: Bytes, os: seq<CoapOption>, payload: Bytes)
    requires last <= o.number && OptionFits(o) && DecodeOptions(o.number, rest) == Ok((os, payload))
    ensures DecodeOptions(last, OptionHeader(o.number - last, |o.value|) + o.value + rest) == Ok(([o] + os, payload))
  {
    hide DecodeOption, OptionHeader;
    var header := OptionHeader(o.number - last, |o.value|);
    var bytes := header + o.value + rest;
    OptionRoundTrip(last, o, rest);
    assert bytes[0] == header[0];
  }

  lemma {:induction false} OptionsRoundTrip(last: U16, os: seq<CoapOption>, tail: Bytes, payload: Bytes)
    requires Ordered(last, os) && EncodeOptions(last, os).Ok? && PayloadSpelling(tail, payload)
    ensures DecodeOptions(last, EncodeOptions(last, os).value + tail) == Ok((os, payload))
    decreases |os|
  {
    hide DecodeOptions, OptionHeader;
    if os == [] {
      assert EncodeOptions(last, os).value + tail == tail;
      DecodeTail(last, tail, payload);
    } else {
      var o, more := os[0], EncodeOptions(os[0].number, os[1..]).value;
      OptionsRoundTrip(o.number, os[1..], tail, payload);
      DecodeFirst(last, o, more + tail, os[1..], payload);
      var head := OptionHeader(o.number - last, |o.value|) + o.value;
      assert EncodeOptions(last, os).value + tail == head + (more + tail);
      assert [o] + os[1..] == os;
    }
  }

  lemma FirstInverse(last: U16, bytes: Bytes) returns (o: CoapOption, rest: Bytes, os: seq<CoapOption>, payload: Bytes)
    requires DecodeOptions(last, bytes).Ok? && bytes != [] && bytes[0] != PAYLOAD_MARKER
    ensures last <= o.number && OptionFits(o) && |rest| < |bytes|
    ensures bytes == OptionHeader(o.number - last, |o.value|) + o.value + rest
    ensures DecodeOptions(o.number, rest) == Ok((os, payload)) && DecodeOptions(last, bytes) == Ok(([o] + os, payload))
  {
    hide DecodeOption, OptionHeader;
    o, rest := DecodeOption(last, bytes).value.0, DecodeOption(last, bytes).value.1;
    OptionInverse(last, bytes);
    os, payload := DecodeOptions(o.number, rest).value.0, DecodeOptions(o.number, rest).value.1;
  }

  lemma TailInverse(last: U16, bytes: Bytes)
    requires bytes == [] || bytes[0] == PAYLOAD_MARKER
    ensures DecodeOptions(last, bytes).Ok? && DecodeOptions(last, bytes).value.0 == []
    ensures PayloadSpelling(bytes, DecodeOptions(last, bytes).value.1)
  {
    hide DecodeOption;
    assert bytes != [] ==> bytes == [PAYLOAD_MARKER] + bytes[1..];
  }

  lemma {:induction false} OptionsInverse(last: U16, bytes: Bytes) returns (tail: Bytes)
    requires DecodeOptions(last, bytes).Ok?
    ensures var (os, payload) := DecodeOptions(last, bytes).value;
            Ordered(last, os) && EncodeOptions(last, os).Ok? && PayloadSpelling(tail, payload)
            && bytes == EncodeOptions(last, os).value + tail
    decreases |bytes|
  {
    hide DecodeOptions, OptionHeader;
    if bytes == [] || bytes[0] == PAYLOAD_MARKER {
      tail := bytes;
      TailInverse(last, bytes);
    } else {
      var o, rest, os, payload := FirstInverse(last, bytes);
      tail := OptionsInverse(o.number, rest);
      assert ([o] + os)[1..] == os;
      var head := OptionHeader(o.number - last, |o.value|) + o.value;
      assert head + (EncodeOptions(o.number, os).value + tail) == head + EncodeOptions(o.number, os).value + tail;
    }
  }

  lemma {:induction false} OptionsEncodable(last: U16, os: seq<CoapOption>)
    requires Ordered(last, os)
    ensures EncodeOptions(last, os).Ok? <==> AllFit(os)
    ensures EncodeOptions(last, os).Err? ==> EncodeOptions(last, os) == Err(Dataset)
    decreases |os|
  {
    if os != [] {
      OptionsEncodable(os[0].number, os[1..]);
      assert os == [os[0]] + os[1..];
    }
  }

  // ----- Stable sorting by option number

  /** Inserts before the first option with a number at least as large. */
  function Insert(o: CoapOption, os: seq<CoapOption>): (r: seq<CoapOption>)
    ensures |r| == |os| + 1
  {
    if os == [] || o.number <= os[0].number then [o] + os else [os[0]] + Insert(o, os[1..])
  }

  function StableSort(os: seq<CoapOption>): (r: seq<CoapOption>)
    ensures |r| == |os|
  {
    if os == [] then [] else Insert(os[0], StableSort(os[1..]))
  }

  /** The options of one number, in order. */
  function WithNumber(os: seq<CoapOption>, n: U16): seq<CoapOption> {
    if os == [] then []
    else (if os[0].number == n then [os[0]] else []) + WithNumber(os[1..], n)
  }

  /** `r` is `os` stably sorted: numbers nondecreasing, and the options of each
      number the same ones in the same order. */
  ghost predicate StablySorted(os: seq<CoapOption>, r: seq<CoapOption>) {
    Ordered(0, r) && forall n: U16 :: WithNumber(r, n) == WithNumber(os, n)
  }

  lemma {:induction false} InsertOrdered(last: U16, o: CoapOption, os: seq<CoapOption>)
    requires Ordered(last, os) && last <= o.number
    ensures Ordered(last, Insert(o, os))
    decreases |os|
  {
    if os != [] && os[0].number < o.number {
      InsertOrdered(os[0].number, o, os[1..]);
    } else {
      assert ([o] + os)[1..] == os;
      assert os != [] ==> Ordered(o.number, os);
    }
  }

  lemma {:induction false} InsertWithNumber(o: CoapOption, os: seq<CoapOption>, n: U16)
    ensures WithNumber(Insert(o, os), n) == WithNumber([o] + os, n)
    decreases |os|
  {
    assert ([o] + os)[1..] == os;
    if os != [] && os[0].number < o.number {
      InsertWithNumber(o, os[1..], n);
      assert Insert(o, os)[1..] == Insert(o, os[1..]);
      assert ([o] + os[1..])[1..] == os[1..];
    }
  }

  lemma {:induction false} SortIsStable(os: seq<CoapOption>)
    ensures StablySorted(os, StableSort(os))
  {
    if os != [] {
      SortIsStable(os[1..]);
      InsertOrdered(0, os[0], StableSort(os[1..]));
      forall n: U16 ensures WithNumber(StableSort(os), n) == WithNumber(os, n) {
        var sorted := StableSort(os[1..]);
        InsertWithNumber(os[0], sorted, n);
        assert ([os[0]] + sorted)[1..] == sorted;
      }
    }
  }

  lemma {:induction false} OrderedAbove(last: U16, os: seq<CoapOption>, n: U16)
    requires Ordered(last, os) && n < last
    ensures WithNumber(os, n) == []
    decreases |os|
  {
    if os != [] {
      OrderedAbove(os[0].number, os[1..], n);
    }
  }

  /** The stably sorted arrangement is unique, so it does not depend on the
      sorting algorithm. */
  lemma {:induction false} StablySortedUnique(last: U16, a: seq<CoapOption>, b: seq<CoapOption>)
    requires Ordered(last, a) && Ordered(last, b)
    requires forall n: U16 :: WithNumber(a, n) == WithNumber(b, n)
    ensures a == b
    decreases |a|
  {
    if a == [] || b == [] {
      if a != [] {
        HeadNumber(a);
      }
      if b != [] {
        HeadNumber(b);
      }
    } else {
      SameHead(last, a, b);
      var h := a[0].number;
      forall n: U16 ensures WithNumber(a[1..], n) == WithNumber(b[1..], n) {
        assert WithNumber(a, n) == WithNumber(b, n);
        SameRest(a, b, n);
      }
      StablySortedUnique(h, a[1..], b[1..]);
      assert a == [a[0]] + a[1..] && b == [b[0]] + b[1..];
    }
  }

  lemma HeadNumber(a: seq<CoapOption>)
    requires a != []
    ensures WithNumber(a, a[0].number) != []
  {
  }

  lemma SameRest(a: seq<CoapOption>, b: seq<CoapOption>, n: U16)
    requires a != [] && b != [] && a[0] == b[0] && WithNumber(a, n) == WithNumber(b, n)
    ensures WithNumber(a[1..], n) == WithNumber(b[1..], n)
  {
    var head := if a[0].number == n then [a[0]] else [];
    assert WithNumber(a[1..], n) == WithNumber(a, n)[|head|..];
    assert WithNumber(b[1..], n) == WithNumber(b, n)[|head|..];
  }

  lemma SameHead(last: U16, a: seq<CoapOption>, b: seq<CoapOption>)
    requires a != [] && b != [] && Ordered(last, a) && Ordered(last, b)
    requires forall n: U16 :: WithNumber(a, n) == WithNumber(b, n)
    ensures a[0] == b[0]
  {
    var h, k := a[0].number, b[0].number;
    assert WithNumber(a, h) == WithNumber(b, h);
    assert WithNumber(a, k) == WithNumber(b, k);
    if h < k {
      OrderedAbove(k, b, h);
    } else if k < h {
      OrderedAbove(h, a, k);
    } else {
      assert WithNumber(a, h)[0] == a[0] && WithNumber(b, h)[0] == b[0];
    }
  }

  lemma OrderedIsSorted(os: seq<CoapOption>)
    requires Ordered(0, os)
    ensures StableSort(os) == os
  {
    SortIsStable(os);
    StablySortedUnique(0, StableSort(os), os);
  }

  lemma {:induction false} InsertElements(o: CoapOption, os: seq<CoapOption>)
    ensures AllFit(Insert(o, os)) <==> OptionFits(o) && AllFit(os)
    decreases |os|
  {
    hide OptionFits;
    if os != [] && os[0].number < o.number {
      InsertElements(o, os[1..]);
      FitSplit(os[0], os[1..]);
      FitSplit(os[0], Insert(o, os[1..]));
      assert os == [os[0]] + os[1..];
    } else {
      FitSplit(o, os);
    }
  }

  lemma FitSplit(o: CoapOption, os: seq<CoapOption>)
    ensures AllFit([o] + os) <==> OptionFits(o) && AllFit(os)
  {
    hide OptionFits;
    if AllFit([o] + os) {
      assert o in [o] + os;
      assert forall p :: p in os ==> p in [o] + os;
    }
  }

  lemma {:induction false} SortElements(os: seq<CoapOption>)
    ensures AllFit(StableSort(os)) <==> AllFit(os)
  {
    if os != [] {
      hide OptionFits, Insert;
      SortElements(os[1..]);
      InsertElements(os[0], StableSort(os[1..]));
      FitSplit(os[0], os[1..]);
      assert os == [os[0]] + os[1..];
    }
  }

  // ----- Messages

  function Header(m: CoapMessage): Bytes
    requires |m.token| <= 8
  {
    [64 + 16 * TypeValue(m.ty) + |m.token|, m.code] + BigEndian(m.messageId, 2) + m.token
  }

  function Encode(m: CoapMessage): Result<Bytes> {
    if |m.token| > 8 then Err(Dataset)
    else
      SortIsStable(m.options);
      var options :- EncodeOptions(0, StableSort(m.options));
      Ok(Header(m) + options + PayloadPart(m.payload))
  }

  function Decode(bytes: Bytes): Result<CoapMessage> {
    if |bytes| < 4 then Err(Dataset)
    else if bytes[0] / 64 != 1 then Err(Dataset)
    else
      var tokenLength := bytes[0] % 16;
      if tokenLength > 8 || |bytes| < 4 + tokenLength then Err(Dataset)
      else
        var (options, payload) :- DecodeOptions(0, bytes[4 + tokenLength..]);
        Ok(CoapMessage(TypeOf(bytes[0] / 16 % 4), bytes[1], MessageId(bytes), bytes[4..4 + tokenLength],
                       options, payload))
  }

  function MessageId(bytes: Bytes): U16
    requires |bytes| >= 4
  {
    PowerValues();
    FromBigEndian(bytes[2..4])
  }

  ghost predicate Encodable(m: CoapMessage) {
    |m.token| <= 8 && AllFit(m.options)
  }

  lemma EncodeSucceeds(m: CoapMessage)
    ensures Encode(m).Ok? <==> Encodable(m)
    ensures Encode(m).Err? ==> Encode(m) == Err(Dataset)
  {
    hide AllFit, StableSort, EncodeOptions;
    SortIsStable(m.options);
    OptionsEncodable(0, StableSort(m.options));
    SortElements(m.options);
  }

  lemma FirstOctet(ty: nat, length: nat)
    requires ty < 4 && length <= 8
    ensures var first := 64 + 16 * ty + length;
            first / 64 == 1 && first % 16 == length && first / 16 % 4 == ty
  {
  }

  lemma HeaderSlices(m: CoapMessage, rest: Bytes)
    requires |m.token| <= 8
    ensures var bytes := Header(m) + rest;
            |bytes| >= 4 + |m.token| && bytes[0] == 64 + 16 * TypeValue(m.ty) + |m.token| && bytes[1] == m.code
            && bytes[2..4] == BigEndian(m.messageId, 2)
            && bytes[4..4 + |m.token|] == m.token && bytes[4 + |m.token|..] == rest
  {
    hide BigEndian, TypeValue;
  }

  /** The header and token of any message, followed by any option region. */
  lemma HeaderRoundTrip(m: CoapMessage, rest: Bytes)
    requires |m.token| <= 8
    ensures var bytes := Header(m) + rest;
            |bytes| >= 4 + |m.token| && bytes[0] / 64 == 1 && bytes[0] % 16 == |m.token|
            && TypeOf(bytes[0] / 16 % 4) == m.ty && bytes[1] == m.code && MessageId(bytes) == m.messageId
            && bytes[4..4 + |m.token|] == m.token && bytes[4 + |m.token|..] == rest
  {
    HeaderSlices(m, rest);
    PowerValues();
    BigEndianRoundTrip(m.messageId, 2);
    hide BigEndian, FromBigEndian, Header;
    FirstOctet(TypeValue(m.ty), |m.token|);
  }

  lemma HeaderInverse(bytes: Bytes, m: CoapMessage)
    requires |bytes| >= 4 && bytes[0] / 64 == 1 && bytes[0] % 16 == |m.token| <= 8 && |bytes| >= 4 + |m.token|
    requires TypeOf(bytes[0] / 16 % 4) == m.ty && bytes[1] == m.code && MessageId(bytes) == m.messageId
    requires bytes[4..4 + |m.token|] == m.token
    ensures bytes == Header(m) + bytes[4 + |m.token|..]
  {
    FromBigEndianRoundTrip(bytes[2..4]);
    assert bytes == [bytes[0], bytes[1]] + bytes[2..4] + bytes[4..4 + |m.token|] + bytes[4 + |m.token|..];
    assert TypeValue(m.ty) == bytes[0] / 16 % 4;
  }

  /** What a message decodes to: itself, its options stably sorted. */
  function Normal(m: CoapMessage): CoapMessage {
    m.(options := StableSort(m.options))
  }

  lemma SpellingDecodes(m: CoapMessage, tail: Bytes)
    requires Encodable(m) && PayloadSpelling(tail, m.payload)
    ensures Ordered(0, StableSort(m.options)) && EncodeOptions(0, StableSort(m.options)).Ok?
    ensures Decode(Header(m) + EncodeOptions(0, StableSort(m.options)).value + tail) == Ok(Normal(m))
  {
    hide Header, EncodeOptions, DecodeOptions, StableSort;
    EncodeSucceeds(m);
    SortIsStable(m.options);
    var options := EncodeOptions(0, StableSort(m.options)).value;
    OptionsRoundTrip(0, StableSort(m.options), tail, m.payload);
    HeaderRoundTrip(m, options + tail);
    assert Header(m) + (options + tail) == Header(m) + options + tail;
  }

  /** Decoding an encoding gives the message back, options stably sorted. */
  lemma DecodeEncode(m: CoapMessage)
    requires Encodable(m)
    ensures Encode(m).Ok? && Decode(Encode(m).value) == Ok(Normal(m))
  {
    hide StableSort, EncodeOptions, Decode;
    EncodeSucceeds(m);
    SpellingDecodes(m, PayloadPart(m.payload));
  }

  /** The octet strings that decode to `m` are its encoding and, when it has no
      payload, its encoding followed by a lone payload marker. */
  ghost predicate Spells(bytes: Bytes, m: CoapMessage) {
    Encodable(m) && Ordered(0, m.options)
    && (Encode(m) == Ok(bytes)
        || (m.payload == [] && exists b :: Encode(m) == Ok(b) && bytes == b + [PAYLOAD_MARKER]))
  }

  lemma EncodeDecode(bytes: Bytes, m: CoapMessage)
    ensures Decode(bytes) == Ok(m) <==> Spells(bytes, m)
  {
    if Decode(bytes) == Ok(m) {
      DecodedSpells(bytes);
    }
    if Spells(bytes, m) {
      SpelledDecodes(bytes, m);
    }
  }

  lemma SpelledDecodes(bytes: Bytes, m: CoapMessage)
    requires Spells(bytes, m)
    ensures Decode(bytes) == Ok(m)
  {
    hide Decode, EncodeOptions, Ordered;
    OrderedIsSorted(m.options);
    hide StableSort;
    if Encode(m) == Ok(bytes) {
      DecodeEncode(m);
    } else {
      var b :| Encode(m) == Ok(b) && bytes == b + [PAYLOAD_MARKER];
      SpellingDecodes(m, [PAYLOAD_MARKER]);
      var coded := Header(m) + EncodeOptions(0, m.options).value;
      assert b == coded + PayloadPart(m.payload) == coded;
      assert Normal(m) == m;
    }
  }

  lemma DecodedSpells(bytes: Bytes)
    requires Decode(bytes).Ok?
    ensures Spells(bytes, Decode(bytes).value)
  {
    hide Decode, Encode, Encodable, Ordered;
    var m := Decode(bytes).value;
    var b, tail := DecodedParts(bytes);
    if tail != PayloadPart(m.payload) {
      assert b + PayloadPart(m.payload) == b;
    }
  }

  lemma DecodedParts(bytes: Bytes) returns (b: Bytes, tail: Bytes)
    requires Decode(bytes).Ok?
    ensures bytes == b + tail
    ensures var m := Decode(bytes).value;
            && Encodable(m) && Ordered(0, m.options)
            && PayloadSpelling(tail, m.payload)
            && Encode(m) == Ok(b + PayloadPart(m.payload))
  {
    hide Decode, Header, EncodeOptions, DecodeOptions, Ordered, StableSort;
    var m := Decode(bytes).value;
    DecodedFields(bytes);
    tail := OptionsInverse(0, bytes[4 + |m.token|..]);
    OrderedIsSorted(m.options);
    OptionsEncodable(0, m.options);
    b := Header(m) + EncodeOptions(0, m.options).value;
    assert bytes == b + tail;
  }

  lemma DecodedFields(bytes: Bytes)
    requires Decode(bytes).Ok?
    ensures var m := Decode(bytes).value;
            && |m.token| <= 8 && |bytes| >= 4 + |m.token|
            && bytes == Header(m) + bytes[4 + |m.token|..]
            && DecodeOptions(0, bytes[4 + |m.token|..]) == Ok((m.options, m.payload))
  {
    hide Header, DecodeOptions;
    var m := Decode(bytes).value;
    HeaderInverse(bytes, m);
    assert DecodeOptions(0, bytes[4 + bytes[0] % 16..]).value == (m.options, m.payload);
  }

  // ----- The encoder and decoder loops

  method EncodeSorted(options: seq<CoapOption>) returns (r: Result<Bytes>)
    requires Ordered(0, options)
    ensures r == EncodeOptions(0, options)
  {
    hide OptionHeader;
    var out: Bytes, last: U16 := [], 0;
    ghost var all := EncodeOptions(0, options);
    PrefixedEmpty(all);
    for i := 0 to |options|
      invariant Ordered(last, options[i..])
      invariant all == Prefixed(out, EncodeOptions(last, options[i..]))
    {
      var option := options[i];
      assert options[i..][1..] == options[i + 1..];
      if !OptionFits(option) {
        return Err(Dataset);
      }
      var piece := OptionHeader(option.number - last, |option.value|) + option.value;
      PrefixedStep(out, piece, EncodeOptions(option.number, options[i + 1..]));
      out := out + piece;
      last := option.number;
    }
    assert out + [] == out;
    r := Ok(out);
  }

  method EncodeMessage(m: CoapMessage) returns (r: Result<Bytes>)
    ensures r == Encode(m)
  {
    hide StableSort, EncodeOptions, Header, Ordered;
    if |m.token| > 8 {
      return Err(Dataset);
    }
    SortIsStable(m.options);
    var options := EncodeSorted(StableSort(m.options));
    if options.Err? {
      return Err(options.error);
    }
    var out := Header(m) + options.value;
    if m.payload != [] {
      out := out + [PAYLOAD_MARKER] + m.payload;
    }
    r := Ok(out);
    assert Header(m) + options.value + PayloadPart(m.payload) == out;
  }

  /** A decoded option region with options read earlier put in front. */
  function Preceded(done: seq<CoapOption>, r: Result<(seq<CoapOption>, Bytes)>): Result<(seq<CoapOption>, Bytes)> {
    if r.Ok? then Ok((done + r.value.0, r.value.1)) else r
  }

  method DecodeMessage(bytes: Bytes) returns (r: Result<CoapMessage>)
    ensures r == Decode(bytes)
  {
    hide DecodeOption;
    if |bytes| < 4 {
      return Err(Dataset);
    }
    if bytes[0] / 64 != 1 {
      return Err(Dataset);
    }
    var tokenLength := bytes[0] % 16;
    if tokenLength > 8 || |bytes| < 4 + tokenLength {
      return Err(Dataset);
    }
    var options, payload, last: U16 := [], [], 0;
    var rest := bytes[4 + tokenLength..];
    ghost var all := DecodeOptions(0, rest);
    assert all.Ok? ==> [] + all.value.0 == all.value.0;
    while rest != []
      invariant all == Preceded(options, DecodeOptions(last, rest))
      invariant payload == []
      decreases |rest|
    {
      if rest[0] == PAYLOAD_MARKER {
        payload := rest[1..];
        assert options + [] == options;
        assert all == Ok((options, payload));
        break;
      }
      var next := DecodeOption(last, rest);
      if next.Err? {
        return Err(next.error);
      }
      var (option, after) := next.value;
      PrecededStep(options, option, DecodeOptions(option.number, after));
      options := options + [option];
      last := option.number;
      rest := after;
    }
    if rest == [] {
      assert DecodeOptions(last, rest) == Ok(([], []));
      assert options + [] == options;
      assert all == Ok((options, payload));
    }
    r := Ok(CoapMessage(TypeOf(bytes[0] / 16 % 4), bytes[1], MessageId(bytes), bytes[4..4 + tokenLength],
                        options, payload));
  }

  lemma PrecededStep(done: seq<CoapOption>, o: CoapOption, r: Result<(seq<CoapOption>, Bytes)>)
    ensures Preceded(done, Preceded([o], r)) == Preceded(done + [o], r)
  {
    if r.Ok? {
      assert done + ([o] + r.value.0) == done + [o] + r.value.0;
    }
  }

  // ----- Uri-Path

  const SLASH: Byte := 0x2f

  function PathSegments(os: seq<CoapOption>): seq<Bytes> {
    if os == [] then [] else Segment(os[0]) + PathSegments(os[1..])
  }

  function Segment(o: CoapOption): seq<Bytes> {
    if o.number == URI_PATH then [o.value] else []
  }

  /** Each segment behind a slash. */
  function JoinPath(segments: seq<Bytes>): Bytes {
    if segments == [] then [] else [SLASH] + segments[0] + JoinPath(segments[1..])
  }

  predicate AllUtf8(segments: seq<Bytes>, utf8: Bytes -> bool) {
    forall i :: 0 <= i < |segments| ==> utf8(segments[i])
  }

  /** The path as UTF-8; `utf8` says which octet strings are. */
  function UriPath(m: CoapMessage, utf8: Bytes -> bool): Result<Option<Bytes>> {
    var segments := PathSegments(m.options);
    if !AllUtf8(segments, utf8) then Err(Dataset)
    else if segments == [] then Ok(None)
    else Ok(Some(JoinPath(segments)))
  }

  /** Reading one more option moves its segment, if it is one, over the cut. */
  lemma SegmentsStep(all: seq<Bytes>, segments: seq<Bytes>, os: seq<CoapOption>, i: nat)
    requires i < |os| && all == segments + PathSegments(os[i..])
    ensures all == segments + Segment(os[i]) + PathSegments(os[i + 1..])
  {
    hide Segment;
    assert os[i..][1..] == os[i + 1..];
  }

  lemma NotUtf8(all: seq<Bytes>, segments: seq<Bytes>, segment: Bytes, rest: seq<Bytes>, utf8: Bytes -> bool)
    requires all == segments + [segment] + rest
    ensures AllUtf8(all, utf8) ==> utf8(segment)
    ensures AllUtf8(segments, utf8) && utf8(segment) ==> AllUtf8(segments + [segment], utf8)
  {
    assert all[|segments|] == segment;
  }

  method ReadUriPath(m: CoapMessage, utf8: Bytes -> bool) returns (r: Result<Option<Bytes>>)
    ensures r == UriPath(m, utf8)
  {
    ghost var all := PathSegments(m.options);
    assert PathSegments(m.options[|m.options|..]) == [];
    var segments: seq<Bytes> := [];
    assert AllUtf8(segments, utf8);
    hide PathSegments, JoinPath, AllUtf8;
    assert m.options[0..] == m.options && all == segments + all;
    for i := 0 to |m.options|
      invariant all == segments + PathSegments(m.options[i..]) && AllUtf8(segments, utf8)
    {
      SegmentsStep(all, segments, m.options, i);
      var option := m.options[i];
      if option.number == URI_PATH {
        NotUtf8(all, segments, option.value, PathSegments(m.options[i + 1..]), utf8);
        if !utf8(option.value) {
          return Err(Dataset);
        }
        segments := segments + [option.value];
      } else {
        assert segments + [] == segments;
      }
    }
    assert all == segments;
    r := if segments == [] then Ok(None) else Ok(Some(JoinPath(segments)));
  }

  /** The pieces between slashes; at least one. */
  function Split(path: Bytes): (r: seq<Bytes>)
    ensures r != []
  {
    if path == [] then [[]]
    else
      var rest := Split(path[1..]);
      if path[0] == SLASH then [[]] + rest else [[path[0]] + rest[0]] + rest[1..]
  }

  /** No piece holds a slash. */
  lemma {:induction false} PiecesWithoutSlash(path: Bytes, i: nat)
    requires i < |Split(path)|
    ensures SLASH !in Split(path)[i]
    decreases |path|
  {
    if path != [] {
      var rest := Split(path[1..]);
      if path[0] == SLASH {
        if i > 0 {
          PiecesWithoutSlash(path[1..], i - 1);
        }
      } else {
        PiecesWithoutSlash(path[1..], i);
      }
    }
  }

  /** A slash with nothing behind it, or another slash. */
  ghost predicate HasGap(path: Bytes) {
    exists i :: 0 <= i < |path| && GapAt(path, i)
  }

  ghost predicate GapAt(path: Bytes, i: nat)
    requires i < |path|
  {
    path[i] == SLASH && (i == |path| - 1 || path[i + 1] == SLASH)
  }

  lemma GapTail(path: Bytes)
    requires path != []
    ensures HasGap(path) <==> GapAt(path, 0) || HasGap(path[1..])
  {
    var tail := path[1..];
    if i :| 0 <= i < |path| && GapAt(path, i) {
      if i > 0 {
        assert GapAt(tail, i - 1);
      }
    }
    if i :| 0 <= i < |tail| && GapAt(tail, i) {
      assert GapAt(path, i + 1);
    }
  }

  lemma {:induction false} EmptyPieces(path: Bytes)
    ensures Split(path)[0] == [] <==> path == [] || path[0] == SLASH
    ensures [] in Split(path)[1..] <==> HasGap(path)
    decreases |path|
  {
    if path != [] {
      var rest := Split(path[1..]);
      EmptyPieces(path[1..]);
      GapTail(path);
      hide Split, HasGap;
      assert [] in rest <==> rest[0] == [] || [] in rest[1..];
      EmptyPiece(path, rest);
    }
  }

  lemma EmptyPiece(path: Bytes, rest: seq<Bytes>)
    requires path != [] && rest == Split(path[1..])
    ensures Split(path)[1..] == if path[0] == SLASH then rest else rest[1..]
    ensures Split(path)[0] == [] <==> path[0] == SLASH
  {
  }

  function WithoutPath(os: seq<CoapOption>): seq<CoapOption> {
    if os == [] then []
    else (if os[0].number != URI_PATH then [os[0]] else []) + WithoutPath(os[1..])
  }

  function PathOptions(segments: seq<Bytes>): seq<CoapOption> {
    if segments == [] then [] else [CoapOption(URI_PATH, segments[0])] + PathOptions(segments[1..])
  }

  function Trimmed(path: Bytes): Bytes {
    if path != [] && path[0] == SLASH then path[1..] else path
  }

  function SetUriPath(m: CoapMessage, path: Bytes): Result<CoapMessage> {
    var kept := m.(options := WithoutPath(m.options));
    if Trimmed(path) == [] then Ok(kept)
    else if [] in Split(Trimmed(path)) then Err(Dataset)
    else Ok(kept.(options := kept.options + PathOptions(Split(Trimmed(path)))))
  }

  /** One slash in front makes no difference. */
  lemma LeadingSlash(m: CoapMessage, path: Bytes)
    requires path == [] || path[0] != SLASH
    ensures SetUriPath(m, [SLASH] + path) == SetUriPath(m, path)
  {
    assert ([SLASH] + path)[1..] == path;
  }

  lemma {:induction false} JoinSplit(path: Bytes)
    ensures JoinPath(Split(path)) == [SLASH] + path
  {
    if path == [] {
      var none: seq<Bytes> := [];
      JoinHead([], none);
      assert [[]] + none == [[]] && JoinPath(none) == [];
    } else {
      JoinSplit(path[1..]);
      JoinSplitStep(path);
    }
  }

  lemma JoinSplitStep(path: Bytes)
    requires path != [] && JoinPath(Split(path[1..])) == [SLASH] + path[1..]
    ensures JoinPath(Split(path)) == [SLASH] + path
  {
    hide JoinPath;
    var rest, tail := Split(path[1..]), path[1..];
    assert path == [path[0]] + tail;
    if path[0] == SLASH {
      JoinEmpty(rest, tail);
    } else {
      JoinLonger(path[0], rest, tail);
    }
  }

  lemma JoinEmpty(rest: seq<Bytes>, tail: Bytes)
    requires JoinPath(rest) == [SLASH] + tail
    ensures JoinPath([[]] + rest) == [SLASH] + ([SLASH] + tail)
  {
    hide JoinPath;
    JoinHead([], rest);
    assert [] + JoinPath(rest) == JoinPath(rest);
  }

  lemma JoinLonger(x: Byte, rest: seq<Bytes>, tail: Bytes)
    requires rest != [] && JoinPath(rest) == [SLASH] + tail
    ensures JoinPath([[x] + rest[0]] + rest[1..]) == [SLASH] + ([x] + tail)
  {
    hide JoinPath;
    var head, more := rest[0], rest[1..];
    assert rest == [head] + more;
    JoinHead(head, more);
    SameTail(SLASH, tail, head + JoinPath(more));
    JoinHead([x] + head, more);
    assert [x] + head + JoinPath(more) == [x] + (head + JoinPath(more));
  }

  lemma SameTail(x: Byte, a: Bytes, b: Bytes)
    requires [x] + a == [x] + b
    ensures a == b
  {
    assert a == ([x] + a)[1..] && b == ([x] + b)[1..];
  }

  lemma JoinHead(s: Bytes, more: seq<Bytes>)
    ensures JoinPath([s] + more) == [SLASH] + (s + JoinPath(more))
  {
    assert ([s] + more)[1..] == more;
  }

  lemma {:induction false} SegmentsAppend(a: seq<CoapOption>, b: seq<CoapOption>)
    ensures PathSegments(a + b) == PathSegments(a) + PathSegments(b)
  {
    hide Segment;
    if a == [] {
      assert a + b == b;
    } else {
      assert (a + b)[1..] == a[1..] + b;
      SegmentsAppend(a[1..], b);
    }
  }

  lemma {:induction false} SegmentsWithout(os: seq<CoapOption>)
    ensures PathSegments(WithoutPath(os)) == []
  {
    if os != [] {
      SegmentsWithout(os[1..]);
      if os[0].number != URI_PATH {
        assert WithoutPath(os)[1..] == WithoutPath(os[1..]);
      } else {
        assert WithoutPath(os) == WithoutPath(os[1..]);
      }
    }
  }

  lemma {:induction false} SegmentsOfOptions(segments: seq<Bytes>)
    ensures PathSegments(PathOptions(segments)) == segments
  {
    if segments != [] {
      SegmentsOfOptions(segments[1..]);
      assert PathOptions(segments)[1..] == PathOptions(segments[1..]);
      assert segments == [segments[0]] + segments[1..];
    }
  }

  lemma SegmentsOfPath(os: seq<CoapOption>, segments: seq<Bytes>)
    ensures PathSegments(WithoutPath(os) + PathOptions(segments)) == segments
  {
    hide PathSegments, WithoutPath, PathOptions;
    SegmentsAppend(WithoutPath(os), PathOptions(segments));
    SegmentsWithout(os);
    SegmentsOfOptions(segments);
    assert [] + segments == segments;
  }

  /** A path that was set is read back, behind one slash; it cannot be set
      exactly when it has an empty segment. */
  lemma UriPathRoundTrip(m: CoapMessage, path: Bytes, utf8: Bytes -> bool)
    requires AllUtf8(Split(Trimmed(path)), utf8)
    ensures var r := SetUriPath(m, path);
            && (r.Err? <==> Trimmed(path) != [] && (Trimmed(path)[0] == SLASH || HasGap(Trimmed(path))))
            && (r.Ok? ==> UriPath(r.value, utf8) == Ok(if Trimmed(path) == [] then None else Some([SLASH] + Trimmed(path))))
  {
    hide Split, WithoutPath, PathOptions, PathSegments, JoinPath;
    var segments := if Trimmed(path) == [] then [] else Split(Trimmed(path));
    var all := Split(Trimmed(path));
    EmptyPieces(Trimmed(path));
    assert [] in all <==> all[0] == [] || [] in all[1..];
    SegmentsOfPath(m.options, segments);
    JoinSplit(Trimmed(path));
    NoOptions(m.options);
  }

  lemma NoOptions(os: seq<CoapOption>)
    ensures WithoutPath(os) + PathOptions([]) == WithoutPath(os)
  {
  }

  lemma {:induction false} SegmentsByNumber(os: seq<CoapOption>)
    ensures PathSegments(os) == PathSegments(WithNumber(os, URI_PATH))
  {
    if os != [] {
      SegmentsByNumber(os[1..]);
      if os[0].number == URI_PATH {
        assert WithNumber(os, URI_PATH)[1..] == WithNumber(os[1..], URI_PATH);
      } else {
        assert WithNumber(os, URI_PATH) == WithNumber(os[1..], URI_PATH);
        assert PathSegments(os) == PathSegments(os[1..]);
      }
    }
  }

  /** The path survives the wire, wherever its options stood. */
  lemma PathSurvivesWire(m: CoapMessage, utf8: Bytes -> bool)
    requires Encodable(m)
    ensures Encode(m).Ok? && Decode(Encode(m).value).Ok?
    ensures UriPath(Decode(Encode(m).value).value, utf8) == UriPath(m, utf8)
  {
    hide Encode, Decode, PathSegments, StableSort, AllUtf8, WithNumber;
    DecodeEncode(m);
    SortIsStable(m.options);
    SegmentsByNumber(m.options);
    SegmentsByNumber(StableSort(m.options));
    assert WithNumber(StableSort(m.options), URI_PATH) == WithNumber(m.options, URI_PATH);
  }
}
