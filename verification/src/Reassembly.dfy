/** Handshake fragment reassembly: two parallel vectors that refine a partial
    map from positions to octets. */
module Reassembly {
  import opened Bytes
  import opened Handshake

  const MAX_HANDSHAKE_MESSAGE_LEN: nat := 65536

  // ----- The partial octet map

  datatype Partial =
    | Empty
    | Active(messageType: HandshakeType, messageSeq: U16, length: nat, filled: map<nat, Byte>)

  /** Writes until an octet contradicts one already present; what was written
      before that stays. */
  function Write(filled: map<nat, Byte>, start: nat, data: Bytes): (map<nat, Byte>, bool)
    decreases |data|
  {
    if data == [] then (filled, true) else
    if start in filled && filled[start] != data[0] then (filled, false) else
    Write(filled[start := data[0]], start + 1, data[1..])
  }

  function Admit(st: Partial, h: HandshakeHeader): Result<Partial> {
    match st
    case Empty =>
      if h.length > MAX_HANDSHAKE_MESSAGE_LEN then Err(Error.Crypto) else Ok(Active(h.messageType, h.messageSeq, h.length, map[]))
    case Active(ty, messageSeq, length, _) =>
      if ty == h.messageType && messageSeq == h.messageSeq && length == h.length then Ok(st) else Err(Error.Crypto)
  }

  ghost predicate Complete(length: nat, filled: map<nat, Byte>) {
    forall i: nat :: i < length ==> i in filled
  }

  ghost function Payload(length: nat, filled: map<nat, Byte>): (b: Bytes)
    requires Complete(length, filled)
    ensures |b| == length && forall i :: 0 <= i < length ==> b[i] == filled[i]
  {
    seq(length, i requires 0 <= i < length => filled[i])
  }

  /** One push: the new state, and the message once every octet has arrived. */
  ghost function Push(st: Partial, f: HandshakeFragment): (Partial, Result<Option<HandshakeMessage>>) {
    match Admit(st, f.header)
    case Err(e) => (st, Err(e))
    case Ok(st1) =>
      if f.header.fragmentOffset + |f.fragment| > st1.length then (st1, Err(Error.Crypto)) else
      var (filled, ok) := Write(st1.filled, f.header.fragmentOffset, f.fragment);
      var st2 := st1.(filled := filled);
      if !ok then (st2, Err(Error.Crypto)) else
      (st2, Ok(if Complete(st1.length, filled)
               then Some(HandshakeMessage(st1.messageType, st1.messageSeq, Payload(st1.length, filled)))
               else None))
  }

  // ----- The source's representation

  class HandshakeReassembler {
    var messageType: Option<HandshakeType>
    var messageSeq: Option<U16>
    var bytes: Bytes
    var filled: seq<bool>

    ghost predicate Valid()
      reads this
    {
      && (messageType.Some? <==> messageSeq.Some?)
      && |bytes| == |filled|
    }

    ghost function Filled(): map<nat, Byte>
      requires Valid()
      reads this
    {
      map i: nat | i < |bytes| && filled[i] :: bytes[i]
    }

    ghost function View(): Partial
      requires Valid()
      reads this
    {
      if messageType.None? then Empty else Active(messageType.value, messageSeq.value, |bytes|, Filled())
    }

    constructor ()
      ensures Valid() && View() == Empty
    {
      messageType, messageSeq, bytes, filled := None, None, [], [];
    }

    method InitializeOrValidate(h: HandshakeHeader) returns (ok: bool)
      requires Valid()
      modifies this
      ensures Valid()
      ensures ok <==> Admit(old(View()), h).Ok?
      ensures View() == if ok then Admit(old(View()), h).value else old(View())
    {
      if messageType.None? {
        if h.length > MAX_HANDSHAKE_MESSAGE_LEN {
          return false;
        }
        messageType, messageSeq := Some(h.messageType), Some(h.messageSeq);
        bytes := seq(h.length, _ => 0);
        filled := seq(h.length, _ => false);
        assert Filled() == map[];
        return true;
      }
      return messageType.value == h.messageType && messageSeq.value == h.messageSeq && |bytes| == h.length;
    }

    method WriteOctets(start: nat, data: Bytes) returns (ok: bool)
      requires Valid() && start + |data| <= |bytes|
      modifies this`bytes, this`filled
      ensures Valid() && |bytes| == old(|bytes|)
      ensures (Filled(), ok) == Write(old(Filled()), start, data)
    {
      var i := 0;
      while i < |data|
        invariant Valid() && |bytes| == old(|bytes|) && i <= |data|
        invariant Write(old(Filled()), start, data) == Write(Filled(), start + i, data[i..])
      {
        var position := start + i;
        if filled[position] && bytes[position] != data[i] {
          return false;
        }
        ghost var was := Filled();
        bytes := bytes[position := data[i]];
        filled := filled[position := true];
        assert Filled() == was[position := data[i]];
        assert data[i..][1..] == data[i + 1..];
        i := i + 1;
      }
      return true;
    }

    method AllFilled() returns (all: bool)
      requires Valid()
      ensures all <==> Complete(|bytes|, Filled())
    {
      var i := 0;
      while i < |filled|
        invariant i <= |filled| && forall k :: 0 <= k < i ==> filled[k]
      {
        if !filled[i] {
          assert i !in Filled();
          return false;
        }
        i := i + 1;
      }
      return true;
    }

    /** Adds a fragment and returns the complete message once all octets arrive. */
    method PushFragment(f: HandshakeFragment) returns (r: Result<Option<HandshakeMessage>>)
      requires Valid()
      modifies this
      ensures Valid()
      ensures (View(), r) == Push(old(View()), f)
    {
      hide Write, Complete;
      var ok := InitializeOrValidate(f.header);
      if !ok {
        return Err(Error.Crypto);
      }
      if f.header.fragmentOffset + |f.fragment| > |bytes| {
        return Err(Error.Crypto);
      }
      ok := WriteOctets(f.header.fragmentOffset, f.fragment);
      if !ok {
        return Err(Error.Crypto);
      }
      var all := AllFilled();
      if all {
        assert bytes == Payload(|bytes|, Filled());
        return Ok(Some(HandshakeMessage(messageType.value, messageSeq.value, bytes)));
      }
      return Ok(None);
    }
  }

  // ----- Fragments of one message

  /** `f` carries a slice of `m`, at the position its header names. */
  ghost predicate FragmentOf(m: HandshakeMessage, f: HandshakeFragment) {
    && f.header.messageType == m.messageType && f.header.messageSeq == m.messageSeq
    && f.header.length == |m.payload|
    && f.header.fragmentOffset + |f.fragment| <= |m.payload|
    && f.fragment == m.payload[f.header.fragmentOffset..f.header.fragmentOffset + |f.fragment|]
  }

  ghost predicate Touches(f: HandshakeFragment, i: nat) {
    f.header.fragmentOffset <= i < f.header.fragmentOffset + |f.fragment|
  }

  ghost predicate Touched(fs: seq<HandshakeFragment>, i: nat) {
    exists k :: 0 <= k < |fs| && Touches(fs[k], i)
  }

  /** Every octet of `m` lies in some fragment. */
  ghost predicate Covers(fs: seq<HandshakeFragment>, m: HandshakeMessage) {
    forall i: nat :: i < |m.payload| ==> Touched(fs, i)
  }

  ghost predicate Agrees(filled: map<nat, Byte>, payload: Bytes) {
    forall i: nat :: i in filled ==> i < |payload| && filled[i] == payload[i]
  }

  /** The state after some fragments of `m`: exactly the touched octets, each
      with its value in `m`. */
  ghost predicate Holds(st: Partial, m: HandshakeMessage, fs: seq<HandshakeFragment>) {
    if fs == [] then st == Empty else
    && st.Active? && st.messageType == m.messageType && st.messageSeq == m.messageSeq && st.length == |m.payload|
    && Agrees(st.filled, m.payload)
    && forall i: nat :: i in st.filled <==> Touched(fs, i)
  }

  /** A slice of the payload is written in full over octets that agree with it. */
  lemma {:induction false} WriteSlice(filled: map<nat, Byte>, payload: Bytes, start: nat, end: nat)
    requires start <= end <= |payload| && Agrees(filled, payload)
    ensures var (after, ok) := Write(filled, start, payload[start..end]);
            && ok && Agrees(after, payload)
            && forall i: nat :: i in after <==> i in filled || start <= i < end
    decreases end - start
  {
    if start < end {
      assert payload[start..end][1..] == payload[start + 1..end];
      WriteSlice(filled[start := payload[start]], payload, start + 1, end);
    }
  }

  lemma TouchedSnoc(fs: seq<HandshakeFragment>, f: HandshakeFragment, i: nat)
    ensures Touched(fs + [f], i) <==> Touched(fs, i) || Touches(f, i)
  {
    var gs := fs + [f];
    if Touches(f, i) {
      assert Touches(gs[|fs|], i);
    }
    if k :| 0 <= k < |fs| && Touches(fs[k], i) {
      assert Touches(gs[k], i);
    }
  }

  /** One more fragment of `m` is accepted and adds exactly its octets. */
  lemma AddOwnFragment(st: Partial, m: HandshakeMessage, fs: seq<HandshakeFragment>, f: HandshakeFragment)
    requires |m.payload| <= MAX_HANDSHAKE_MESSAGE_LEN
    requires Holds(st, m, fs) && FragmentOf(m, f)
    ensures Push(st, f).1.Ok? && Holds(Push(st, f).0, m, fs + [f])
  {
    hide Write, Touched;
    var st1 := Admit(st, f.header).value;
    var start := f.header.fragmentOffset;
    WriteSlice(st1.filled, m.payload, start, start + |f.fragment|);
    var after := Push(st, f).0;
    forall i: nat
      ensures i in after.filled <==> Touched(fs + [f], i)
    {
      TouchedSnoc(fs, f, i);
      NothingTouched(i);
    }
  }

  lemma NothingTouched(i: nat)
    ensures !Touched([], i)
  {
  }

  /** ... and completes `m` exactly when all fragments so far cover it. */
  lemma PushOwnFragment(st: Partial, m: HandshakeMessage, fs: seq<HandshakeFragment>, f: HandshakeFragment)
    requires |m.payload| <= MAX_HANDSHAKE_MESSAGE_LEN
    requires Holds(st, m, fs) && FragmentOf(m, f)
    ensures var (after, r) := Push(st, f);
            && Holds(after, m, fs + [f])
            && r == Ok(if Covers(fs + [f], m) then Some(m) else None)
  {
    hide Write, Touched;
    AddOwnFragment(st, m, fs, f);
    var after := Push(st, f).0;
    if Complete(after.length, after.filled) {
      assert Payload(after.length, after.filled) == m.payload;
      forall i: nat | i < |m.payload|
        ensures Touched(fs + [f], i)
      {
        assert i in after.filled;
      }
    }
  }

  // ----- Runs

  ghost function Run(st: Partial, fs: seq<HandshakeFragment>): Partial
  {
    if fs == [] then st else Push(Run(st, fs[..|fs| - 1]), fs[|fs| - 1]).0
  }

  /** The result of push number `k` in a run. */
  ghost function RunResult(fs: seq<HandshakeFragment>, k: nat): Result<Option<HandshakeMessage>>
    requires k < |fs|
  {
    Push(Run(Empty, fs[..k]), fs[k]).1
  }

  lemma {:induction false} RunHolds(m: HandshakeMessage, fs: seq<HandshakeFragment>)
    requires |m.payload| <= MAX_HANDSHAKE_MESSAGE_LEN
    requires forall f :: f in fs ==> FragmentOf(m, f)
    ensures Holds(Run(Empty, fs), m, fs)
  {
    if fs != [] {
      hide Push, Holds;
      var n := |fs| - 1;
      RunHolds(m, fs[..n]);
      PushOwnFragment(Run(Empty, fs[..n]), m, fs[..n], fs[n]);
      assert fs == fs[..n] + [fs[n]];
    } else {
    }
  }

  /** In any order, of any sizes, with any overlaps and duplicates: every push
      succeeds, and returns the message exactly when the fragments cover it. */
  lemma ReassemblyCorrect(m: HandshakeMessage, fs: seq<HandshakeFragment>, k: nat)
    requires |m.payload| <= MAX_HANDSHAKE_MESSAGE_LEN
    requires forall f :: f in fs ==> FragmentOf(m, f)
    requires k < |fs|
    ensures RunResult(fs, k) == Ok(if Covers(fs[..k + 1], m) then Some(m) else None)
  {
    hide Push, Holds, Covers;
    RunHolds(m, fs[..k]);
    PushOwnFragment(Run(Empty, fs[..k]), m, fs[..k], fs[k]);
    assert fs[..k + 1] == fs[..k] + [fs[k]];
  }

  /** A message over the limit is refused at its first fragment. */
  lemma OversizeRefused(m: HandshakeMessage, f: HandshakeFragment)
    requires FragmentOf(m, f)
    ensures Push(Empty, f).1.Err? <==> |m.payload| > MAX_HANDSHAKE_MESSAGE_LEN
  {
    if |m.payload| <= MAX_HANDSHAKE_MESSAGE_LEN {
      PushOwnFragment(Empty, m, [], f);
    }
  }

  // ----- Write-once, for arbitrary fragments and failing pushes

  ghost predicate Extends(later: Partial, earlier: Partial) {
    earlier.Active? ==>
      && later.Active? && later.messageType == earlier.messageType && later.messageSeq == earlier.messageSeq
      && later.length == earlier.length
      && forall i :: i in earlier.filled ==> i in later.filled && later.filled[i] == earlier.filled[i]
  }

  lemma {:induction false} WriteExtends(filled: map<nat, Byte>, start: nat, data: Bytes)
    ensures forall i :: i in filled ==> i in Write(filled, start, data).0 && Write(filled, start, data).0[i] == filled[i]
    decreases |data|
  {
    if data != [] && !(start in filled && filled[start] != data[0]) {
      WriteExtends(filled[start := data[0]], start + 1, data[1..]);
    }
  }

  lemma PushExtends(st: Partial, f: HandshakeFragment)
    ensures Extends(Push(st, f).0, st)
  {
    hide Write;
    if Admit(st, f.header).Ok? {
      WriteExtends(Admit(st, f.header).value.filled, f.header.fragmentOffset, f.fragment);
    }
  }

  /** A filled octet never changes, whatever arrives later. */
  lemma {:induction false} FilledNeverChanges(fs: seq<HandshakeFragment>, j: nat)
    requires j <= |fs|
    ensures Extends(Run(Empty, fs), Run(Empty, fs[..j]))
    decreases |fs|
  {
    hide Push;
    if j < |fs| {
      var n := |fs| - 1;
      FilledNeverChanges(fs[..n], j);
      assert fs[..n][..j] == fs[..j];
      PushExtends(Run(Empty, fs[..n]), fs[n]);
    } else {
      assert fs[..j] == fs;
    }
  }

  // ----- Where every octet came from

  /** `f` belongs to the message of this type, number and length and holds `b` at
      position `i` of it. */
  ghost predicate Supplies(f: HandshakeFragment, ty: HandshakeType, messageSeq: U16, length: nat, i: nat, b: Byte) {
    && f.header.messageType == ty && f.header.messageSeq == messageSeq && f.header.length == length
    && Touches(f, i) && f.fragment[i - f.header.fragmentOffset] == b
  }

  ghost predicate Supplied(fs: seq<HandshakeFragment>, ty: HandshakeType, messageSeq: U16, length: nat, i: nat, b: Byte) {
    exists f :: f in fs && Supplies(f, ty, messageSeq, length, i, b)
  }

  ghost predicate Sourced(st: Partial, fs: seq<HandshakeFragment>) {
    st.Active? ==> forall i :: i in st.filled ==> Supplied(fs, st.messageType, st.messageSeq, st.length, i, st.filled[i])
  }

  lemma {:induction false} WriteSources(filled: map<nat, Byte>, start: nat, data: Bytes, i: nat)
    requires i in Write(filled, start, data).0
    ensures var b := Write(filled, start, data).0[i];
            (i in filled && filled[i] == b) || (start <= i < start + |data| && data[i - start] == b)
    decreases |data|
  {
    if data != [] && !(start in filled && filled[start] != data[0]) {
      WriteSources(filled[start := data[0]], start + 1, data[1..], i);
    }
  }

  lemma PushSourced(st: Partial, fs: seq<HandshakeFragment>, f: HandshakeFragment)
    requires Sourced(st, fs)
    ensures Sourced(Push(st, f).0, fs + [f])
  {
    hide Write, Supplies;
    var after := Push(st, f).0;
    if after.Active? {
      forall i | i in after.filled
        ensures Supplied(fs + [f], after.messageType, after.messageSeq, after.length, i, after.filled[i])
      {
        OctetSourced(st, fs, f, i);
      }
    }
  }

  lemma OctetSourced(st: Partial, fs: seq<HandshakeFragment>, f: HandshakeFragment, i: nat)
    requires Sourced(st, fs) && Push(st, f).0.Active? && i in Push(st, f).0.filled
    ensures var after := Push(st, f).0;
            Supplied(fs + [f], after.messageType, after.messageSeq, after.length, i, after.filled[i])
  {
    hide Write;
    var after := Push(st, f).0;
    assert f in fs + [f];
    if st.Active? && i in st.filled && st.filled[i] == after.filled[i] {
      AdmitKeeps(st, f.header);
      var g :| g in fs && Supplies(g, st.messageType, st.messageSeq, st.length, i, st.filled[i]);
      assert g in fs + [f];
    } else {
      WriteSources(Admit(st, f.header).value.filled, f.header.fragmentOffset, f.fragment, i);
      assert Supplies(f, after.messageType, after.messageSeq, after.length, i, after.filled[i]);
    }
  }

  lemma AdmitKeeps(st: Partial, h: HandshakeHeader)
    ensures st.Active? && Admit(st, h).Ok? ==> Admit(st, h).value == st
  {
  }

  lemma {:induction false} RunSourced(fs: seq<HandshakeFragment>)
    ensures Sourced(Run(Empty, fs), fs)
  {
    if fs != [] {
      hide Push, Sourced;
      var n := |fs| - 1;
      RunSourced(fs[..n]);
      PushSourced(Run(Empty, fs[..n]), fs[..n], fs[n]);
      assert fs == fs[..n] + [fs[n]];
    }
  }

  /** Provenance, for arbitrary fragments and failing pushes: every octet of a
      returned message came at its position in a pushed fragment with that
      message's type, number and length. */
  lemma ReturnedWasPushed(fs: seq<HandshakeFragment>, k: nat, m: HandshakeMessage)
    requires k < |fs| && RunResult(fs, k) == Ok(Some(m))
    ensures forall i: nat :: i < |m.payload| ==>
              Supplied(fs[..k + 1], m.messageType, m.messageSeq, |m.payload|, i, m.payload[i])
  {
    hide Write, Supplied;
    RunSourced(fs[..k + 1]);
    assert fs[..k + 1][..k] == fs[..k] && fs[..k + 1][k] == fs[k];
    assert Run(Empty, fs[..k + 1]) == Push(Run(Empty, fs[..k]), fs[k]).0;
  }

  // ----- Any fragmentation can be reassembled

  function FirstEnd(m: HandshakeMessage, max: nat, offset: nat): nat {
    if offset + max < |m.payload| then offset + max else |m.payload|
  }

  /** The first fragment covers the octets up to its end. */
  lemma FirstFragment(m: HandshakeMessage, max: nat, offset: nat) returns (first: HandshakeFragment)
    requires max > 0 && offset < |m.payload|
    ensures FragmentsFrom(m, max, offset) == [first] + FragmentsFrom(m, max, FirstEnd(m, max, offset))
    ensures FragmentOf(m, first) && |first.fragment| == first.header.fragmentLength <= max
    ensures forall i: nat :: offset <= i < FirstEnd(m, max, offset) ==> Touches(first, i)
  {
    first := FragmentsFrom(m, max, offset)[0];
  }

  lemma {:induction false} FragmentsFromParts(m: HandshakeMessage, max: nat, offset: nat, f: HandshakeFragment)
    requires max > 0 && offset <= |m.payload| && f in FragmentsFrom(m, max, offset)
    ensures FragmentOf(m, f) && |f.fragment| == f.header.fragmentLength <= max
    decreases |m.payload| - offset
  {
    if offset < |m.payload| {
      var first := FirstFragment(m, max, offset);
      hide FragmentsFrom, FragmentOf;
      if f != first {
        FragmentsFromParts(m, max, FirstEnd(m, max, offset), f);
      }
    }
  }

  lemma {:induction false} FragmentsFromTouch(m: HandshakeMessage, max: nat, offset: nat, i: nat)
    requires max > 0 && offset <= i < |m.payload|
    ensures Touched(FragmentsFrom(m, max, offset), i)
    decreases |m.payload| - offset
  {
    hide FragmentsFrom, FragmentOf, Touched;
    var first := FirstFragment(m, max, offset);
    var end := FirstEnd(m, max, offset);
    if i >= end {
      FragmentsFromTouch(m, max, end, i);
    }
    TouchedCons(first, FragmentsFrom(m, max, end), i);
  }

  lemma TouchedCons(f: HandshakeFragment, fs: seq<HandshakeFragment>, i: nat)
    ensures Touches(f, i) || Touched(fs, i) ==> Touched([f] + fs, i)
  {
    var gs := [f] + fs;
    if Touches(f, i) {
      assert Touches(gs[0], i);
    } else if k :| 0 <= k < |fs| && Touches(fs[k], i) {
      assert Touches(gs[k + 1], i);
    }
  }

  lemma NonemptyFragments(m: HandshakeMessage, max: nat)
    requires max > 0
    ensures FragmentsFrom(m, max, 0) == [] ==> m.payload == []
  {
  }

  /** Fragmenting at any size and pushing the fragments in order gives the
      message back, so its transcript octets do not depend on fragmentation. */
  lemma FragmentReassemble(m: HandshakeMessage, max: nat)
    requires 0 < max && |m.payload| <= MAX_HANDSHAKE_MESSAGE_LEN
    ensures Fragment(m, max).Ok?
    ensures var fs := Fragment(m, max).value;
            fs != [] && (forall f :: f in fs ==> FragmentOf(m, f)) && RunResult(fs, |fs| - 1) == Ok(Some(m))
  {
    hide RunResult, Touched, FragmentsFrom;
    var fs := Fragment(m, max).value;
    NonemptyFragments(m, max);
    assert fs[..|fs| - 1 + 1] == fs;
    forall i: nat | i < |m.payload|
      ensures Touched(fs, i)
    {
      FragmentsFromTouch(m, max, 0, i);
    }
    forall f | f in fs
      ensures FragmentOf(m, f)
    {
      if f in FragmentsFrom(m, max, 0) {
        FragmentsFromParts(m, max, 0, f);
      }
    }
    ReassemblyCorrect(m, fs, |fs| - 1);
  }
}
