/** The adaptive diagnostic splitter: a stack of TLV batches, each answered,
    split in half, or given up.  What the node does with a query is arbitrary. */
module Splitter {
  import opened Bytes
  import opened Bits

  const CHUNK_SIZE: nat := 6
  const MAC_ADDR: nat := 2

  type Flag = nat
  type Batch = seq<Flag>
  type DiagData = map<Flag, Bytes>

  datatype Reply = Data(data: DiagData) | Silent | Fatal(error: Error)

  /** The node's reply to the n-th query, whatever it may be. */
  type Replies = (nat, Batch) -> Reply

  datatype Outcome = Answered(query: nat, batch: Batch) | Refused(query: nat, flag: Flag) | Skipped(batch: Batch)

  datatype Collected = Collected(outcomes: seq<Outcome>, queries: nat, data: DiagData, error: Option<Error>)

  function Combined(batch: Batch): nat {
    if batch == [] then 0 else Or(Combined(batch[..|batch| - 1]), batch[|batch| - 1])
  }

  function Merge(acc: DiagData, more: DiagData): DiagData { acc + more }

  // ----- The stack

  /** How many queries a batch can still cost. */
  function Weight(batch: Batch): nat {
    if batch == [] then 1 else 2 * |batch| - 1
  }

  function StackWeight(stack: seq<Batch>): nat {
    if stack == [] then 0 else StackWeight(stack[..|stack| - 1]) + Weight(stack[|stack| - 1])
  }

  lemma WeightPush(stack: seq<Batch>, batch: Batch)
    ensures StackWeight(stack + [batch]) == StackWeight(stack) + Weight(batch)
  {
    assert (stack + [batch])[..|stack|] == stack;
  }

  /** A refused batch goes back as two halves, the second on top. */
  function PushHalves(stack: seq<Batch>, batch: Batch): (r: seq<Batch>)
    requires |batch| > 1
    ensures StackWeight(r) == StackWeight(stack) + Weight(batch) - 1
  {
    var mid := |batch| / 2;
    WeightPush(stack, batch[..mid]);
    WeightPush(stack + [batch[..mid]], batch[mid..]);
    stack + [batch[..mid]] + [batch[mid..]]
  }

  function Drain(replies: Replies, stack: seq<Batch>, done: Collected): Collected
    decreases StackWeight(stack)
  {
    if stack == [] || done.error.Some? then done
    else
      var rest, batch := stack[..|stack| - 1], stack[|stack| - 1];
      if Combined(batch) == 0 then Drain(replies, rest, done.(outcomes := done.outcomes + [Skipped(batch)]))
      else
        var counted := done.(queries := done.queries + 1);
        match replies(done.queries, batch)
        case Data(data) =>
          Drain(replies, rest, counted.(outcomes := done.outcomes + [Answered(done.queries, batch)], data := Merge(done.data, data)))
        case Silent =>
          if |batch| > 1 then Drain(replies, PushHalves(rest, batch), counted)
          else Drain(replies, rest, counted.(outcomes := done.outcomes + [Refused(done.queries, batch[0])]))
        case Fatal(e) => counted.(error := Some(e))
  }

  lemma DrainEmpty(replies: Replies, done: Collected)
    ensures Drain(replies, [], done) == done
  {
  }

  // ----- The initial stack

  function Wanted(tlvs: seq<Flag>): seq<Flag> {
    if tlvs == [] then []
    else (if tlvs[0] != MAC_ADDR then [tlvs[0]] else []) + Wanted(tlvs[1..])
  }

  /** The chunks, the first of them on top. */
  function ChunkStack(flags: seq<Flag>): seq<Batch> {
    if flags == [] then []
    else if |flags| <= CHUNK_SIZE then [flags]
    else ChunkStack(flags[CHUNK_SIZE..]) + [flags[..CHUNK_SIZE]]
  }

  function Collect(replies: Replies, tlvs: seq<Flag>, primer: DiagData, queries: nat): Collected {
    Drain(replies, ChunkStack(Wanted(tlvs)), Collected([], queries, primer, None))
  }

  // ----- Conservation

  function Flatten(stack: seq<Batch>): multiset<Flag> {
    if stack == [] then multiset{} else Flatten(stack[..|stack| - 1]) + multiset(stack[|stack| - 1])
  }

  function FlagsOf(o: Outcome): multiset<Flag> {
    match o
    case Answered(_, batch) => multiset(batch)
    case Refused(_, flag) => multiset{flag}
    case Skipped(batch) => multiset(batch)
  }

  function Settled(os: seq<Outcome>): multiset<Flag> {
    if os == [] then multiset{} else Settled(os[..|os| - 1]) + FlagsOf(os[|os| - 1])
  }

  lemma FlattenPush(stack: seq<Batch>, batch: Batch)
    ensures Flatten(stack + [batch]) == Flatten(stack) + multiset(batch)
  {
    assert (stack + [batch])[..|stack|] == stack;
  }

  lemma SettledPush(os: seq<Outcome>, o: Outcome)
    ensures Settled(os + [o]) == Settled(os) + FlagsOf(o)
  {
    assert (os + [o])[..|os|] == os;
  }

  lemma FlattenHalves(stack: seq<Batch>, batch: Batch)
    requires |batch| > 1
    ensures Flatten(PushHalves(stack, batch)) == Flatten(stack) + multiset(batch)
  {
    var mid := |batch| / 2;
    FlattenPush(stack, batch[..mid]);
    FlattenPush(stack + [batch[..mid]], batch[mid..]);
    assert batch == batch[..mid] + batch[mid..];
  }

  /** Everything settled or still to settle. */
  function Total(stack: seq<Batch>, os: seq<Outcome>): multiset<Flag> {
    Settled(os) + Flatten(stack)
  }

  lemma TotalSettle(stack: seq<Batch>, os: seq<Outcome>, o: Outcome)
    requires stack != [] && FlagsOf(o) == multiset(stack[|stack| - 1])
    ensures Total(stack[..|stack| - 1], os + [o]) == Total(stack, os)
  {
    SettledPush(os, o);
    hide Settled;
  }

  lemma TotalSplit(stack: seq<Batch>, os: seq<Outcome>)
    requires stack != [] && |stack[|stack| - 1]| > 1
    ensures Total(PushHalves(stack[..|stack| - 1], stack[|stack| - 1]), os) == Total(stack, os)
  {
    hide PushHalves, Settled;
    FlattenHalves(stack[..|stack| - 1], stack[|stack| - 1]);
  }

  /** Whatever the node answers, each flag on the stack is settled exactly once
      more, and the queries are at most the weight of the stack. */
  lemma {:induction false} DrainSettles(replies: Replies, stack: seq<Batch>, done: Collected)
    requires done.error.None?
    ensures var end := Drain(replies, stack, done);
            && (end.error.None? ==> Total([], end.outcomes) == Total(stack, done.outcomes))
            && end.queries <= done.queries + StackWeight(stack)
    decreases StackWeight(stack)
  {
    hide PushHalves, Combined, Merge, Total, Settled, Flatten;
    if stack != [] {
      var rest, batch := stack[..|stack| - 1], stack[|stack| - 1];
      if Combined(batch) == 0 {
        TotalSettle(stack, done.outcomes, Skipped(batch));
        DrainSettles(replies, rest, done.(outcomes := done.outcomes + [Skipped(batch)]));
      } else {
        var counted := done.(queries := done.queries + 1);
        match replies(done.queries, batch)
        case Fatal(_) =>
        case Data(data) =>
          TotalSettle(stack, done.outcomes, Answered(done.queries, batch));
          DrainSettles(replies, rest, counted.(outcomes := done.outcomes + [Answered(done.queries, batch)], data := Merge(done.data, data)));
        case Silent =>
          if |batch| > 1 {
            TotalSplit(stack, done.outcomes);
            DrainSettles(replies, PushHalves(rest, batch), counted);
          } else {
            LoneFlag(batch);
            TotalSettle(stack, done.outcomes, Refused(done.queries, batch[0]));
            DrainSettles(replies, rest, counted.(outcomes := done.outcomes + [Refused(done.queries, batch[0])]));
          }
      }
    }
  }

  // ----- Each outcome is what the node said

  predicate Justified(replies: Replies, o: Outcome) {
    match o
    case Answered(q, batch) => Combined(batch) != 0 && replies(q, batch).Data?
    case Refused(q, flag) => flag != 0 && replies(q, [flag]).Silent?
    case Skipped(batch) => Combined(batch) == 0
  }

  ghost predicate AllJustified(replies: Replies, os: seq<Outcome>) {
    forall o :: o in os ==> Justified(replies, o)
  }

  lemma {:induction false} DrainJustified(replies: Replies, stack: seq<Batch>, done: Collected)
    requires AllJustified(replies, done.outcomes)
    ensures AllJustified(replies, Drain(replies, stack, done).outcomes)
    decreases StackWeight(stack)
  {
    hide PushHalves, Merge;
    if stack != [] && done.error.None? {
      var rest, batch := stack[..|stack| - 1], stack[|stack| - 1];
      if Combined(batch) == 0 {
        assert Justified(replies, Skipped(batch));
        hide Combined;
        DrainJustified(replies, rest, done.(outcomes := done.outcomes + [Skipped(batch)]));
      } else {
        var counted := done.(queries := done.queries + 1);
        match replies(done.queries, batch)
        case Fatal(_) =>
        case Data(data) =>
          assert Justified(replies, Answered(done.queries, batch));
          DrainJustified(replies, rest, counted.(outcomes := done.outcomes + [Answered(done.queries, batch)], data := Merge(done.data, data)));
        case Silent =>
          if |batch| > 1 {
            DrainJustified(replies, PushHalves(rest, batch), counted);
          } else {
            LoneFlag(batch);
            assert Justified(replies, Refused(done.queries, batch[0]));
            DrainJustified(replies, rest, counted.(outcomes := done.outcomes + [Refused(done.queries, batch[0])]));
          }
      }
    }
  }

  // ----- The collected data

  /** Where a value comes from: the latest answered query that carries it, or
      else the primer. */
  function Latest(replies: Replies, primer: DiagData, os: seq<Outcome>, f: Flag): Option<Bytes> {
    if os == [] then if f in primer then Some(primer[f]) else None
    else
      var last := os[|os| - 1];
      if last.Answered? && replies(last.query, last.batch).Data? && f in replies(last.query, last.batch).data
      then Some(replies(last.query, last.batch).data[f])
      else Latest(replies, primer, os[..|os| - 1], f)
  }

  ghost predicate Holds(replies: Replies, primer: DiagData, done: Collected) {
    forall f :: (if f in done.data then Some(done.data[f]) else None) == Latest(replies, primer, done.outcomes, f)
  }

  lemma HoldsPush(replies: Replies, primer: DiagData, done: Collected, o: Outcome, next: Collected)
    requires Holds(replies, primer, done) && next.outcomes == done.outcomes + [o]
    requires match o
             case Answered(q, batch) => replies(q, batch).Data? && next.data == Merge(done.data, replies(q, batch).data)
             case _ => next.data == done.data
    ensures Holds(replies, primer, next)
  {
    assert next.outcomes[..|done.outcomes|] == done.outcomes;
    forall f
      ensures (if f in next.data then Some(next.data[f]) else None) == Latest(replies, primer, next.outcomes, f)
    {
      assert (if f in done.data then Some(done.data[f]) else None) == Latest(replies, primer, done.outcomes, f);
    }
  }

  lemma {:induction false} DrainHolds(replies: Replies, primer: DiagData, stack: seq<Batch>, done: Collected)
    requires Holds(replies, primer, done)
    ensures Holds(replies, primer, Drain(replies, stack, done))
    decreases StackWeight(stack)
  {
    hide PushHalves, Merge, Combined, Holds;
    if stack != [] && done.error.None? {
      var rest, batch := stack[..|stack| - 1], stack[|stack| - 1];
      if Combined(batch) == 0 {
        var next := done.(outcomes := done.outcomes + [Skipped(batch)]);
        HoldsPush(replies, primer, done, Skipped(batch), next);
        DrainHolds(replies, primer, rest, next);
      } else {
        var counted := done.(queries := done.queries + 1);
        SameHolds(replies, primer, done, counted);
        match replies(done.queries, batch)
        case Fatal(e) =>
          SameHolds(replies, primer, counted, counted.(error := Some(e)));
        case Data(data) =>
          var o := Answered(done.queries, batch);
          var next := counted.(outcomes := done.outcomes + [o], data := Merge(done.data, data));
          HoldsPush(replies, primer, counted, o, next);
          DrainHolds(replies, primer, rest, next);
        case Silent =>
          if |batch| > 1 {
            DrainHolds(replies, primer, PushHalves(rest, batch), counted);
          } else {
            LoneFlag(batch);
            var o := Refused(done.queries, batch[0]);
            HoldsPush(replies, primer, counted, o, counted.(outcomes := done.outcomes + [o]));
            DrainHolds(replies, primer, rest, counted.(outcomes := done.outcomes + [o]));
          }
      }
    }
  }

  lemma SameHolds(replies: Replies, primer: DiagData, a: Collected, b: Collected)
    requires Holds(replies, primer, a) && a.outcomes == b.outcomes && a.data == b.data
    ensures Holds(replies, primer, b)
  {
  }

  /** The result holds exactly the primer's values and those of the answered
      queries, the latest winning. */
  lemma CollectedData(replies: Replies, tlvs: seq<Flag>, primer: DiagData, queries: nat, f: Flag)
    ensures var end := Collect(replies, tlvs, primer, queries);
            (if f in end.data then Some(end.data[f]) else None) == Latest(replies, primer, end.outcomes, f)
  {
    hide Drain, ChunkStack, Wanted, Latest;
    var start := Collected([], queries, primer, None);
    StartHolds(replies, primer, queries);
    DrainHolds(replies, primer, ChunkStack(Wanted(tlvs)), start);
  }

  lemma StartHolds(replies: Replies, primer: DiagData, queries: nat)
    ensures Holds(replies, primer, Collected([], queries, primer, None))
  {
  }

  lemma LoneFlag(batch: Batch)
    requires |batch| <= 1 && Combined(batch) != 0
    ensures batch != [] && batch == [batch[0]] && batch[0] != 0
  {
    assert batch[..0] == [];
  }

  /** A query asks for exactly the bits of its flags. */
  lemma {:induction false} CombinedBits(batch: Batch, i: nat)
    ensures Bit(Combined(batch), i) <==> exists f :: f in batch && Bit(f, i)
  {
    if batch == [] {
      ZeroBits(i);
    } else {
      hide Bit, Or;
      var n := |batch| - 1;
      CombinedBits(batch[..n], i);
      OrBit(Combined(batch[..n]), batch[n], i);
      assert batch == batch[..n] + [batch[n]];
      if Bit(batch[n], i) {
        assert batch[n] in batch;
      }
    }
  }

  /** The flags of a stack, the top batch first. */
  function TopDown(stack: seq<Batch>): seq<Flag> {
    if stack == [] then [] else stack[|stack| - 1] + TopDown(stack[..|stack| - 1])
  }

  /** The first chunks asked for hold the flags in the order they were given, six
      to a chunk but for the last. */
  lemma {:induction false} ChunksInOrder(flags: seq<Flag>)
    ensures TopDown(ChunkStack(flags)) == flags
    ensures forall k :: 0 < k < |ChunkStack(flags)| ==> |ChunkStack(flags)[k]| == CHUNK_SIZE
    ensures flags != [] ==> ChunkStack(flags) != [] && 0 < |ChunkStack(flags)[0]| <= CHUNK_SIZE
  {
    if flags == [] {
    } else if |flags| <= CHUNK_SIZE {
      assert [flags][..0] == [] && flags + [] == flags;
    } else {
      var rest, first := flags[CHUNK_SIZE..], flags[..CHUNK_SIZE];
      ChunksInOrder(rest);
      assert ChunkStack(flags)[..|ChunkStack(rest)|] == ChunkStack(rest);
    }
  }

  /** Of the halves of a batch the second is asked for first. */
  lemma HalvesInOrder(stack: seq<Batch>, batch: Batch)
    requires |batch| > 1
    ensures var s := PushHalves(stack, batch);
            && |s| == |stack| + 2 && stack <= s && s[|stack|] + s[|stack| + 1] == batch
            && 0 <= |s[|stack| + 1]| - |s[|stack|]| <= 1
  {
  }

  lemma {:induction false} CombinedZero(batch: Batch, f: Flag)
    requires Combined(batch) == 0 && f in batch
    ensures f == 0
  {
    var n := |batch| - 1;
    OrZero(Combined(batch[..n]), batch[n]);
    if f in batch[..n] {
      CombinedZero(batch[..n], f);
    } else {
      assert batch == batch[..n] + [batch[n]];
    }
  }

  // ----- Chunking

  lemma {:induction false} ChunkFlags(flags: seq<Flag>)
    ensures Flatten(ChunkStack(flags)) == multiset(flags)
  {
    if |flags| > CHUNK_SIZE {
      var rest, first := flags[CHUNK_SIZE..], flags[..CHUNK_SIZE];
      ChunkFlags(rest);
      FlattenPush(ChunkStack(rest), first);
      assert flags == first + rest;
    } else if flags != [] {
      FlattenPush([], flags);
      assert [] + [flags] == [flags];
    }
  }

  lemma {:induction false} ChunkCount(flags: seq<Flag>)
    ensures |ChunkStack(flags)| == (|flags| + CHUNK_SIZE - 1) / CHUNK_SIZE
  {
    if |flags| > CHUNK_SIZE {
      ChunkCount(flags[CHUNK_SIZE..]);
    }
  }

  lemma {:induction false} ChunkWeight(flags: seq<Flag>)
    ensures StackWeight(ChunkStack(flags)) == 2 * |flags| - |ChunkStack(flags)|
  {
    if |flags| > CHUNK_SIZE {
      var rest, first := flags[CHUNK_SIZE..], flags[..CHUNK_SIZE];
      ChunkWeight(rest);
      WeightPush(ChunkStack(rest), first);
    } else if flags != [] {
      WeightPush([], flags);
      assert [] + [flags] == [flags];
    }
  }

  /** The wanted flags keep their order. */
  lemma {:induction false} WantedInOrder(a: seq<Flag>, b: seq<Flag>)
    ensures Wanted(a + b) == Wanted(a) + Wanted(b)
    decreases |a|
  {
    if a == [] {
      assert a + b == b;
    } else {
      assert (a + b)[1..] == a[1..] + b;
      WantedInOrder(a[1..], b);
    }
  }

  lemma {:induction false} WantedFlags(tlvs: seq<Flag>)
    ensures multiset(Wanted(tlvs)) == multiset(tlvs)[MAC_ADDR := 0]
  {
    if tlvs != [] {
      WantedFlags(tlvs[1..]);
      assert tlvs == [tlvs[0]] + tlvs[1..];
    }
  }

  // ----- The main results

  /** For every node behaviour that is not fatal: each requested flag other than
      MAC_ADDR ends, counted with multiplicity, in exactly one answered batch or
      one lone refused query (or, if zero, in a batch that asks for nothing); and
      n flags cost at most 2n queries less one per initial chunk. */
  lemma CollectSettles(replies: Replies, tlvs: seq<Flag>, primer: DiagData, queries: nat)
    ensures var end := Collect(replies, tlvs, primer, queries);
            var n := |Wanted(tlvs)|;
            && AllJustified(replies, end.outcomes)
            && (end.error.None? ==> Settled(end.outcomes) == multiset(tlvs)[MAC_ADDR := 0])
            && end.queries - queries <= 2 * n - (n + CHUNK_SIZE - 1) / CHUNK_SIZE
  {
    hide Drain, ChunkStack, Wanted;
    var flags := Wanted(tlvs);
    var start := Collected([], queries, primer, None);
    ChunkFlags(flags);
    ChunkCount(flags);
    ChunkWeight(flags);
    WantedFlags(tlvs);
    DrainSettles(replies, ChunkStack(flags), start);
    DrainJustified(replies, ChunkStack(flags), start);
    assert Total(ChunkStack(flags), []) == multiset(flags);
  }

  lemma {:induction false} SettledContains(os: seq<Outcome>, o: Outcome, f: Flag)
    requires o in os && f in FlagsOf(o)
    ensures f in Settled(os)
  {
    var n := |os| - 1;
    if o in os[..n] {
      SettledContains(os[..n], o, f);
    } else {
      assert os == os[..n] + [os[n]];
    }
  }

  /** No flag is asked for in vain: with nonzero flags nothing is skipped. */
  lemma NothingSkipped(replies: Replies, tlvs: seq<Flag>, primer: DiagData, queries: nat, o: Outcome)
    requires 0 !in tlvs
    requires var end := Collect(replies, tlvs, primer, queries); end.error.None? && o in end.outcomes
    ensures o.Skipped? ==> o.batch == []
  {
    hide Collect, Combined;
    CollectSettles(replies, tlvs, primer, queries);
    if o.Skipped? && o.batch != [] {
      assert Justified(replies, o);
      CombinedZero(o.batch, o.batch[0]);
      SettledContains(Collect(replies, tlvs, primer, queries).outcomes, o, 0);
      assert false;
    }
  }
}
