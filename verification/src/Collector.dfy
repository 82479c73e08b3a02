/** The collector: it primes a node, drains the batch stack, and keeps the
    commissioner session alive while it waits. */
module Collectors {
  import opened Bytes
  import opened KeepAliveTiming
  import opened Splitter

  const PRIME_ATTEMPTS: nat := 4

  /** The n-th diagnostic query's answer and how long it takes, and the n-th
      keep-alive's. */
  datatype World = World(answers: (nat, Batch) -> Result<DiagData>, waits: nat -> nat, keepAlives: nat -> KeepAliveReply)

  /** What the collector makes of an answer: recoverable errors and the timeout
      mean a smaller batch, anything else ends the walk.  An answer that is there
      when the timeout elapses is still taken. */
  function Judge(world: World, timeout: nat, query: nat, batch: Batch): Reply {
    if world.waits(query) > timeout then Silent
    else
      match world.answers(query, batch)
      case Ok(data) => Data(data)
      case Err(Timeout) => Silent
      case Err(Tlv) => Silent
      case Err(Dataset) => Silent
      case Err(InvalidState) => Silent
      case Err(e) => Fatal(e)
  }

  function Judged(world: World, timeout: nat): Replies {
    (query: nat, batch: Batch) => Judge(world, timeout, query, batch)
  }

  /** `data` was fetched from a node that answered the query before `from` with
      `primer` and whose stack was then drained. */
  ghost predicate Fetched(world: World, timeout: nat, tlvs: seq<Flag>, primer: DiagData, from: nat, data: DiagData) {
    && from > 0 && Judge(world, timeout, from - 1, [MAC_ADDR]) == Data(primer)
    && var end := Collect(Judged(world, timeout), tlvs, primer, from);
       end.error.None? && data == end.data
  }

  /** Four attempts in a row, from the given query on, went unanswered. */
  ghost predicate Unanswered(world: World, timeout: nat, from: nat) {
    forall q :: from <= q < from + PRIME_ATTEMPTS ==> Judge(world, timeout, q, [MAC_ADDR]).Silent?
  }

  class Collector {
    const interval: nat
    const nodeTimeout: nat
    var now: nat
    var lastKeepAlive: nat
    var queries: nat
    var keepAlives: nat
    var failed: bool
    ghost var log: seq<Entry>
    ghost var moves: seq<Move>
    ghost const start: Clock

    ghost function View(): Clock
      reads this
    {
      Clock(interval, nodeTimeout, now, lastKeepAlive, failed, log)
    }

    /** What the clock shows is what some run of moves from the start shows, and
        so, by AlwaysInTime, nothing in the log was late if the start was in time. */
    ghost predicate Valid()
      reads this
    {
      Launched(start) && View() == Replay(start, moves)
    }

    /** A diagnostic request may follow: the last move was a check. */
    ghost predicate Checked()
      reads this
    {
      Valid() && !failed && moves != [] && moves[|moves| - 1].Check?
    }

    constructor (keepAliveInterval: nat, timeout: nat, petitionedAt: nat, fetched: nat)
      requires timeout < keepAliveInterval
      ensures Started(start) <==> fetched < keepAliveInterval
      ensures Valid() && moves == [] && !failed && queries == 0
      ensures interval == keepAliveInterval && nodeTimeout == timeout
    {
      interval, nodeTimeout := keepAliveInterval, timeout;
      now, lastKeepAlive, queries, keepAlives, failed := petitionedAt + fetched, petitionedAt, 0, 0, false;
      log, moves := [], [];
      start := Clock(keepAliveInterval, timeout, petitionedAt + fetched, petitionedAt, false, []);
    }

    method KeepAliveBeforeRequest(world: World) returns (r: Result<()>)
      requires Valid() && !failed
      modifies this`now, this`lastKeepAlive, this`keepAlives, this`failed, this`log, this`moves
      ensures Valid() && old(moves) <= moves && failed == r.Err?
      ensures View() == CheckStep(old(View()), world.keepAlives(old(keepAlives)))
      ensures r.Ok? ==> Checked()
    {
      hide Replay;
      var reply := world.keepAlives(keepAlives);
      ReplaySnoc(start, moves, Check(reply));
      moves := moves + [Check(reply)];
      if now - lastKeepAlive + nodeTimeout >= interval {
        log := log + [KeepAliveSent(now, lastKeepAlive + interval)];
        keepAlives := keepAlives + 1;
        now := now + reply.delay;
        if !reply.accepted {
          failed := true;
          return Err(InvalidState);
        }
        lastKeepAlive := now;
      }
      r := Ok(());
    }

    /** One request; `None` asks for a smaller batch. */
    method DiagQuery(world: World, batch: Batch) returns (r: Result<Option<DiagData>>)
      requires Checked()
      modifies this`now, this`queries, this`log, this`moves
      ensures Valid() && queries == old(queries) + 1 && old(moves[..|moves| - 1]) <= moves
      ensures View() == RequestStep(old(View()), world.waits(old(queries)))
      ensures match Judge(world, nodeTimeout, old(queries), batch)
              case Data(data) => r == Ok(Some(data))
              case Silent => r == Ok(None)
              case Fatal(e) => r == Err(e)
    {
      var wait := world.waits(queries);
      var lasts := if wait < nodeTimeout then wait else nodeTimeout;
      hide Replay;
      ReplayRequest(start, moves, wait);
      log := log + [Requested(now, now + lasts, lastKeepAlive + interval)];
      now := now + lasts;
      moves := moves[..|moves| - 1] + [CheckAndRequest(moves[|moves| - 1].reply, wait)];
      var query := queries;
      queries := queries + 1;
      if wait > nodeTimeout {
        return Ok(None);
      }
      match world.answers(query, batch)
      case Ok(data) => r := Ok(Some(data));
      case Err(Timeout) => r := Ok(None);
      case Err(Tlv) => r := Ok(None);
      case Err(Dataset) => r := Ok(None);
      case Err(InvalidState) => r := Ok(None);
      case Err(e) => r := Err(e);
    }

    /** Up to four attempts at the RLOC16 TLV. */
    method Prime(world: World) returns (r: Result<Option<DiagData>>)
      requires Valid() && !failed
      modifies this`now, this`lastKeepAlive, this`keepAlives, this`failed, this`queries, this`log, this`moves
      ensures Valid() && (failed ==> r.Err?)
      ensures queries <= old(queries) + PRIME_ATTEMPTS
      ensures r == Ok(None) ==>
                && queries == old(queries) + PRIME_ATTEMPTS
                && forall q :: old(queries) <= q < queries ==> Judge(world, nodeTimeout, q, [MAC_ADDR]).Silent?
      ensures r.Ok? && r.value.Some? ==>
                queries > old(queries) && Judge(world, nodeTimeout, queries - 1, [MAC_ADDR]) == Data(r.value.value)
    {
      hide Judge, Replay;
      for attempt := 0 to PRIME_ATTEMPTS
        invariant Valid() && !failed && queries == old(queries) + attempt
        invariant forall q :: old(queries) <= q < queries ==> Judge(world, nodeTimeout, q, [MAC_ADDR]).Silent?
      {
        var kept := KeepAliveBeforeRequest(world);
        if kept.Err? {
          return Err(kept.error);
        }
        r := DiagQuery(world, [MAC_ADDR]);
        if r.Err? || r.value.Some? {
          return;
        }
      }
      r := Ok(None);
    }

    /** Takes the top batch off the stack: asks for it, and merges the answer or
        splits the batch. */
    method ServeBatch(world: World, stack: seq<Batch>, merged: DiagData, ghost done: Collected)
      returns (r: Result<(seq<Batch>, DiagData)>, ghost after: Collected)
      requires Valid() && !failed && stack != []
      requires done.error.None? && done.queries == queries && done.data == merged
      modifies this`now, this`lastKeepAlive, this`keepAlives, this`failed, this`queries, this`log, this`moves
      ensures Valid() && (failed ==> r.Err?)
      ensures r.Ok? ==>
                && after.error.None? && after.queries == queries && after.data == r.value.1
                && StackWeight(r.value.0) < StackWeight(stack)
                && Drain(Judged(world, nodeTimeout), stack, done) == Drain(Judged(world, nodeTimeout), r.value.0, after)
    {
      hide Judge, Replay, Launched, Combined;
      ghost var replies := Judged(world, nodeTimeout);
      var rest, batch := stack[..|stack| - 1], stack[|stack| - 1];
      after := done;
      var kept := KeepAliveBeforeRequest(world);
      if kept.Err? {
        return Err(kept.error), after;
      }
      if Combined(batch) == 0 {
        return Ok((rest, merged)), done.(outcomes := done.outcomes + [Skipped(batch)]);
      }
      assert replies(queries, batch) == Judge(world, nodeTimeout, queries, batch);
      var answer := DiagQuery(world, batch);
      if answer.Err? {
        return Err(answer.error), after;
      }
      if answer.value.Some? {
        var more := Merge(merged, answer.value.value);
        return Ok((rest, more)), Collected(done.outcomes + [Answered(done.queries, batch)], queries, more, None);
      }
      if |batch| > 1 {
        var mid := |batch| / 2;
        var halves := rest + [batch[..mid]] + [batch[mid..]];
        assert halves == PushHalves(rest, batch);
        return Ok((halves, merged)), done.(queries := queries);
      }
      LoneFlag(batch);
      return Ok((rest, merged)), Collected(done.outcomes + [Refused(done.queries, batch[0])], queries, merged, None);
    }

    /** A node that is silent four times gives `None`; otherwise the result is the
        primer merged with what draining the stack collected, and no keep-alive
        failed on the way. */
    method CollectDiag(world: World, tlvs: seq<Flag>)
      returns (r: Result<Option<DiagData>>, ghost primer: DiagData, ghost from: nat)
      requires Valid() && !failed
      modifies this`now, this`lastKeepAlive, this`keepAlives, this`failed, this`queries, this`log, this`moves
      ensures Valid() && (failed ==> r.Err?)
      ensures r == Ok(None) ==>
                queries == old(queries) + PRIME_ATTEMPTS && Unanswered(world, nodeTimeout, old(queries))
      ensures r.Ok? && r.value.Some? ==>
                && old(queries) < from <= old(queries) + PRIME_ATTEMPTS
                && Fetched(world, nodeTimeout, tlvs, primer, from, r.value.value)
                && queries == Collect(Judged(world, nodeTimeout), tlvs, primer, from).queries
    {
      hide Judge, Replay, Launched, ChunkStack, Wanted, Drain;
      primer, from := map[], 0;
      var primed := Prime(world);
      if primed.Err? || primed.value.None? {
        return primed, primer, from;
      }
      var merged := Merge(map[], primed.value.value);
      assert merged == primed.value.value;
      primer, from := merged, queries;
      var stack := ChunkStack(Wanted(tlvs));
      ghost var replies := Judged(world, nodeTimeout);
      ghost var done := Collected([], queries, merged, None);
      ghost var all := Drain(replies, stack, done);
      while stack != []
        invariant Valid() && !failed && done.error.None? && done.queries == queries && done.data == merged
        invariant all == Drain(replies, stack, done)
        decreases StackWeight(stack)
      {
        var served;
        served, done := ServeBatch(world, stack, merged, done);
        if served.Err? {
          return Err(served.error), primer, from;
        }
        stack, merged := served.value.0, served.value.1;
      }
      DrainEmpty(replies, done);
      r := Ok(Some(merged));
    }

    /** A walk over any nodes: the leader, then routers, then children. */
    method Walk(world: World, targets: seq<seq<Flag>>) returns (r: Result<seq<Option<DiagData>>>)
      requires Valid() && !failed
      modifies this`now, this`lastKeepAlive, this`keepAlives, this`failed, this`queries, this`log, this`moves
      ensures Valid() && (failed ==> r.Err?)
      ensures Started(start) ==> forall e :: e in log ==> InTime(e)
      ensures r.Ok? ==>
                && |r.value| == |targets|
                && forall i :: 0 <= i < |targets| ==> Found(world, nodeTimeout, targets[i], r.value[i])
    {
      hide Replay, Found, Started, Launched;
      var found: seq<Option<DiagData>> := [];
      for i := 0 to |targets|
        invariant Valid() && !failed && |found| == i
        invariant forall k :: 0 <= k < i ==> Found(world, nodeTimeout, targets[k], found[k])
      {
        if i > 0 {
          var kept := KeepAliveBeforeRequest(world);
          if kept.Err? {
            LoggedInTime(start, moves);
            return Err(kept.error);
          }
        }
        ghost var from := queries;
        var node, primer, primed := CollectDiag(world, targets[i]);
        if node.Err? {
          LoggedInTime(start, moves);
          return Err(node.error);
        }
        FoundBy(world, nodeTimeout, targets[i], node.value, from, primer, primed);
        found := found + [node.value];
      }
      LoggedInTime(start, moves);
      r := Ok(found);
    }
  }

  /** What a walk may report of a node: the data fetched from it, or that it was
      silent. */
  ghost predicate Found(world: World, timeout: nat, tlvs: seq<Flag>, data: Option<DiagData>) {
    match data
    case Some(d) => exists primer, from :: Fetched(world, timeout, tlvs, primer, from, d)
    case None => exists from: nat :: Unanswered(world, timeout, from)
  }

  lemma FoundBy(world: World, timeout: nat, tlvs: seq<Flag>, data: Option<DiagData>, silent: nat, primer: DiagData, from: nat)
    requires match data
             case Some(d) => Fetched(world, timeout, tlvs, primer, from, d)
             case None => Unanswered(world, timeout, silent)
    ensures Found(world, timeout, tlvs, data)
  {
    hide Fetched, Unanswered;
  }

  lemma LoggedInTime(start: Clock, moves: seq<Move>)
    requires Launched(start)
    ensures Started(start) ==> forall e :: e in Replay(start, moves).log ==> InTime(e)
  {
    if Started(start) {
      AlwaysInTime(start, moves);
    }
  }

  /** Petitions, fetches the dataset in `fetched` time and starts the clock; a
      node timeout that is not shorter than the interval is refused. */
  method Start(interval: nat, timeout: nat, petitionedAt: nat, fetched: nat) returns (r: Result<Collector>)
    ensures r.Ok? <==> timeout < interval
    ensures r.Err? ==> r == Err(Configuration)
    ensures r.Ok? ==> fresh(r.value) && r.value.Valid() && !r.value.failed && r.value.queries == 0
    ensures r.Ok? ==> r.value.interval == interval && r.value.nodeTimeout == timeout
    ensures r.Ok? ==> (Started(r.value.start) <==> fetched < interval)
  {
    if timeout >= interval {
      return Err(Configuration);
    }
    var collector := new Collector(interval, timeout, petitionedAt, fetched);
    r := Ok(collector);
  }
}
