/** The collector's clock: when keep-alives are sent and diagnostic requests
    start and end, against the deadline one interval after the last accepted
    keep-alive.  Time is a natural number and local work takes none. */
module KeepAliveTiming {

  /** What the border agent does with a keep-alive, and after how long. */
  datatype KeepAliveReply = KeepAliveReply(delay: nat, accepted: bool)

  /** A logged keep-alive or request with the deadline in force. */
  datatype Entry = KeepAliveSent(at: nat, deadline: nat) | Requested(start: nat, end: nat, deadline: nat)

  datatype Clock = Clock(interval: nat, timeout: nat, now: nat, last: nat, failed: bool, log: seq<Entry>) {
    function Deadline(): nat { last + interval }
  }

  /** Every diagnostic request follows a keep-alive check at once; some checks
      are followed by none. */
  datatype Move = Check(reply: KeepAliveReply) | CheckAndRequest(reply: KeepAliveReply, wait: nat)

  predicate MayCrossDeadline(c: Clock)
    requires c.last <= c.now
  {
    c.now - c.last + c.timeout >= c.interval
  }

  function CheckStep(c: Clock, reply: KeepAliveReply): (d: Clock)
    requires c.last <= c.now
    ensures d.last <= d.now
  {
    if c.failed || !MayCrossDeadline(c) then c
    else
      var sent := c.(log := c.log + [KeepAliveSent(c.now, c.Deadline())], now := c.now + reply.delay);
      if reply.accepted then sent.(last := sent.now) else sent.(failed := true)
  }

  /** A wait is cut off at the timeout. */
  function Lasts(c: Clock, wait: nat): nat {
    if wait < c.timeout then wait else c.timeout
  }

  function RequestStep(c: Clock, wait: nat): (d: Clock)
    requires c.last <= c.now
    ensures d.last <= d.now
  {
    if c.failed then c
    else
      var end := c.now + Lasts(c, wait);
      c.(log := c.log + [Requested(c.now, end, c.Deadline())], now := end)
  }

  function Step(c: Clock, m: Move): (d: Clock)
    requires c.last <= c.now
    ensures d.last <= d.now
  {
    match m
    case Check(reply) => CheckStep(c, reply)
    case CheckAndRequest(reply, wait) => RequestStep(CheckStep(c, reply), wait)
  }

  function Replay(c: Clock, ms: seq<Move>): (d: Clock)
    requires c.last <= c.now
    ensures d.last <= d.now
  {
    if ms == [] then c else Step(Replay(c, ms[..|ms| - 1]), ms[|ms| - 1])
  }

  lemma ReplaySnoc(c: Clock, ms: seq<Move>, m: Move)
    requires c.last <= c.now
    ensures Replay(c, ms + [m]) == Step(Replay(c, ms), m)
  {
    hide Step;
    assert (ms + [m])[..|ms|] == ms;
  }

  /** A check that was last becomes a check and a request. */
  lemma ReplayRequest(c: Clock, ms: seq<Move>, wait: nat)
    requires c.last <= c.now && ms != [] && ms[|ms| - 1].Check?
    ensures Replay(c, ms[..|ms| - 1] + [CheckAndRequest(ms[|ms| - 1].reply, wait)]) == RequestStep(Replay(c, ms), wait)
  {
    hide CheckStep, RequestStep;
    var before, last := ms[..|ms| - 1], ms[|ms| - 1];
    assert ms == before + [last];
    ReplaySnoc(c, before, last);
    ReplaySnoc(c, before, CheckAndRequest(last.reply, wait));
  }

  predicate InTime(e: Entry) {
    match e
    case KeepAliveSent(at, deadline) => at < deadline
    case Requested(start, end, deadline) => start <= end < deadline
  }

  /** A new collector: its timeout is shorter than the interval. */
  predicate Launched(c: Clock) {
    c.timeout < c.interval && c.last <= c.now && !c.failed && c.log == []
  }

  /** One whose dataset fetch after the petition took less than an interval. */
  predicate Started(c: Clock) {
    Launched(c) && c.now < c.Deadline()
  }

  ghost predicate OnSchedule(c: Clock) {
    && c.timeout < c.interval && c.last <= c.now
    && (!c.failed ==> c.now < c.Deadline())
    && forall e :: e in c.log ==> InTime(e)
  }

  lemma StepOnSchedule(c: Clock, m: Move)
    requires OnSchedule(c)
    ensures OnSchedule(Step(c, m))
  {
    CheckOnSchedule(c, m.reply);
  }

  /** After a check that did not fail a whole wait fits before the deadline. */
  lemma CheckOnSchedule(c: Clock, reply: KeepAliveReply)
    requires OnSchedule(c)
    ensures var d := CheckStep(c, reply); OnSchedule(d) && (!d.failed ==> d.now + d.timeout < d.Deadline())
  {
  }

  /** In every run of a started collector each diagnostic request starts and
      ends strictly before the deadline in force, and each keep-alive is sent
      before it. */
  lemma {:induction false} AlwaysInTime(c: Clock, ms: seq<Move>)
    requires Started(c)
    ensures OnSchedule(Replay(c, ms))
    ensures forall e :: e in Replay(c, ms).log ==> InTime(e)
  {
    hide Step;
    if ms != [] {
      AlwaysInTime(c, ms[..|ms| - 1]);
      StepOnSchedule(Replay(c, ms[..|ms| - 1]), ms[|ms| - 1]);
    }
  }

  /** The premise on the dataset fetch cannot be dropped: the first check keeps
      the schedule exactly when the fetch took less than an interval. */
  lemma FirstCheckInTime(c: Clock, reply: KeepAliveReply)
    requires Launched(c)
    ensures (forall e :: e in CheckStep(c, reply).log ==> InTime(e)) <==> c.now < c.Deadline()
  {
    if c.now >= c.Deadline() {
      assert KeepAliveSent(c.now, c.Deadline()) in CheckStep(c, reply).log;
    }
  }

  /** Nor can the check that the timeout is shorter than the interval: otherwise
      even a request right after an accepted keep-alive can miss the deadline. */
  lemma TimeoutMustBeShorter(c: Clock, reply: KeepAliveReply, wait: nat)
    requires c.last <= c.now < c.Deadline() && !c.failed && c.log == [] && reply.accepted && wait >= c.timeout
    requires MayCrossDeadline(c)
    ensures (forall e :: e in Step(c, CheckAndRequest(reply, wait)).log ==> InTime(e)) <==> c.timeout < c.interval
  {
    var d := CheckStep(c, reply);
    var e := Requested(d.now, d.now + c.timeout, d.Deadline());
    assert e in Step(c, CheckAndRequest(reply, wait)).log;
  }
}
