/** The per-peer token bucket and its ladder of growing blocks. */
module PeerBudget {
  /** Ticks of the monotonic clock, in nanoseconds. */
  type Time = nat

  const SECOND: nat := 1_000_000_000
  const BURST_ALLOWANCE: nat := 8
  const REFILL_INTERVAL: nat := 60 * SECOND
  const FIRST_BLOCK: nat := 60 * SECOND
  const BLOCK_MULTIPLIER: nat := 5
  const MAXIMUM_BLOCK: nat := 86400 * SECOND
  const SUSTAINED_OVERAGE_THRESHOLD: nat := 8
  const CLEAN_INTERVAL: nat := 3600 * SECOND

  datatype Budget = Budget(
    allowance: nat,
    lastRefill: Time,
    blockedUntil: Time,
    nextBlock: nat,
    consecutiveOverage: nat,
    lastSeen: Time,
    seeded: bool)

  const NEW_BUDGET: Budget := Budget(BURST_ALLOWANCE, 0, 0, FIRST_BLOCK, 0, 0, false)

  function Min(a: nat, b: nat): nat {
    if a < b then a else b
  }

  predicate Blocked(b: Budget, now: Time) {
    now < b.blockedUntil
  }

  predicate Escalated(b: Budget) {
    b.nextBlock != FIRST_BLOCK
  }

  /** An hour has passed since the last block ended. */
  predicate CleanHour(b: Budget, now: Time) {
    now >= b.blockedUntil + CLEAN_INTERVAL
  }

  function LadderReset(b: Budget, now: Time): Budget {
    if CleanHour(b, now) then b.(nextBlock := FIRST_BLOCK) else b
  }

  function Refilled(b: Budget, now: Time): Budget {
    if !b.seeded then b.(lastRefill := now, seeded := true)
    else if now < b.lastRefill + REFILL_INTERVAL then b
    else
      var granted := Min((now - b.lastRefill) / REFILL_INTERVAL, BURST_ALLOWANCE);
      b.(allowance := Min(BURST_ALLOWANCE, b.allowance + granted), lastRefill := now)
  }

  function Penalised(b: Budget, now: Time): Budget {
    var c := LadderReset(b.(lastSeen := now), now);
    c.(blockedUntil := now + c.nextBlock,
       nextBlock := Min(c.nextBlock * BLOCK_MULTIPLIER, MAXIMUM_BLOCK),
       allowance := 0,
       consecutiveOverage := 0)
  }

  datatype Verdict = Verdict(budget: Budget, granted: bool)

  function Consumed(b: Budget, now: Time): Verdict {
    var seen := b.(lastSeen := now);
    if Blocked(seen, now) then Verdict(seen, false)
    else
      var c := Refilled(LadderReset(seen, now), now);
      if c.allowance == 0 then
        var over := c.(consecutiveOverage := c.consecutiveOverage + 1);
        Verdict(if over.consecutiveOverage >= SUSTAINED_OVERAGE_THRESHOLD then Penalised(over, now) else over, false)
      else
        Verdict(c.(consecutiveOverage := 0, allowance := c.allowance - 1), true)
  }

  class PeerAnnounceBudget {
    var allowance: nat
    var lastRefill: Time
    var blockedUntil: Time
    var nextBlock: nat
    var consecutiveOverage: nat
    var lastSeen: Time
    var seeded: bool

    function State(): Budget
      reads this
    {
      Budget(allowance, lastRefill, blockedUntil, nextBlock, consecutiveOverage, lastSeen, seeded)
    }

    constructor ()
      ensures State() == NEW_BUDGET
    {
      allowance, lastRefill, blockedUntil, nextBlock := BURST_ALLOWANCE, 0, 0, FIRST_BLOCK;
      consecutiveOverage, lastSeen, seeded := 0, 0, false;
    }

    method Refill(now: Time)
      requires seeded ==> lastRefill <= now
      modifies this
      ensures State() == Refilled(old(State()), now)
    {
      if !seeded {
        lastRefill, seeded := now, true;
        return;
      }
      var elapsed := now - lastRefill;
      if elapsed < REFILL_INTERVAL {
        return;
      }
      var intervals := elapsed / REFILL_INTERVAL;
      var granted := if intervals < BURST_ALLOWANCE then intervals else BURST_ALLOWANCE;
      allowance := if BURST_ALLOWANCE < allowance + granted then BURST_ALLOWANCE else allowance + granted;
      lastRefill := now;
    }

    method ResetLadderWhenClean(now: Time)
      modifies this
      ensures State() == LadderReset(old(State()), now)
    {
      if nextBlock == FIRST_BLOCK {
        return;
      }
      if now as int - blockedUntil as int >= CLEAN_INTERVAL {
        nextBlock := FIRST_BLOCK;
      }
    }

    method Consume(now: Time) returns (granted: bool)
      requires seeded ==> lastRefill <= now
      modifies this
      ensures Verdict(State(), granted) == Consumed(old(State()), now)
    {
      lastSeen := now;
      if now < blockedUntil {
        return false;
      }
      ResetLadderWhenClean(now);
      Refill(now);
      if allowance == 0 {
        consecutiveOverage := consecutiveOverage + 1;
        if consecutiveOverage >= SUSTAINED_OVERAGE_THRESHOLD {
          Penalise(now);
        }
        return false;
      }
      consecutiveOverage := 0;
      allowance := allowance - 1;
      return true;
    }

    method Penalise(now: Time)
      modifies this
      ensures State() == Penalised(old(State()), now)
    {
      lastSeen := now;
      ResetLadderWhenClean(now);
      blockedUntil := now + nextBlock;
      var widened := nextBlock * BLOCK_MULTIPLIER;
      nextBlock := if widened < MAXIMUM_BLOCK then widened else MAXIMUM_BLOCK;
      allowance := 0;
      consecutiveOverage := 0;
    }
  }

  // ---- Runs

  datatype Op = Consume(at: Time) | Penalise(at: Time)

  predicate InOrder(from: Time, ops: seq<Op>)
    decreases ops
  {
    ops == [] || (from <= ops[0].at && InOrder(ops[0].at, ops[1..]))
  }

  function Step(b: Budget, op: Op): Verdict {
    match op
    case Consume(at) => Consumed(b, at)
    case Penalise(at) => Verdict(Penalised(b, at), false)
  }

  function After(b: Budget, ops: seq<Op>): Budget
    decreases ops
  {
    if ops == [] then b else After(Step(b, ops[0]).budget, ops[1..])
  }

  /** How many of the operations were granted. */
  function Grants(b: Budget, ops: seq<Op>): nat
    decreases ops
  {
    if ops == [] then 0
    else (if Step(b, ops[0]).granted then 1 else 0) + Grants(Step(b, ops[0]).budget, ops[1..])
  }

  /** What every run from a new budget keeps. */
  ghost predicate Sound(b: Budget, now: Time) {
    && b.allowance <= BURST_ALLOWANCE
    && (b.seeded ==> b.lastRefill <= now)
    && FIRST_BLOCK <= b.nextBlock <= MAXIMUM_BLOCK
    && b.blockedUntil <= now + b.nextBlock
  }

  lemma StepSound(b: Budget, now: Time, op: Op)
    requires Sound(b, now) && now <= op.at
    ensures Sound(Step(b, op).budget, op.at)
  {
  }

  lemma {:induction false} RunSound(b: Budget, now: Time, ops: seq<Op>, until: Time)
    requires Sound(b, now) && InOrder(now, ops) && now <= until
    requires forall k :: 0 <= k < |ops| ==> ops[k].at <= until
    ensures Sound(After(b, ops), until)
    decreases ops
  {
    if ops != [] {
      StepSound(b, now, ops[0]);
      RunSound(Step(b, ops[0]).budget, ops[0].at, ops[1..], until);
    }
  }

  // ---- The token bucket

  function CeilDiv(a: nat, b: nat): nat
    requires b > 0
  {
    (a + b - 1) / b
  }

  lemma IntervalsAdd(from: Time, middle: Time, until: Time)
    requires from <= middle <= until
    ensures (middle - from) / REFILL_INTERVAL + (until - middle) / REFILL_INTERVAL <= (until - from) / REFILL_INTERVAL
  {
  }

  /** Once the bucket has been looked at, what is left plus one token a minute bounds every later grant. */
  lemma {:induction false} SeededBound(b: Budget, now: Time, ops: seq<Op>, until: Time)
    requires Sound(b, now) && b.seeded && InOrder(now, ops) && now <= until
    requires forall k :: 0 <= k < |ops| ==> ops[k].at <= until
    ensures Grants(b, ops) <= b.allowance + (until - b.lastRefill) / REFILL_INTERVAL
    decreases ops
  {
    if ops != [] {
      var op := ops[0];
      assert op.at <= until;
      StepSound(b, now, op);
      var next := Step(b, op).budget;
      SeededBound(next, op.at, ops[1..], until);
      if op.Consume? && !Blocked(b, op.at) {
        IntervalsAdd(b.lastRefill, op.at, until);
      }
    }
  }

  lemma WindowShift(now: Time, at: Time, until: Time)
    requires now <= at <= until
    ensures CeilDiv(until - at, REFILL_INTERVAL) <= CeilDiv(until - now, REFILL_INTERVAL)
  {
  }

  lemma PartialInterval(last: Time, at: Time, until: Time)
    requires last <= at < last + REFILL_INTERVAL && at <= until
    ensures (until - last) / REFILL_INTERVAL <= CeilDiv(until - at, REFILL_INTERVAL)
  {
  }

  /** A granted or refused look at an unblocked bucket leaves it refilled to within an interval. */
  lemma LookedBound(b: Budget, now: Time, at: Time, until: Time)
    requires Sound(b, now) && now <= at <= until && !Blocked(b, at)
    ensures
      var v := Consumed(b, at);
      && v.budget.seeded
      && (if v.granted then 1 else 0) + v.budget.allowance + (until - v.budget.lastRefill) / REFILL_INTERVAL
           <= BURST_ALLOWANCE + CeilDiv(until - at, REFILL_INTERVAL)
  {
    var looked := Refilled(LadderReset(b.(lastSeen := at), at), at);
    PartialInterval(looked.lastRefill, at, until);
  }

  /** In any window at most a burst plus one grant for each minute begun. */
  lemma {:induction false} WindowBound(b: Budget, now: Time, ops: seq<Op>, until: Time)
    requires Sound(b, now) && InOrder(now, ops) && now <= until
    requires forall k :: 0 <= k < |ops| ==> ops[k].at <= until
    ensures Grants(b, ops) <= BURST_ALLOWANCE + CeilDiv(until - now, REFILL_INTERVAL)
    decreases ops
  {
    if ops != [] {
      var op := ops[0];
      assert op.at <= until;
      StepSound(b, now, op);
      WindowShift(now, op.at, until);
      var next := Step(b, op).budget;
      if op.Consume? && !Blocked(b, op.at) {
        LookedBound(b, now, op.at, until);
        SeededBound(next, op.at, ops[1..], until);
      } else {
        WindowBound(next, op.at, ops[1..], until);
      }
    }
  }

  /** The bound holds for every window of every run of a new budget. */
  lemma TokenBucketBound(history: seq<Op>, start: Time, ops: seq<Op>, until: Time)
    requires InOrder(0, history) && (forall k :: 0 <= k < |history| ==> history[k].at <= start)
    requires InOrder(start, ops) && start <= until
    requires forall k :: 0 <= k < |ops| ==> ops[k].at <= until
    ensures Grants(After(NEW_BUDGET, history), ops) <= BURST_ALLOWANCE + CeilDiv(until - start, REFILL_INTERVAL)
  {
    RunSound(NEW_BUDGET, 0, history, start);
    WindowBound(After(NEW_BUDGET, history), start, ops, until);
  }

  // ---- The ladder

  /** Whatever happens, a block once given never ends earlier. */
  lemma {:induction false} BlocksOnlyExtend(b: Budget, now: Time, ops: seq<Op>)
    requires Sound(b, now) && InOrder(now, ops)
    ensures After(b, ops).blockedUntil >= b.blockedUntil
    decreases ops
  {
    if ops != [] {
      StepSound(b, now, ops[0]);
      BlocksOnlyExtend(Step(b, ops[0]).budget, ops[0].at, ops[1..]);
    }
  }

  function Pow5(n: nat): nat {
    if n == 0 then 1 else 5 * Pow5(n - 1)
  }

  /** Length of the block that follows n earlier penalties. */
  function Rung(n: nat): nat {
    Min(FIRST_BLOCK * Pow5(n), MAXIMUM_BLOCK)
  }

  lemma RungClimbs(n: nat)
    ensures Min(Rung(n) * BLOCK_MULTIPLIER, MAXIMUM_BLOCK) == Rung(n + 1)
  {
  }

  /** The operation penalises, outright or by sustained overage. */
  predicate Penalises(b: Budget, op: Op) {
    op.Penalise?
    || (!Blocked(b, op.at)
        && Refilled(LadderReset(b.(lastSeen := op.at), op.at), op.at).allowance == 0
        && b.consecutiveOverage + 1 >= SUSTAINED_OVERAGE_THRESHOLD)
  }

  function Penalties(b: Budget, ops: seq<Op>): nat
    decreases ops
  {
    if ops == [] then 0
    else (if Penalises(b, ops[0]) then 1 else 0) + Penalties(Step(b, ops[0]).budget, ops[1..])
  }

  /** After the first penalty no operation finds a clean hour behind it. */
  ghost predicate NoCleanHour(b: Budget, ops: seq<Op>)
    decreases ops
  {
    ops == []
    || ((Escalated(b) ==> !CleanHour(b, ops[0].at)) && NoCleanHour(Step(b, ops[0]).budget, ops[1..]))
  }

  lemma {:induction false} LadderPosition(b: Budget, ops: seq<Op>, n: nat)
    requires b.nextBlock == Rung(n) && NoCleanHour(b, ops)
    ensures After(b, ops).nextBlock == Rung(n + Penalties(b, ops))
    decreases ops
  {
    if ops != [] {
      RungClimbs(n);
      LadderPosition(Step(b, ops[0]).budget, ops[1..], if Penalises(b, ops[0]) then n + 1 else n);
    }
  }

  /** With no clean hour between, the n-th penalty blocks for one minute times five to the n - 1, at most a day. */
  lemma NthPenaltyLength(history: seq<Op>, op: Op)
    requires NoCleanHour(NEW_BUDGET, history + [op])
    requires Penalises(After(NEW_BUDGET, history), op)
    ensures Step(After(NEW_BUDGET, history), op).budget.blockedUntil == op.at + Rung(Penalties(NEW_BUDGET, history))
  {
    NoCleanHourSplit(NEW_BUDGET, history, op);
    LadderPosition(NEW_BUDGET, history, 0);
  }

  lemma {:induction false} NoCleanHourSplit(b: Budget, history: seq<Op>, op: Op)
    requires NoCleanHour(b, history + [op])
    ensures NoCleanHour(b, history)
    ensures Escalated(After(b, history)) ==> !CleanHour(After(b, history), op.at)
    decreases history
  {
    if history == [] {
      assert (history + [op])[0] == op;
    } else {
      assert (history + [op])[1..] == history[1..] + [op];
      NoCleanHourSplit(Step(b, history[0]).budget, history[1..], op);
    }
  }
}
