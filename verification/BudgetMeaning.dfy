/** What a budget gives and when, in seconds and records: the other side of the bounds on what it gives at most. */
module BudgetMeaning {
  import opened Wrappers
  import opened PeerBudget
  import opened Exchange

  const MINUTE: nat := 60 * 1_000_000_000
  const HOUR: nat := 60 * MINUTE
  const DAY: nat := 24 * HOUR

  function Least(a: nat, b: nat): nat {
    if a <= b then a else b
  }

  /** Tokens at a time: one more for each whole minute since the last refill, eight at most; none are made before the first look. */
  function TokensAt(b: Budget, now: Time): nat
    requires b.seeded ==> b.lastRefill <= now
  {
    if b.seeded then Least(8, b.allowance + (now - b.lastRefill) / MINUTE) else b.allowance
  }

  /** How long the next block lasts: a minute again after a clean hour, otherwise the rung reached. */
  function NextBlock(b: Budget, now: Time): nat {
    if now >= b.blockedUntil + HOUR then MINUTE else b.nextBlock
  }

  /**
   * A look at the bucket of a peer that is not blocked: granted exactly when there is a token, which is spent; the eighth
   * refusal in a row is a penalty. A refill starts the next minute at the look, whatever part of one had gone by.
   */
  lemma ConsumeMeaning(b: Budget, now: Time)
    requires Sound(b, now) && now >= b.blockedUntil
    ensures
      var v := Consumed(b, now);
      && (v.granted <==> TokensAt(b, now) > 0)
      && (v.granted ==> v.budget.consecutiveOverage == 0 && TokensAt(v.budget, now) == TokensAt(b, now) - 1 && v.budget.blockedUntil == b.blockedUntil)
      && (!v.granted && b.consecutiveOverage + 1 < 8 ==>
            v.budget.consecutiveOverage == b.consecutiveOverage + 1 && v.budget.blockedUntil == b.blockedUntil)
      && (!v.granted && b.consecutiveOverage + 1 >= 8 ==>
            v.budget.consecutiveOverage == 0 && v.budget.blockedUntil == now + NextBlock(b, now))
      && (v.granted || b.consecutiveOverage + 1 < 8 ==> v.budget.nextBlock == NextBlock(b, now))
      && (!v.granted && b.consecutiveOverage + 1 >= 8 ==> v.budget.nextBlock == Least(5 * NextBlock(b, now), DAY))
      && v.budget.lastRefill == (if !b.seeded || now >= b.lastRefill + MINUTE then now else b.lastRefill)
      && v.budget.seeded && v.budget.lastSeen == now
  {
  }

  /** A blocked peer gets nothing, and asking costs it nothing. */
  lemma BlockedMeaning(b: Budget, now: Time)
    requires now < b.blockedUntil
    ensures !Consumed(b, now).granted
    ensures Consumed(b, now).budget == Budget(b.allowance, b.lastRefill, b.blockedUntil, b.nextBlock, b.consecutiveOverage, now, b.seeded)
  {
  }

  /** A penalty empties the bucket and blocks for the rung reached; the next rung is five times as long, a day at most. */
  lemma PenaltyMeaning(b: Budget, now: Time)
    ensures Penalised(b, now)
         == Budget(0, b.lastRefill, now + NextBlock(b, now), Least(5 * NextBlock(b, now), DAY), 0, now, b.seeded)
  {
  }

  // ---- One a minute gets through

  /** Looks at the bucket, each a minute or more after the one before. */
  ghost predicate Patient(ops: seq<Op>, from: Time)
    decreases ops
  {
    ops == [] || (ops[0].Consume? && ops[0].at >= from && Patient(ops[1..], ops[0].at + MINUTE))
  }

  /** There is a token now, or there will be when the next minute is over. */
  ghost predicate Provided(b: Budget, from: Time) {
    && b.blockedUntil <= from && (b.seeded ==> b.lastRefill <= from)
    && (b.allowance > 0 || (b.seeded && b.lastRefill + MINUTE <= from))
  }

  lemma ProvidedStays(b: Budget, from: Time, at: Time)
    requires Sound(b, from) && Provided(b, from) && from <= at
    ensures
      var v := Consumed(b, at);
      v.granted && Sound(v.budget, at + MINUTE) && Provided(v.budget, at + MINUTE)
  {
    StepSound(b, from, Op.Consume(at));
    if b.seeded && b.allowance == 0 {
      WholeMinutes(b.lastRefill, at);
    }
  }

  lemma WholeMinutes(last: Time, at: Time)
    requires last + MINUTE <= at
    ensures (at - last) / MINUTE >= 1
  {
  }

  /** A peer that is provided for and sends no more than one record a minute is never refused. */
  lemma {:induction false} PatientIsNeverRefused(b: Budget, from: Time, ops: seq<Op>)
    requires Sound(b, from) && Provided(b, from) && Patient(ops, from)
    ensures Grants(b, ops) == |ops|
    decreases ops
  {
    if ops != [] {
      ProvidedStays(b, from, ops[0].at);
      PatientIsNeverRefused(Step(b, ops[0]).budget, ops[0].at + MINUTE, ops[1..]);
    }
  }

  /** So is a peer not seen before. */
  lemma NewPatientPeer(from: Time, ops: seq<Op>)
    requires Patient(ops, from)
    ensures Grants(NEW_BUDGET, ops) == |ops|
  {
    PatientIsNeverRefused(NEW_BUDGET, from, ops);
  }

  /** Once a block has ended a peer whose bucket was ever looked at is served again, one record a minute. */
  lemma ServedAfterBlock(b: Budget, now: Time, ops: seq<Op>)
    requires Sound(b, now) && b.seeded
    requires Patient(ops, Penalised(b, now).blockedUntil)
    ensures Grants(Penalised(b, now), ops) == |ops|
  {
    StepSound(b, now, Op.Penalise(now));
    PatientIsNeverRefused(Penalised(b, now), Penalised(b, now).blockedUntil, ops);
  }

  /**
   * A peer penalised before its bucket was ever looked at is refused once more when its block ends: its minutes only
   * count from that look.
   */
  lemma UnseenPeerWaitsLonger(now: Time)
    ensures
      var b := Penalised(NEW_BUDGET, now);
      var look := Consumed(b, b.blockedUntil);
      && !look.granted && look.budget.blockedUntil == b.blockedUntil
      && !Consumed(look.budget, b.blockedUntil + MINUTE - 1).granted
      && Consumed(look.budget, b.blockedUntil + MINUTE).granted
  {
  }

  // ---- Who is evicted

  /** Penalised and not clean for an hour since. */
  predicate Suspect(b: Budget) {
    b.nextBlock > MINUTE
  }

  lemma PenaltyMakesSuspect(b: Budget, now: Time)
    requires Sound(b, now)
    ensures Suspect(Penalised(b, now)) && !Suspect(NEW_BUDGET)
  {
  }

  /** The victim is not blocked, is suspect only if all others not blocked are, and among its like was seen longest ago. */
  lemma VictimMeaning(budgets: Budgets, now: Time, victim: Option<string>)
    requires TableSound(budgets, now)
    ensures Chosen(budgets, now, victim) <==>
      match victim
      case None => forall p :: p in budgets ==> now < budgets[p].blockedUntil
      case Some(v) =>
        && v in budgets && budgets[v].blockedUntil <= now
        && forall p :: p in budgets && budgets[p].blockedUntil <= now ==>
             && (Suspect(budgets[v]) ==> Suspect(budgets[p]))
             && ((Suspect(budgets[v]) <==> Suspect(budgets[p])) ==> budgets[v].lastSeen <= budgets[p].lastSeen)
  {
    if victim.Some? && victim.value in budgets {
      forall p | p in budgets
        ensures EvictedBefore(budgets[p], budgets[victim.value]) <==>
          || (!Suspect(budgets[p]) && Suspect(budgets[victim.value]))
          || ((Suspect(budgets[p]) <==> Suspect(budgets[victim.value])) && budgets[p].lastSeen < budgets[victim.value].lastSeen)
      {
        assert Sound(budgets[p], now) && Sound(budgets[victim.value], now);
      }
    }
  }
}
