/** The token bucket as a gate on a burst of records: which get through, and when the peer is cut off. */
module RecordGate {
  import opened Wrappers
  import opened PeerBudget
  import opened Exchange

  /**
   * When a record arrives, when the connection's tick last dropped expired wants before that, and whom the eviction
   * scan would then choose.
   */
  datatype Arrival = Arrival(at: Time, ticked: Time, victim: Option<string>)

  /** Arrival of the i-th record of a burst. */
  type Arrivals = nat -> Arrival

  function Charge(peer: string, a: Arrival): ExchangeOp {
    ExchangeOp(peer, a.victim, Op.Consume(a.at))
  }

  /** The record is refused and the peer is blocked: the connection is dropped. */
  predicate CutOff(budgets: Budgets, peer: string, a: Arrival) {
    !Admits(budgets, Charge(peer, a)) && PeerIsBlocked(Applied(budgets, Charge(peer, a)), peer, a.at)
  }

  function Refused(count: nat): (r: seq<bool>)
    ensures |r| == count && true !in r
  {
    seq(count, _ => false)
  }

  /** Which records of a burst were admitted, and the budgets afterwards. */
  datatype Gate = Gate(admitted: seq<bool>, budgets: Budgets)

  /** Records `from` to `until`; after a cut-off the rest never arrive. */
  function Admitting(budgets: Budgets, peer: string, arrivals: Arrivals, from: nat, until: nat): (g: Gate)
    requires from <= until
    ensures |g.admitted| == until - from
    decreases until - from
  {
    if from == until then Gate([], budgets)
    else
      var e := Charge(peer, arrivals(from));
      if CutOff(budgets, peer, arrivals(from)) then Gate(Refused(until - from), Applied(budgets, e))
      else
        var rest := Admitting(Applied(budgets, e), peer, arrivals, from + 1, until);
        Gate([Admits(budgets, e)] + rest.admitted, rest.budgets)
  }

  lemma GateUnfolds(budgets: Budgets, peer: string, arrivals: Arrivals, from: nat, until: nat, next: Budgets)
    requires from < until && next == Applied(budgets, Charge(peer, arrivals(from)))
    ensures Admitting(budgets, peer, arrivals, from, until)
         == if CutOff(budgets, peer, arrivals(from)) then Gate(Refused(until - from), next)
            else
              var rest := Admitting(next, peer, arrivals, from + 1, until);
              Gate([Admits(budgets, Charge(peer, arrivals(from)))] + rest.admitted, rest.budgets)
  {
  }

  function Count(admitted: seq<bool>): nat {
    if admitted == [] then 0 else (if admitted[0] then 1 else 0) + Count(admitted[1..])
  }

  predicate All(admitted: seq<bool>) {
    false !in admitted
  }

  lemma {:induction false} AllCounted(admitted: seq<bool>)
    ensures Count(admitted) <= |admitted|
    ensures All(admitted) <==> Count(admitted) == |admitted|
  {
    if admitted != [] {
      AllCounted(admitted[1..]);
      assert false in admitted <==> admitted[0] == false || false in admitted[1..];
    }
  }

  lemma {:induction false} NoneCounted(count: nat)
    ensures Count(Refused(count)) == 0
  {
    if count > 0 {
      assert Refused(count)[1..] == Refused(count - 1);
      NoneCounted(count - 1);
    }
  }

  // ---- A burst at one instant

  function Looked(b: Budget, now: Time): Budget {
    Refilled(LadderReset(b.(lastSeen := now), now), now)
  }

  /** What the bucket would give away now. */
  function Tokens(b: Budget, now: Time): nat {
    if Blocked(b, now) then 0 else Looked(b, now).allowance
  }

  /** Refusals in a row at which an unblocked peer is blocked. */
  function Patience(b: Budget): nat {
    if b.consecutiveOverage >= SUSTAINED_OVERAGE_THRESHOLD then 1 else SUSTAINED_OVERAGE_THRESHOLD - b.consecutiveOverage
  }

  lemma GrantedNow(b: Budget, now: Time)
    requires Tokens(b, now) > 0
    ensures
      var v := Consumed(b, now);
      v.granted && !Blocked(v.budget, now) && Tokens(v.budget, now) == Tokens(b, now) - 1 && Patience(v.budget) == SUSTAINED_OVERAGE_THRESHOLD
  {
  }

  lemma RefusedNow(b: Budget, now: Time)
    requires Tokens(b, now) == 0 && !Blocked(b, now) && b.nextBlock > 0
    ensures
      var v := Consumed(b, now);
      && !v.granted
      && (Blocked(v.budget, now) <==> Patience(b) == 1)
      && (Patience(b) > 1 ==> Tokens(v.budget, now) == 0 && Patience(v.budget) == Patience(b) - 1 && v.budget.nextBlock > 0)
  {
  }

  /** Every record arrives at one instant, from a peer that has a budget. */
  ghost predicate AtOnce(budgets: Budgets, peer: string, arrivals: Arrivals, now: Time) {
    peer in budgets && (forall i :: arrivals(i).at == now)
  }

  lemma ChargedKnown(budgets: Budgets, peer: string, a: Arrival)
    requires peer in budgets
    ensures Admits(budgets, Charge(peer, a)) == Consumed(budgets[peer], a.at).granted
    ensures Applied(budgets, Charge(peer, a)) == budgets[peer := Consumed(budgets[peer], a.at).budget]
  {
  }

  /** A burst with no tokens left: nothing gets through, and the peer is blocked once its patience is used up. */
  lemma {:induction false} NoTokens(budgets: Budgets, peer: string, arrivals: Arrivals, from: nat, until: nat, now: Time)
    requires from <= until && AtOnce(budgets, peer, arrivals, now)
    requires !Blocked(budgets[peer], now) && Tokens(budgets[peer], now) == 0 && budgets[peer].nextBlock > 0
    ensures
      var g := Admitting(budgets, peer, arrivals, from, until);
      && Count(g.admitted) == 0
      && peer in g.budgets
      && (Blocked(g.budgets[peer], now) <==> until - from >= Patience(budgets[peer]))
    decreases until - from
  {
    if from < until {
      ChargedKnown(budgets, peer, arrivals(from));
      RefusedNow(budgets[peer], now);
      if CutOff(budgets, peer, arrivals(from)) {
        NoneCounted(until - from);
      } else {
        var next := Applied(budgets, Charge(peer, arrivals(from)));
        NoTokens(next, peer, arrivals, from + 1, until, now);
        CountedInFront(Admits(budgets, Charge(peer, arrivals(from))), Admitting(next, peer, arrivals, from + 1, until).admitted);
      }
    }
  }

  lemma CountedInFront(first: bool, rest: seq<bool>)
    ensures Count([first] + rest) == (if first then 1 else 0) + Count(rest)
  {
    assert ([first] + rest)[1..] == rest;
  }

  /** Of a burst at one instant exactly as many records get through as there are tokens. */
  lemma {:induction false} BurstAtOnce(budgets: Budgets, peer: string, arrivals: Arrivals, from: nat, until: nat, now: Time)
    requires from <= until && AtOnce(budgets, peer, arrivals, now)
    requires !Blocked(budgets[peer], now) && budgets[peer].nextBlock > 0
    ensures
      var g := Admitting(budgets, peer, arrivals, from, until);
      Count(g.admitted) == if until - from < Tokens(budgets[peer], now) then until - from else Tokens(budgets[peer], now)
    decreases until - from
  {
    if from < until {
      if Tokens(budgets[peer], now) == 0 {
        NoTokens(budgets, peer, arrivals, from, until, now);
      } else {
        ChargedKnown(budgets, peer, arrivals(from));
        GrantedNow(budgets[peer], now);
        GrantKeepsLadder(budgets[peer], now);
        var next := Applied(budgets, Charge(peer, arrivals(from)));
        BurstAtOnce(next, peer, arrivals, from + 1, until, now);
        CountedInFront(true, Admitting(next, peer, arrivals, from + 1, until).admitted);
      }
    }
  }

  lemma GrantKeepsLadder(b: Budget, now: Time)
    requires Tokens(b, now) > 0 && b.nextBlock > 0
    ensures Consumed(b, now).budget.nextBlock > 0
  {
  }

  /** A blocked peer gets nothing through. */
  lemma BlockedBurst(budgets: Budgets, peer: string, arrivals: Arrivals, from: nat, until: nat, now: Time)
    requires from < until && AtOnce(budgets, peer, arrivals, now) && Blocked(budgets[peer], now)
    ensures Count(Admitting(budgets, peer, arrivals, from, until).admitted) == 0
  {
    ChargedKnown(budgets, peer, arrivals(from));
    NoneCounted(until - from);
  }

  /** A burst at one instant gets through whole exactly when there are tokens for all of it. */
  lemma WholeBurstExactly(budgets: Budgets, peer: string, arrivals: Arrivals, count: nat, now: Time)
    requires AtOnce(budgets, peer, arrivals, now) && budgets[peer].nextBlock > 0
    ensures All(Admitting(budgets, peer, arrivals, 0, count).admitted) <==> count <= Tokens(budgets[peer], now)
  {
    AllCounted(Admitting(budgets, peer, arrivals, 0, count).admitted);
    if Blocked(budgets[peer], now) {
      if count > 0 {
        BlockedBurst(budgets, peer, arrivals, 0, count, now);
      }
    } else {
      BurstAtOnce(budgets, peer, arrivals, 0, count, now);
    }
  }

  /** While there are tokens they are spent first; then eight refusals in a row block the peer. */
  lemma {:induction false} BurstBlocksExactly(budgets: Budgets, peer: string, arrivals: Arrivals, from: nat, until: nat, now: Time)
    requires from <= until && AtOnce(budgets, peer, arrivals, now)
    requires !Blocked(budgets[peer], now) && Tokens(budgets[peer], now) > 0 && budgets[peer].nextBlock > 0
    ensures
      var g := Admitting(budgets, peer, arrivals, from, until);
      && peer in g.budgets
      && (Blocked(g.budgets[peer], now) <==> until - from >= Tokens(budgets[peer], now) + SUSTAINED_OVERAGE_THRESHOLD)
    decreases until - from
  {
    if from < until {
      ChargedKnown(budgets, peer, arrivals(from));
      GrantedNow(budgets[peer], now);
      GrantKeepsLadder(budgets[peer], now);
      var next := Applied(budgets, Charge(peer, arrivals(from)));
      if Tokens(next[peer], now) == 0 {
        NoTokens(next, peer, arrivals, from + 1, until, now);
      } else {
        BurstBlocksExactly(next, peer, arrivals, from + 1, until, now);
      }
    }
  }

  /** How long a burst at one instant has to be to leave the peer blocked. */
  function BlockLimit(b: Budget, now: Time): nat {
    if Blocked(b, now) then 0
    else if Tokens(b, now) > 0 then Tokens(b, now) + SUSTAINED_OVERAGE_THRESHOLD
    else Patience(b)
  }

  /** A burst at one instant leaves the peer blocked exactly when it is as long as the limit. */
  lemma BlockedAfterExactly(budgets: Budgets, peer: string, arrivals: Arrivals, count: nat, now: Time)
    requires AtOnce(budgets, peer, arrivals, now) && budgets[peer].nextBlock > 0
    ensures PeerIsBlocked(Admitting(budgets, peer, arrivals, 0, count).budgets, peer, now) <==> count >= BlockLimit(budgets[peer], now)
  {
    if Blocked(budgets[peer], now) {
      ChargedKnown(budgets, peer, arrivals(0));
    } else if Tokens(budgets[peer], now) > 0 {
      BurstBlocksExactly(budgets, peer, arrivals, 0, count, now);
    } else {
      NoTokens(budgets, peer, arrivals, 0, count, now);
    }
  }

  /** The admitted records of a burst at one instant are its first ones. */
  lemma {:induction false} FirstOnes(budgets: Budgets, peer: string, arrivals: Arrivals, from: nat, until: nat, now: Time, k: nat)
    requires from <= until && AtOnce(budgets, peer, arrivals, now) && k < until - from
    requires !Blocked(budgets[peer], now) && budgets[peer].nextBlock > 0
    ensures Admitting(budgets, peer, arrivals, from, until).admitted[k] <==> k < Tokens(budgets[peer], now)
    decreases until - from
  {
    ChargedKnown(budgets, peer, arrivals(from));
    if Tokens(budgets[peer], now) == 0 {
      NoTokens(budgets, peer, arrivals, from, until, now);
      NotCounted(Admitting(budgets, peer, arrivals, from, until).admitted, k);
    } else {
      GrantedNow(budgets[peer], now);
      GrantKeepsLadder(budgets[peer], now);
      if k > 0 {
        FirstOnes(Applied(budgets, Charge(peer, arrivals(from))), peer, arrivals, from + 1, until, now, k - 1);
      }
    }
  }

  lemma {:induction false} NotCounted(admitted: seq<bool>, k: nat)
    requires Count(admitted) == 0 && k < |admitted|
    ensures !admitted[k]
  {
    if k > 0 {
      NotCounted(admitted[1..], k - 1);
    }
  }

  /** A peer not tracked yet is charged as if its new budget had been there. */
  lemma EnsuredFirst(budgets: Budgets, peer: string, arrivals: Arrivals, count: nat)
    requires count > 0 && Ensured(budgets, peer, arrivals(0).victim).Some?
    ensures
      var ready := Ensured(budgets, peer, arrivals(0).victim).value;
      peer in ready && Admitting(budgets, peer, arrivals, 0, count) == Admitting(ready, peer, arrivals, 0, count)
  {
  }

  // ---- Records that come after their wants have expired

  /** The tick dropped the wants, which expire at the deadline, before the record came. */
  predicate Late(a: Arrival, deadline: Time) {
    a.ticked >= deadline
  }

  function Penalty(peer: string, a: Arrival): ExchangeOp {
    ExchangeOp(peer, a.victim, Op.Penalise(a.at))
  }

  /** Which records of an answer are taken, and the budgets afterwards; a late one is a violation and ends the connection. */
  function Answering(budgets: Budgets, peer: string, deadline: Time, arrivals: Arrivals, from: nat, until: nat): (g: Gate)
    requires from <= until
    ensures |g.admitted| == until - from
    decreases until - from
  {
    if from == until then Gate([], budgets)
    else
      var a := arrivals(from);
      if Late(a, deadline) then Gate(Refused(until - from), Applied(budgets, Penalty(peer, a)))
      else if CutOff(budgets, peer, a) then Gate(Refused(until - from), Applied(budgets, Charge(peer, a)))
      else
        var rest := Answering(Applied(budgets, Charge(peer, a)), peer, deadline, arrivals, from + 1, until);
        Gate([Admits(budgets, Charge(peer, a))] + rest.admitted, rest.budgets)
  }

  lemma AnsweringUnfolds(budgets: Budgets, peer: string, deadline: Time, arrivals: Arrivals, from: nat, until: nat, next: Budgets)
    requires from < until && !Late(arrivals(from), deadline) && next == Applied(budgets, Charge(peer, arrivals(from)))
    ensures Answering(budgets, peer, deadline, arrivals, from, until)
         == if CutOff(budgets, peer, arrivals(from)) then Gate(Refused(until - from), next)
            else
              var rest := Answering(next, peer, deadline, arrivals, from + 1, until);
              Gate([Admits(budgets, Charge(peer, arrivals(from)))] + rest.admitted, rest.budgets)
  {
  }

  /** What is left of what the bucket admits when the first late record ends it. */
  function Trimmed(admitted: seq<bool>, deadline: Time, arrivals: Arrivals, from: nat): (r: seq<bool>)
    ensures |r| == |admitted|
    decreases admitted
  {
    if admitted == [] then []
    else if Late(arrivals(from), deadline) then Refused(|admitted|)
    else [admitted[0]] + Trimmed(admitted[1..], deadline, arrivals, from + 1)
  }

  lemma TrimmedInFront(first: bool, rest: seq<bool>, deadline: Time, arrivals: Arrivals, from: nat)
    ensures Trimmed([first] + rest, deadline, arrivals, from)
         == if Late(arrivals(from), deadline) then Refused(|rest| + 1) else [first] + Trimmed(rest, deadline, arrivals, from + 1)
  {
    assert ([first] + rest)[1..] == rest;
  }

  lemma {:induction false} TrimmedRefused(count: nat, deadline: Time, arrivals: Arrivals, from: nat)
    ensures Trimmed(Refused(count), deadline, arrivals, from) == Refused(count)
    decreases count
  {
    if count > 0 {
      assert Refused(count) == [false] + Refused(count - 1);
      TrimmedInFront(false, Refused(count - 1), deadline, arrivals, from);
      TrimmedRefused(count - 1, deadline, arrivals, from + 1);
    }
  }

  lemma {:induction false} AnsweringTrims(budgets: Budgets, peer: string, deadline: Time, arrivals: Arrivals, from: nat, until: nat)
    requires from <= until
    ensures Answering(budgets, peer, deadline, arrivals, from, until).admitted
         == Trimmed(Admitting(budgets, peer, arrivals, from, until).admitted, deadline, arrivals, from)
    decreases until - from
  {
    if from < until && !Late(arrivals(from), deadline) {
      var next := Applied(budgets, Charge(peer, arrivals(from)));
      GateUnfolds(budgets, peer, arrivals, from, until, next);
      AnsweringUnfolds(budgets, peer, deadline, arrivals, from, until, next);
      if CutOff(budgets, peer, arrivals(from)) {
        TrimmedRefused(until - from, deadline, arrivals, from);
      } else {
        AnsweringTrims(next, peer, deadline, arrivals, from + 1, until);
        TrimmedInFront(Admits(budgets, Charge(peer, arrivals(from))), Admitting(next, peer, arrivals, from + 1, until).admitted,
                       deadline, arrivals, from);
      }
    }
  }

  lemma {:induction false} TrimmedAt(admitted: seq<bool>, deadline: Time, arrivals: Arrivals, from: nat, k: nat)
    requires k < |admitted|
    ensures Trimmed(admitted, deadline, arrivals, from)[k] <==> admitted[k] && NoneLate(arrivals, deadline, from, from + k + 1)
    decreases admitted
  {
    if k > 0 && !Late(arrivals(from), deadline) {
      TrimmedAt(admitted[1..], deadline, arrivals, from + 1, k - 1);
    }
  }

  /** A record is taken exactly when the bucket admits it and neither it nor one before it is late. */
  lemma TakenExactly(budgets: Budgets, peer: string, deadline: Time, arrivals: Arrivals, from: nat, until: nat, k: nat)
    requires from + k < until
    ensures Answering(budgets, peer, deadline, arrivals, from, until).admitted[k] <==>
      Admitting(budgets, peer, arrivals, from, until).admitted[k] && NoneLate(arrivals, deadline, from, from + k + 1)
  {
    AnsweringTrims(budgets, peer, deadline, arrivals, from, until);
    TrimmedAt(Admitting(budgets, peer, arrivals, from, until).admitted, deadline, arrivals, from, k);
  }

  ghost predicate NoneLate(arrivals: Arrivals, deadline: Time, from: nat, until: nat) {
    forall i :: from <= i < until ==> !Late(arrivals(i), deadline)
  }

  /** An answer is taken whole exactly when the bucket admits all of it and none of it is late. */
  lemma WholeAnswerExactly(budgets: Budgets, peer: string, deadline: Time, arrivals: Arrivals, count: nat)
    ensures All(Answering(budgets, peer, deadline, arrivals, 0, count).admitted) <==>
      All(Admitting(budgets, peer, arrivals, 0, count).admitted) && NoneLate(arrivals, deadline, 0, count)
  {
    var taken := Answering(budgets, peer, deadline, arrivals, 0, count).admitted;
    var admitted := Admitting(budgets, peer, arrivals, 0, count).admitted;
    forall k: nat | k < count
      ensures taken[k] <==> admitted[k] && NoneLate(arrivals, deadline, 0, k + 1)
    {
      TakenExactly(budgets, peer, deadline, arrivals, 0, count, k);
    }
    if All(taken) && count > 0 {
      assert taken[count - 1] in taken;
      forall k: nat | k < count
        ensures admitted[k]
      {
        assert taken[k] in taken;
      }
    }
    if All(admitted) && NoneLate(arrivals, deadline, 0, count) {
      forall k: nat | k < count
        ensures taken[k]
      {
        assert admitted[k] in admitted;
      }
    }
  }

  /** When nothing is late only the bucket decides. */
  lemma {:induction false} InTimeIsAdmitting(budgets: Budgets, peer: string, deadline: Time, arrivals: Arrivals, from: nat, until: nat)
    requires from <= until && NoneLate(arrivals, deadline, from, until)
    ensures Answering(budgets, peer, deadline, arrivals, from, until) == Admitting(budgets, peer, arrivals, from, until)
    decreases until - from
  {
    if from < until {
      InTimeIsAdmitting(Applied(budgets, Charge(peer, arrivals(from))), peer, deadline, arrivals, from + 1, until);
    }
  }

  // ---- How much an answer can bring before the wants expire

  /** Records arrive after the offer and one after the other; the tick runs forward too. */
  ghost predicate Ordered(arrivals: Arrivals, now: Time) {
    && (forall i :: now <= arrivals(i).at && arrivals(i).ticked <= arrivals(i).at)
    && (forall i, j :: i < j ==> arrivals(i).at <= arrivals(j).at && arrivals(i).ticked <= arrivals(j).ticked)
  }

  /** Whatever is not late has arrived by then. */
  ghost predicate TakenBy(arrivals: Arrivals, deadline: Time, end: Time) {
    forall i :: !Late(arrivals(i), deadline) ==> arrivals(i).at <= end
  }

  /** Grants left for the rest of an answer: those in hand, and a new budget's if the peer has none. */
  function Left(budgets: Budgets, peer: string, now: Time, end: Time): nat
    requires now <= end && SoundShare(BudgetOf(budgets, peer), now)
  {
    (if peer in budgets then 0 else BURST_ALLOWANCE) + InHand(BudgetOf(budgets, peer), now, end)
  }

  lemma ChargeSpends(budgets: Budgets, now: Time, peer: string, a: Arrival, end: Time)
    requires SoundShare(BudgetOf(budgets, peer), now) && now <= a.at <= end
    ensures
      var next := Applied(budgets, Charge(peer, a));
      && SoundShare(BudgetOf(next, peer), a.at)
      && (if Admits(budgets, Charge(peer, a)) then 1 else 0) + Left(next, peer, a.at, end) <= Left(budgets, peer, now, end)
  {
    StepSpends(budgets, now, Charge(peer, a), peer, end);
    OwnStepCharges(budgets, Charge(peer, a));
  }

  lemma {:induction false} AnswerSpends(
    budgets: Budgets, peer: string, deadline: Time, arrivals: Arrivals, from: nat, until: nat, now: Time, end: Time)
    requires from <= until && SoundShare(BudgetOf(budgets, peer), now) && now <= end
    requires Ordered(arrivals, 0) && TakenBy(arrivals, deadline, end) && (from < until ==> now <= arrivals(from).at)
    ensures Count(Answering(budgets, peer, deadline, arrivals, from, until).admitted) <= Left(budgets, peer, now, end)
    decreases until - from
  {
    if from < until {
      var a := arrivals(from);
      if Late(a, deadline) || CutOff(budgets, peer, a) {
        NoneCounted(until - from);
      } else {
        var next := Applied(budgets, Charge(peer, a));
        ChargeSpends(budgets, now, peer, a, end);
        AnswerSpends(next, peer, deadline, arrivals, from + 1, until, a.at, end);
        CountedInFront(Admits(budgets, Charge(peer, a)), Answering(next, peer, deadline, arrivals, from + 1, until).admitted);
      }
    }
  }

  /** From a peer with a budget: the first look at the bucket counts a full one at most. */
  lemma KnownAnswerIsSmall(
    budgets: Budgets, peer: string, deadline: Time, arrivals: Arrivals, count: nat, now: Time, end: Time)
    requires count > 0 && peer in budgets && Sound(budgets[peer], now) && now <= end
    requires Ordered(arrivals, now) && TakenBy(arrivals, deadline, end)
    requires !Late(arrivals(0), deadline) && !CutOff(budgets, peer, arrivals(0))
    ensures Count(Answering(budgets, peer, deadline, arrivals, 0, count).admitted)
         <= BURST_ALLOWANCE + CeilDiv(end - now, REFILL_INTERVAL)
  {
    var a := arrivals(0);
    var next := Applied(budgets, Charge(peer, a));
    ChargedKnown(budgets, peer, a);
    LookInHand(budgets[peer], now, a.at, end);
    AnswerSpends(next, peer, deadline, arrivals, 1, count, a.at, end);
    CountedInFront(Admits(budgets, Charge(peer, a)), Answering(next, peer, deadline, arrivals, 1, count).admitted);
    WindowShift(now, a.at, end);
  }

  /** No answer, however long, brings more than a burst and one record for each minute begun until its wants have expired. */
  lemma AnswerIsSmall(budgets: Budgets, peer: string, deadline: Time, arrivals: Arrivals, count: nat, now: Time, end: Time)
    requires SoundShare(BudgetOf(budgets, peer), now) && now <= end
    requires Ordered(arrivals, now) && TakenBy(arrivals, deadline, end)
    ensures Count(Answering(budgets, peer, deadline, arrivals, 0, count).admitted)
         <= BURST_ALLOWANCE + CeilDiv(end - now, REFILL_INTERVAL)
  {
    if peer !in budgets {
      AnswerSpends(budgets, peer, deadline, arrivals, 0, count, now, end);
      FloorBelowCeil(end - now);
    } else if count > 0 && !Late(arrivals(0), deadline) && !CutOff(budgets, peer, arrivals(0)) {
      KnownAnswerIsSmall(budgets, peer, deadline, arrivals, count, now, end);
    } else {
      NoneCounted(count);
    }
  }
}
