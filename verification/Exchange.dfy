/** What a node keeps about its peers: their budgets, who is evicted for whom, and the running counts. */
module Exchange {
  import opened Wrappers
  import opened Bytes
  import opened Announces
  import opened WireCodec
  import opened Receiver
  import opened PeerBudget
  import opened Gossip

  const MAXIMUM_TRACKED_PEERS: nat := 512

  type Budgets = map<string, Budget>

  // ---- Eviction

  /** Clean before escalated, then whoever was seen longer ago. */
  predicate EvictedBefore(a: Budget, b: Budget) {
    if Escalated(a) != Escalated(b) then !Escalated(a) else a.lastSeen < b.lastSeen
  }

  /** An unblocked peer with nobody unblocked to evict before it; none only when everybody is blocked. */
  ghost predicate Chosen(budgets: Budgets, now: Time, victim: Option<string>) {
    match victim
    case None => forall p :: p in budgets ==> Blocked(budgets[p], now)
    case Some(v) =>
      && v in budgets && !Blocked(budgets[v], now)
      && forall p :: p in budgets && !Blocked(budgets[p], now) ==> !EvictedBefore(budgets[p], budgets[v])
  }

  predicate MustEvict(budgets: Budgets, peer: string) {
    peer !in budgets && |budgets| >= MAXIMUM_TRACKED_PEERS
  }

  /** The table with a budget for the peer, unless there is no room and nobody to evict. */
  function Ensured(budgets: Budgets, peer: string, victim: Option<string>): Option<Budgets> {
    if peer in budgets then Some(budgets)
    else if |budgets| < MAXIMUM_TRACKED_PEERS then Some(budgets[peer := NEW_BUDGET])
    else
      match victim
      case None => None
      case Some(v) => Some((budgets - {v})[peer := NEW_BUDGET])
  }

  // ---- One call

  datatype ExchangeOp = ExchangeOp(peer: string, victim: Option<string>, op: Op)

  function Applied(budgets: Budgets, e: ExchangeOp): Budgets {
    match Ensured(budgets, e.peer, e.victim)
    case None => budgets
    case Some(ready) => ready[e.peer := Step(ready[e.peer], e.op).budget]
  }

  predicate Admits(budgets: Budgets, e: ExchangeOp) {
    match Ensured(budgets, e.peer, e.victim)
    case None => false
    case Some(ready) => Step(ready[e.peer], e.op).granted
  }

  datatype Counts = Counts(
    recordsReceived: nat,
    recordsAccepted: nat,
    recordsRejected: nat,
    peersThrottled: nat,
    recordsSent: nat,
    protocolViolations: nat)

  predicate PeerIsBlocked(budgets: Budgets, peer: string, now: Time) {
    peer in budgets && Blocked(budgets[peer], now)
  }

  class AnnounceExchange {
    const receiver: AnnounceReceiver
    var budgets: Budgets
    var status: Counts

    /** Every received record was accepted, rejected or throttled. */
    ghost predicate Valid()
      reads this
    {
      && |budgets| <= MAXIMUM_TRACKED_PEERS
      && status.recordsReceived == status.recordsAccepted + status.recordsRejected + status.peersThrottled
    }

    constructor (receiver: AnnounceReceiver)
      ensures Valid() && this.receiver == receiver && budgets == map[]
    {
      this.receiver := receiver;
      budgets := map[];
      status := Counts(0, 0, 0, 0, 0, 0);
    }

    /** Scans every budget, in whatever order, for the one to evict. */
    method ChooseVictim(now: Time) returns (victim: Option<string>)
      ensures Chosen(budgets, now, victim)
    {
      victim := None;
      var left := budgets.Keys;
      while left != {}
        invariant left <= budgets.Keys
        invariant victim.Some? ==> victim.value in budgets && !Blocked(budgets[victim.value], now)
        invariant forall p :: p in budgets && p !in left && !Blocked(budgets[p], now) ==>
          victim.Some? && !EvictedBefore(budgets[p], budgets[victim.value])
        decreases left
      {
        var candidate :| candidate in left;
        left := left - {candidate};
        var b := budgets[candidate];
        if b.blockedUntil > now {
          continue;
        }
        if victim.None? {
          victim := Some(candidate);
          continue;
        }
        var chosen := budgets[victim.value];
        if !Escalated(b) != !Escalated(chosen) {
          if !Escalated(b) {
            victim := Some(candidate);
          }
          continue;
        }
        if b.lastSeen < chosen.lastSeen {
          victim := Some(candidate);
        }
      }
    }

    method EnsureBudget(peer: string, now: Time) returns (ok: bool, ghost victim: Option<string>)
      requires |budgets| <= MAXIMUM_TRACKED_PEERS
      modifies this`budgets
      ensures MustEvict(old(budgets), peer) ==> Chosen(old(budgets), now, victim)
      ensures ok == Ensured(old(budgets), peer, victim).Some?
      ensures budgets == if ok then Ensured(old(budgets), peer, victim).value else old(budgets)
      ensures ok ==> peer in budgets
      ensures |budgets| <= MAXIMUM_TRACKED_PEERS
    {
      victim := None;
      if peer in budgets {
        return true, None;
      }
      if |budgets| >= MAXIMUM_TRACKED_PEERS {
        var least := ChooseVictim(now);
        victim := least;
        if least.None? {
          return false, victim;
        }
        EvictionFits(budgets, least.value, peer);
        budgets := budgets - {least.value};
      } else {
        InsertedSize(budgets, peer, NEW_BUDGET);
      }
      budgets := budgets[peer := NEW_BUDGET];
      return true, victim;
    }

    method Penalise(peer: string, now: Time) returns (ghost victim: Option<string>)
      requires Valid()
      modifies this
      ensures Valid()
      ensures MustEvict(old(budgets), peer) ==> Chosen(old(budgets), now, victim)
      ensures budgets == Applied(old(budgets), ExchangeOp(peer, victim, Op.Penalise(now)))
      ensures status == old(status).(protocolViolations := old(status).protocolViolations + 1)
    {
      var ok, v := EnsureBudget(peer, now);
      victim := v;
      if ok {
        InsertedSize(budgets, peer, Penalised(budgets[peer], now));
        budgets := budgets[peer := Penalised(budgets[peer], now)];
      }
      status := status.(protocolViolations := status.protocolViolations + 1);
    }

    method Ingest(peer: string, record: seq<byte>, now: Time) returns (accepted: bool, ghost victim: Option<string>)
      requires Valid()
      modifies this, receiver
      ensures Valid()
      ensures MustEvict(old(budgets), peer) ==> Chosen(old(budgets), now, victim)
      ensures
        var e := ExchangeOp(peer, victim, Op.Consume(now));
        var outcome := Accepted(receiver.trust, old(receiver.retained), record);
        && budgets == Applied(old(budgets), e)
        && receiver.retained == (if Admits(old(budgets), e) then outcome.retained else old(receiver.retained))
        && accepted == (Admits(old(budgets), e) && outcome.result.Ok?)
        && status.peersThrottled == old(status).peersThrottled + (if Admits(old(budgets), e) then 0 else 1)
        && status.recordsAccepted == old(status).recordsAccepted + (if accepted then 1 else 0)
      ensures status.recordsReceived == old(status).recordsReceived + 1
    {
      status := status.(recordsReceived := status.recordsReceived + 1);
      var ok, v := EnsureBudget(peer, now);
      victim := v;
      if !ok {
        status := status.(peersThrottled := status.peersThrottled + 1);
        return false, victim;
      }
      var verdict := Consumed(budgets[peer], now);
      InsertedSize(budgets, peer, verdict.budget);
      budgets := budgets[peer := verdict.budget];
      if !verdict.granted {
        status := status.(peersThrottled := status.peersThrottled + 1);
        return false, victim;
      }
      var r := receiver.Accept(record);
      if r.Err? {
        status := status.(recordsRejected := status.recordsRejected + 1);
        return false, victim;
      }
      status := status.(recordsAccepted := status.recordsAccepted + 1);
      return true, victim;
    }

    method PeerBlocked(peer: string, now: Time) returns (blocked: bool)
      ensures blocked == PeerIsBlocked(budgets, peer, now)
    {
      if peer !in budgets {
        return false;
      }
      return Blocked(budgets[peer], now);
    }

    method MissingFrom(offered: seq<AnnounceSummary>) returns (wanted: seq<AnnounceSummary>)
      ensures wanted == Missing(receiver.trust, receiver.retained, offered, MAXIMUM_ENTRIES)
    {
      wanted := [];
      var index := 0;
      while index < |offered| && |wanted| < MAXIMUM_ENTRIES
        invariant index <= |offered| && |wanted| <= MAXIMUM_ENTRIES
        invariant Missing(receiver.trust, receiver.retained, offered, MAXIMUM_ENTRIES)
               == wanted + Missing(receiver.trust, receiver.retained, offered[index..], MAXIMUM_ENTRIES - |wanted|)
      {
        var summary := offered[index];
        assert offered[index..][1..] == offered[index + 1..];
        if WouldAccept(receiver.trust, receiver.retained, summary.publisher, summary.modName, summary.version) {
          wanted := wanted + [summary];
        }
        index := index + 1;
      }
    }

    method Serve(wanted: AnnounceSummary) returns (record: Option<seq<byte>>)
      requires Valid()
      modifies this`status
      ensures Valid()
      ensures record == RecordFor(receiver.retained, wanted.publisher, wanted.modName)
      ensures status == old(status).(recordsSent := old(status).recordsSent + if record.Some? then 1 else 0)
    {
      record := RecordFor(receiver.retained, wanted.publisher, wanted.modName);
      if record.Some? {
        status := status.(recordsSent := status.recordsSent + 1);
      }
    }
  }

  lemma InsertedSize(budgets: Budgets, peer: string, b: Budget)
    ensures |budgets[peer := b]| == |budgets| + if peer in budgets then 0 else 1
  {
    var after := budgets[peer := b];
    assert after.Keys == budgets.Keys + {peer};
    assert |after| == |after.Keys| && |budgets| == |budgets.Keys|;
  }

  lemma EvictionFits(budgets: Budgets, victim: string, peer: string)
    requires victim in budgets && peer !in budgets
    ensures |(budgets - {victim})[peer := NEW_BUDGET]| == |budgets|
  {
    var rest := budgets - {victim};
    assert rest.Keys == budgets.Keys - {victim};
    assert |rest| == |rest.Keys| && |budgets| == |budgets.Keys|;
    InsertedSize(rest, peer, NEW_BUDGET);
  }

  // ---- Runs

  ghost predicate Legal(budgets: Budgets, from: Time, ops: seq<ExchangeOp>)
    decreases ops
  {
    ops == []
    || (var e := ops[0];
        && from <= e.op.at
        && (MustEvict(budgets, e.peer) ==> Chosen(budgets, e.op.at, e.victim))
        && Legal(Applied(budgets, e), e.op.at, ops[1..]))
  }

  function AfterAll(budgets: Budgets, ops: seq<ExchangeOp>): Budgets
    decreases ops
  {
    if ops == [] then budgets else AfterAll(Applied(budgets, ops[0]), ops[1..])
  }

  ghost predicate TableSound(budgets: Budgets, now: Time) {
    && |budgets| <= 512
    && forall p :: p in budgets ==> Sound(budgets[p], now)
  }

  lemma AppliedSound(budgets: Budgets, now: Time, e: ExchangeOp)
    requires TableSound(budgets, now) && now <= e.op.at
    requires MustEvict(budgets, e.peer) ==> Chosen(budgets, e.op.at, e.victim)
    ensures TableSound(Applied(budgets, e), e.op.at)
  {
    var r := Ensured(budgets, e.peer, e.victim);
    if r.Some? {
      var ready := r.value;
      if MustEvict(budgets, e.peer) {
        EvictionFits(budgets, e.victim.value, e.peer);
      } else {
        InsertedSize(budgets, e.peer, NEW_BUDGET);
      }
      InsertedSize(ready, e.peer, Step(ready[e.peer], e.op).budget);
      StepSound(ready[e.peer], now, e.op);
    }
  }

  /** Over every run at most 512 peers are tracked, each with a budget in good order. */
  lemma {:induction false} TrackedPeersBounded(budgets: Budgets, from: Time, ops: seq<ExchangeOp>, until: Time)
    requires TableSound(budgets, from) && Legal(budgets, from, ops) && from <= until
    requires forall k :: 0 <= k < |ops| ==> ops[k].op.at <= until
    ensures TableSound(AfterAll(budgets, ops), until)
    decreases ops
  {
    if ops != [] {
      AppliedSound(budgets, from, ops[0]);
      TrackedPeersBounded(Applied(budgets, ops[0]), ops[0].op.at, ops[1..], until);
    }
  }

  lemma BlockedSurvives(budgets: Budgets, now: Time, e: ExchangeOp, peer: string, end: Time)
    requires TableSound(budgets, now) && now <= e.op.at < end
    requires MustEvict(budgets, e.peer) ==> Chosen(budgets, e.op.at, e.victim)
    requires peer in budgets && budgets[peer].blockedUntil >= end
    ensures peer in Applied(budgets, e) && Applied(budgets, e)[peer].blockedUntil >= end
  {
    if e.peer == peer {
      BlocksOnlyExtend(budgets[peer], now, [e.op]);
      assert After(budgets[peer], [e.op]) == Step(budgets[peer], e.op).budget;
    }
  }

  /** A recorded block is reported until it ends, whatever anyone does meanwhile: it is never evicted or shortened. */
  lemma {:induction false} BlockHoldsUntilItsEnd(budgets: Budgets, from: Time, ops: seq<ExchangeOp>, peer: string, end: Time, now: Time)
    requires TableSound(budgets, from) && Legal(budgets, from, ops)
    requires forall k :: 0 <= k < |ops| ==> ops[k].op.at <= now
    requires peer in budgets && budgets[peer].blockedUntil >= end && now < end
    ensures PeerIsBlocked(AfterAll(budgets, ops), peer, now)
    decreases ops
  {
    if ops != [] {
      AppliedSound(budgets, from, ops[0]);
      BlockedSurvives(budgets, from, ops[0], peer, end);
      BlockHoldsUntilItsEnd(Applied(budgets, ops[0]), ops[0].op.at, ops[1..], peer, end, now);
    }
  }

  /** A penalty is recorded unless the table is full of other peers, every one of them blocked. */
  lemma PenaltyRecordedExactly(budgets: Budgets, now: Time, e: ExchangeOp)
    requires TableSound(budgets, now) && now <= e.op.at && e.op.Penalise?
    requires MustEvict(budgets, e.peer) ==> Chosen(budgets, e.op.at, e.victim)
    ensures
      PeerIsBlocked(Applied(budgets, e), e.peer, e.op.at) <==>
        e.peer in budgets || |budgets| < 512 || exists p :: p in budgets && !Blocked(budgets[p], e.op.at)
  {
    AppliedSound(budgets, now, e);
    if MustEvict(budgets, e.peer) && e.victim.Some? {
      assert e.victim.value in budgets && !Blocked(budgets[e.victim.value], e.op.at);
    }
    var r := Ensured(budgets, e.peer, e.victim);
    if r.Some? {
      assert Sound(r.value[e.peer], now);
    }
  }

  // ---- One peer's share of a run

  function OpsOf(ops: seq<ExchangeOp>, peer: string): seq<Op> {
    if ops == [] then []
    else (if ops[0].peer == peer then [ops[0].op] else []) + OpsOf(ops[1..], peer)
  }

  function GrantsTo(budgets: Budgets, ops: seq<ExchangeOp>, peer: string): nat
    decreases ops
  {
    if ops == [] then 0
    else
      (if ops[0].peer == peer && Admits(budgets, ops[0]) then 1 else 0)
      + GrantsTo(Applied(budgets, ops[0]), ops[1..], peer)
  }

  /** The peer stays tracked: nobody evicts it. */
  ghost predicate NeverEvicted(budgets: Budgets, ops: seq<ExchangeOp>, peer: string)
    decreases ops
  {
    peer in budgets && (ops == [] || NeverEvicted(Applied(budgets, ops[0]), ops[1..], peer))
  }

  /** While it stays tracked, a peer's budget is what its own operations alone would make of it. */
  lemma {:induction false} PeersAreIndependent(budgets: Budgets, ops: seq<ExchangeOp>, peer: string)
    requires NeverEvicted(budgets, ops, peer)
    ensures peer in AfterAll(budgets, ops)
    ensures AfterAll(budgets, ops)[peer] == After(budgets[peer], OpsOf(ops, peer))
    ensures GrantsTo(budgets, ops, peer) == Grants(budgets[peer], OpsOf(ops, peer))
    decreases ops
  {
    if ops != [] {
      PeersAreIndependent(Applied(budgets, ops[0]), ops[1..], peer);
      var own := OpsOf(ops, peer);
      if ops[0].peer == peer {
        assert own[0] == ops[0].op && own[1..] == OpsOf(ops[1..], peer);
      } else {
        assert own == OpsOf(ops[1..], peer);
      }
    }
  }

  // ---- The throttle, evictions and all

  /** The peer was not tracked and is given a new budget. */
  predicate Readmitted(budgets: Budgets, e: ExchangeOp, peer: string) {
    e.peer == peer && peer !in budgets && Ensured(budgets, peer, e.victim).Some?
  }

  function Readmissions(budgets: Budgets, ops: seq<ExchangeOp>, peer: string): nat
    decreases ops
  {
    if ops == [] then 0
    else (if Readmitted(budgets, ops[0], peer) then 1 else 0) + Readmissions(Applied(budgets, ops[0]), ops[1..], peer)
  }

  function BudgetOf(budgets: Budgets, peer: string): Option<Budget> {
    if peer in budgets then Some(budgets[peer]) else None
  }

  /** Since when a minute counts towards the next token. */
  function CountedFrom(o: Option<Budget>, now: Time): Time {
    if o.Some? && o.value.seeded then o.value.lastRefill else now
  }

  ghost predicate SoundShare(o: Option<Budget>, now: Time) {
    o.Some? ==> Sound(o.value, now)
  }

  /** Grants still to be had without another readmission. */
  function InHand(o: Option<Budget>, now: Time, until: Time): nat
    requires now <= until && SoundShare(o, now)
  {
    (if o.Some? then o.value.allowance else 0) + (until - CountedFrom(o, now)) / REFILL_INTERVAL
  }

  lemma LaterIsLess(o: Option<Budget>, now: Time, later: Time, until: Time)
    requires SoundShare(o, now) && now <= later <= until
    ensures SoundShare(o, later) && InHand(o, later, until) <= InHand(o, now, until)
    ensures InHand(None, later, until) <= InHand(o, now, until)
  {
    IntervalsAdd(CountedFrom(o, now), later, until);
    if o.None? || !o.value.seeded {
      IntervalsAdd(now, later, until);
    }
  }

  lemma OwnStepSpends(b: Budget, now: Time, op: Op, until: Time)
    requires Sound(b, now) && now <= op.at <= until
    ensures Sound(Step(b, op).budget, op.at)
    ensures (if Step(b, op).granted then 1 else 0) + InHand(Some(Step(b, op).budget), op.at, until) <= InHand(Some(b), now, until)
  {
    StepSound(b, now, op);
    IntervalsAdd(CountedFrom(Some(b), now), op.at, until);
  }

  lemma OthersStepKeeps(budgets: Budgets, e: ExchangeOp, peer: string)
    requires e.peer != peer
    ensures BudgetOf(Applied(budgets, e), peer) in {None, BudgetOf(budgets, peer)}
  {
  }

  lemma OwnStepCharges(budgets: Budgets, e: ExchangeOp)
    ensures
      var after := BudgetOf(Applied(budgets, e), e.peer);
      match BudgetOf(budgets, e.peer)
      case Some(b) => after == Some(Step(b, e.op).budget) && Admits(budgets, e) == Step(b, e.op).granted
      case None =>
        if Ensured(budgets, e.peer, e.victim).Some? then
          after == Some(Step(NEW_BUDGET, e.op).budget) && Admits(budgets, e) == Step(NEW_BUDGET, e.op).granted
        else after == None && !Admits(budgets, e)
  {
  }

  lemma NewInHand(now: Time, until: Time)
    requires now <= until
    ensures SoundShare(Some(NEW_BUDGET), now) && InHand(Some(NEW_BUDGET), now, until) == BURST_ALLOWANCE + InHand(None, now, until)
  {
  }

  lemma StepSpends(budgets: Budgets, now: Time, e: ExchangeOp, peer: string, until: Time)
    requires SoundShare(BudgetOf(budgets, peer), now) && now <= e.op.at <= until
    ensures SoundShare(BudgetOf(Applied(budgets, e), peer), e.op.at)
    ensures
      (if e.peer == peer && Admits(budgets, e) then 1 else 0) + InHand(BudgetOf(Applied(budgets, e), peer), e.op.at, until)
      <= InHand(BudgetOf(budgets, peer), now, until) + if Readmitted(budgets, e, peer) then BURST_ALLOWANCE else 0
  {
    LaterIsLess(BudgetOf(budgets, peer), now, e.op.at, until);
    if e.peer != peer {
      OthersStepKeeps(budgets, e, peer);
    } else {
      OwnStepCharges(budgets, e);
      if peer in budgets {
        OwnStepSpends(budgets[peer], now, e.op, until);
      } else if Ensured(budgets, peer, e.victim).Some? {
        NewInHand(e.op.at, until);
        OwnStepSpends(NEW_BUDGET, e.op.at, e.op, until);
      }
    }
  }

  lemma {:induction false} InHandBound(budgets: Budgets, from: Time, ops: seq<ExchangeOp>, peer: string, until: Time)
    requires SoundShare(BudgetOf(budgets, peer), from) && Legal(budgets, from, ops) && from <= until
    requires forall k :: 0 <= k < |ops| ==> ops[k].op.at <= until
    ensures GrantsTo(budgets, ops, peer) <= BURST_ALLOWANCE * Readmissions(budgets, ops, peer) + InHand(BudgetOf(budgets, peer), from, until)
    decreases ops
  {
    if ops != [] {
      var e := ops[0];
      assert e.op.at <= until;
      StepSpends(budgets, from, e, peer, until);
      InHandBound(Applied(budgets, e), e.op.at, ops[1..], peer, until);
    }
  }

  lemma FloorBelowCeil(d: nat)
    ensures d / REFILL_INTERVAL <= CeilDiv(d, REFILL_INTERVAL)
  {
  }

  lemma LookInHand(b: Budget, now: Time, at: Time, until: Time)
    requires Sound(b, now) && now <= at <= until && !Blocked(b, at)
    ensures
      var v := Consumed(b, at);
      && SoundShare(Some(v.budget), at)
      && (if v.granted then 1 else 0) + InHand(Some(v.budget), at, until) <= BURST_ALLOWANCE + CeilDiv(until - at, REFILL_INTERVAL)
  {
    StepSound(b, now, Op.Consume(at));
    LookedBound(b, now, at, until);
  }

  /** The look that opens a window for a tracked, unblocked peer. */
  lemma FirstLook(budgets: Budgets, from: Time, ops: seq<ExchangeOp>, peer: string, until: Time)
    requires SoundShare(BudgetOf(budgets, peer), from) && Legal(budgets, from, ops) && ops != []
    requires forall k :: 0 <= k < |ops| ==> ops[k].op.at <= until
    requires peer in budgets && ops[0].peer == peer && ops[0].op.Consume? && !Blocked(budgets[peer], ops[0].op.at)
    ensures GrantsTo(budgets, ops, peer)
         <= BURST_ALLOWANCE * (1 + Readmissions(budgets, ops, peer)) + CeilDiv(until - ops[0].op.at, REFILL_INTERVAL)
  {
    var e := ops[0];
    assert e.op.at <= until;
    OwnStepCharges(budgets, e);
    LookInHand(budgets[peer], from, e.op.at, until);
    InHandBound(Applied(budgets, e), e.op.at, ops[1..], peer, until);
  }

  /**
   * Whatever anyone sends, in any window a peer gets at most 8 records for each budget it had or was given in it,
   * plus one for each minute begun.
   */
  lemma {:induction false} ThrottleBound(budgets: Budgets, from: Time, ops: seq<ExchangeOp>, peer: string, until: Time)
    requires SoundShare(BudgetOf(budgets, peer), from) && Legal(budgets, from, ops) && from <= until
    requires forall k :: 0 <= k < |ops| ==> ops[k].op.at <= until
    ensures GrantsTo(budgets, ops, peer)
         <= BURST_ALLOWANCE * ((if peer in budgets then 1 else 0) + Readmissions(budgets, ops, peer)) + CeilDiv(until - from, REFILL_INTERVAL)
    decreases ops
  {
    if peer !in budgets {
      InHandBound(budgets, from, ops, peer, until);
      FloorBelowCeil(until - from);
    } else if ops != [] {
      var e := ops[0];
      assert e.op.at <= until;
      WindowShift(from, e.op.at, until);
      if e.peer == peer && e.op.Consume? && !Blocked(budgets[peer], e.op.at) {
        FirstLook(budgets, from, ops, peer, until);
      } else {
        StepSpends(budgets, from, e, peer, until);
        ThrottleBound(Applied(budgets, e), e.op.at, ops[1..], peer, until);
      }
    }
  }

  lemma {:induction false} NeverEvictedNeverReadmitted(budgets: Budgets, ops: seq<ExchangeOp>, peer: string)
    requires NeverEvicted(budgets, ops, peer)
    ensures Readmissions(budgets, ops, peer) == 0
    decreases ops
  {
    if ops != [] {
      NeverEvictedNeverReadmitted(Applied(budgets, ops[0]), ops[1..], peer);
    }
  }

  /** Whatever the other peers send, a peer that stays tracked gets at most a burst plus one record a minute through. */
  lemma TrackedPeerIsThrottled(budgets: Budgets, from: Time, ops: seq<ExchangeOp>, peer: string, until: Time)
    requires TableSound(budgets, from) && Legal(budgets, from, ops) && NeverEvicted(budgets, ops, peer) && from <= until
    requires forall k :: 0 <= k < |ops| ==> ops[k].op.at <= until
    ensures GrantsTo(budgets, ops, peer) <= BURST_ALLOWANCE + CeilDiv(until - from, REFILL_INTERVAL)
  {
    NeverEvictedNeverReadmitted(budgets, ops, peer);
    ThrottleBound(budgets, from, ops, peer, until);
  }
}
