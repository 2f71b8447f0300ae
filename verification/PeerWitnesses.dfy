/** Reachable tables of peers in which a penalty is lost, and in which an eviction doubles a burst. */
module PeerWitnesses {
  import opened Wrappers
  import opened PeerBudget
  import opened Exchange
  import opened RecordGate

  /** Names of the right number of letters, so all different. */
  function Name(i: nat): (name: string)
    ensures |name| == i
  {
    seq(i, _ => 'p')
  }

  function Names(count: nat): set<string> {
    set i: nat | i < count :: Name(i)
  }

  lemma {:induction false} NamesSize(count: nat)
    ensures |Names(count)| == count && Name(count) !in Names(count)
  {
    if count > 0 {
      NamesSize(count - 1);
      assert Names(count) == Names(count - 1) + {Name(count - 1)};
    }
  }

  // ---- A table filled in one way

  /** The first `count` names, each with the same budget. */
  ghost predicate FilledWith(budgets: Budgets, count: nat, b: Budget) {
    budgets.Keys == Names(count) && forall p :: p in budgets ==> budgets[p] == b
  }

  function SameOp(op: Op, from: nat, count: nat): (ops: seq<ExchangeOp>)
    ensures |ops| == count
    decreases count
  {
    if count == 0 then [] else [ExchangeOp(Name(from), None, op)] + SameOp(op, from + 1, count - 1)
  }

  lemma FilledSize(budgets: Budgets, count: nat, b: Budget)
    requires FilledWith(budgets, count, b)
    ensures |budgets| == count && Name(count) !in budgets
  {
    NamesSize(count);
    assert |budgets| == |budgets.Keys|;
  }

  lemma OneMore(budgets: Budgets, count: nat, op: Op)
    requires FilledWith(budgets, count, Step(NEW_BUDGET, op).budget) && count < MAXIMUM_TRACKED_PEERS
    ensures FilledWith(Applied(budgets, ExchangeOp(Name(count), None, op)), count + 1, Step(NEW_BUDGET, op).budget)
    ensures !MustEvict(budgets, Name(count))
  {
    FilledSize(budgets, count, Step(NEW_BUDGET, op).budget);
    assert Names(count + 1) == Names(count) + {Name(count)};
  }

  lemma SameOpUnfolds(op: Op, from: nat, count: nat)
    requires count > 0
    ensures SameOp(op, from, count)[0] == ExchangeOp(Name(from), None, op)
    ensures SameOp(op, from, count)[1..] == SameOp(op, from + 1, count - 1)
  {
  }

  lemma RunUnfolds(budgets: Budgets, now: Time, ops: seq<ExchangeOp>)
    requires ops != [] && ops[0].op.at == now && (MustEvict(budgets, ops[0].peer) ==> Chosen(budgets, now, ops[0].victim))
    ensures Legal(Applied(budgets, ops[0]), now, ops[1..]) ==> Legal(budgets, now, ops)
    ensures AfterAll(budgets, ops) == AfterAll(Applied(budgets, ops[0]), ops[1..])
  {
  }

  /** Up to 512 strangers doing the same thing at one instant fill the table with the same budget. */
  lemma {:induction false} Filling(budgets: Budgets, from: nat, count: nat, op: Op)
    requires FilledWith(budgets, from, Step(NEW_BUDGET, op).budget) && from + count <= MAXIMUM_TRACKED_PEERS
    ensures Legal(budgets, op.at, SameOp(op, from, count))
    ensures FilledWith(AfterAll(budgets, SameOp(op, from, count)), from + count, Step(NEW_BUDGET, op).budget)
    decreases count
  {
    if count > 0 {
      OneMore(budgets, from, op);
      SameOpUnfolds(op, from, count);
      Filling(Applied(budgets, ExchangeOp(Name(from), None, op)), from + 1, count - 1, op);
      RunUnfolds(budgets, op.at, SameOp(op, from, count));
    }
  }

  // ---- A penalty that is lost

  lemma LostWhenFull(full: Budgets, peer: string)
    requires |full| >= MAXIMUM_TRACKED_PEERS && peer !in full && forall p :: p in full ==> Blocked(full[p], 0)
    ensures
      var late := ExchangeOp(peer, None, Op.Penalise(0));
      && Chosen(full, 0, None) && Legal(full, 0, [late])
      && Applied(full, late) == full && !PeerIsBlocked(Applied(full, late), peer, 0)
  {
    var late := ExchangeOp(peer, None, Op.Penalise(0));
    assert [late][0] == late && [late][1..] == [];
  }

  /** 512 peers are penalised at one instant; the penalty of one more then leaves no trace. */
  lemma FullOfBlockedLosesAPenalty(count: nat)
    requires count == 512
    ensures
      var ops := SameOp(Op.Penalise(0), 0, count);
      var full := AfterAll(map[], ops);
      var late := ExchangeOp(Name(count), None, Op.Penalise(0));
      && Legal(map[], 0, ops) && |full| == count
      && Chosen(full, 0, None) && Legal(full, 0, [late])
      && Applied(full, late) == full && !PeerIsBlocked(Applied(full, late), Name(count), 0)
  {
    Filling(map[], 0, count, Op.Penalise(0));
    var full := AfterAll(map[], SameOp(Op.Penalise(0), 0, count));
    FilledSize(full, count, Step(NEW_BUDGET, Op.Penalise(0)).budget);
    LostWhenFull(full, Name(count));
  }

  // ---- A burst that is doubled

  function Repeated(peer: string, victim: Option<string>, count: nat): (ops: seq<ExchangeOp>)
    ensures |ops| == count
  {
    if count == 0 then [] else [ExchangeOp(peer, victim, Op.Consume(0))] + Repeated(peer, victim, count - 1)
  }

  lemma {:induction false} GrantsConcat(budgets: Budgets, a: seq<ExchangeOp>, b: seq<ExchangeOp>, peer: string)
    ensures AfterAll(budgets, a + b) == AfterAll(AfterAll(budgets, a), b)
    ensures GrantsTo(budgets, a + b, peer) == GrantsTo(budgets, a, peer) + GrantsTo(AfterAll(budgets, a), b, peer)
    decreases a
  {
    if a == [] {
      assert a + b == b;
    } else {
      assert (a + b)[0] == a[0] && (a + b)[1..] == a[1..] + b;
      GrantsConcat(Applied(budgets, a[0]), a[1..], b, peer);
    }
  }

  lemma {:induction false} LegalConcat(budgets: Budgets, a: seq<ExchangeOp>, b: seq<ExchangeOp>)
    requires Legal(budgets, 0, a) && (forall k :: 0 <= k < |a| ==> a[k].op.at == 0) && Legal(AfterAll(budgets, a), 0, b)
    ensures Legal(budgets, 0, a + b)
    decreases a
  {
    if a == [] {
      assert a + b == b;
    } else {
      assert (a + b)[0] == a[0] && (a + b)[1..] == a[1..] + b;
      assert a[0].op.at == 0;
      LegalConcat(Applied(budgets, a[0]), a[1..], b);
    }
  }

  /** A clean budget last seen at the instant zero. */
  predicate SeenClean(b: Budget) {
    !Blocked(b, 0) && !Escalated(b) && b.lastSeen == 0
  }

  lemma SpentStaysClean(b: Budget)
    requires SeenClean(b) && Tokens(b, 0) > 0
    ensures SeenClean(Consumed(b, 0).budget)
  {
  }

  lemma {:induction false} Spending(budgets: Budgets, peer: string, victim: Option<string>, count: nat)
    requires peer in budgets && SeenClean(budgets[peer]) && Tokens(budgets[peer], 0) >= count
    ensures
      var ops := Repeated(peer, victim, count);
      var after := AfterAll(budgets, ops);
      && Legal(budgets, 0, ops) && GrantsTo(budgets, ops, peer) == count
      && after.Keys == budgets.Keys && SeenClean(after[peer])
      && forall p :: p in budgets && p != peer ==> after[p] == budgets[p]
    decreases count
  {
    if count > 0 {
      var ops := Repeated(peer, victim, count);
      assert ops[0] == ExchangeOp(peer, victim, Op.Consume(0)) && ops[1..] == Repeated(peer, victim, count - 1);
      GrantedNow(budgets[peer], 0);
      SpentStaysClean(budgets[peer]);
      Spending(Applied(budgets, ops[0]), peer, victim, count - 1);
    }
  }

  /** What an arrival with an eviction, or into free room, leaves. */
  ghost predicate CleanFull(budgets: Budgets) {
    |budgets| == 512 && forall p :: p in budgets ==> SeenClean(budgets[p])
  }

  /** In a full table of clean peers seen just now anybody may be evicted for a newcomer, who then has eight tokens. */
  lemma EightForANewcomer(budgets: Budgets, peer: string, victim: string, count: nat)
    requires CleanFull(budgets) && victim in budgets && peer !in budgets && 1 <= count <= 8
    ensures
      var ops := Repeated(peer, Some(victim), count);
      var after := AfterAll(budgets, ops);
      && Legal(budgets, 0, ops) && GrantsTo(budgets, ops, peer) == count
      && CleanFull(after) && after.Keys == budgets.Keys - {victim} + {peer}
  {
    var ops := Repeated(peer, Some(victim), count);
    var e := ExchangeOp(peer, Some(victim), Op.Consume(0));
    assert ops[0] == e && ops[1..] == Repeated(peer, Some(victim), count - 1);
    assert Chosen(budgets, 0, Some(victim));
    GrantedNow(NEW_BUDGET, 0);
    SpentStaysClean(NEW_BUDGET);
    EvictionFits(budgets, victim, peer);
    var next := Applied(budgets, e);
    InsertedSize((budgets - {victim})[peer := NEW_BUDGET], peer, Consumed(NEW_BUDGET, 0).budget);
    assert next.Keys == budgets.Keys - {victim} + {peer};
    Spending(next, peer, Some(victim), count - 1);
    assert |AfterAll(budgets, ops)| == |AfterAll(budgets, ops).Keys| && |next| == |next.Keys|;
  }

  lemma AllAtZero(peer: string, victim: Option<string>, count: nat)
    ensures forall k :: 0 <= k < count ==> Repeated(peer, victim, count)[k].op.at == 0 && Repeated(peer, victim, count)[k].peer == peer
  {
  }

  lemma {:induction false} NothingForOthers(budgets: Budgets, ops: seq<ExchangeOp>, peer: string)
    requires forall k :: 0 <= k < |ops| ==> ops[k].peer != peer
    ensures GrantsTo(budgets, ops, peer) == 0
    decreases ops
  {
    if ops != [] {
      assert ops[0].peer != peer;
      NothingForOthers(Applied(budgets, ops[0]), ops[1..], peer);
    }
  }

  /**
   * From any full table of clean peers seen just now: a peer spends its eight tokens, is evicted for one newcomer,
   * comes back in the newcomer's place, and spends eight more, all at one instant.
   */
  lemma SixteenAtOneInstant(budgets: Budgets, peer: string, first: string, newcomer: string)
    requires CleanFull(budgets) && first in budgets && peer !in budgets && newcomer !in budgets && peer != newcomer
    ensures
      var a := Repeated(peer, Some(first), 8);
      var b := Repeated(newcomer, Some(peer), 1);
      var c := Repeated(peer, Some(newcomer), 8);
      Legal(budgets, 0, a + (b + c)) && GrantsTo(budgets, a + (b + c), peer) == 16
  {
    var a := Repeated(peer, Some(first), 8);
    var b := Repeated(newcomer, Some(peer), 1);
    var c := Repeated(peer, Some(newcomer), 8);
    EightForANewcomer(budgets, peer, first, 8);
    var x := AfterAll(budgets, a);
    EightForANewcomer(x, newcomer, peer, 1);
    var y := AfterAll(x, b);
    EightForANewcomer(y, peer, newcomer, 8);
    AllAtZero(peer, Some(first), 8);
    AllAtZero(newcomer, Some(peer), 1);
    LegalConcat(x, b, c);
    LegalConcat(budgets, a, b + c);
    NothingForOthers(x, b, peer);
    GrantsConcat(x, b, c, peer);
    GrantsConcat(budgets, a, b + c, peer);
  }

  /** Such a table is reached from nothing by 512 strangers each sending one record. */
  lemma CleanFullReached(count: nat)
    requires count == 512
    ensures
      var ops := SameOp(Op.Consume(0), 0, count);
      && Legal(map[], 0, ops) && CleanFull(AfterAll(map[], ops))
      && Name(0) in AfterAll(map[], ops) && Name(count) !in AfterAll(map[], ops) && Name(count + 1) !in AfterAll(map[], ops)
  {
    Filling(map[], 0, count, Op.Consume(0));
    var full := AfterAll(map[], SameOp(Op.Consume(0), 0, count));
    FilledSize(full, count, Step(NEW_BUDGET, Op.Consume(0)).budget);
    GrantedNow(NEW_BUDGET, 0);
    SpentStaysClean(NEW_BUDGET);
    assert Name(0) in Names(count);
    assert forall i: nat :: i < count ==> |Name(i)| < count + 1;
  }
}
