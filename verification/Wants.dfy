/** Wants a peer still owes an answer to. */
module Wants {
  import opened PeerBudget

  type Pending = map<string, Time>

  const MAXIMUM_OUTSTANDING: nat := 128
  const WANT_EXPIRY: nat := 300 * SECOND

  datatype Tracked = Tracked(pending: Pending, ok: bool)

  function Track(pending: Pending, id: string, now: Time): Tracked {
    if id in pending then Tracked(pending[id := now], true)
    else if |pending| >= MAXIMUM_OUTSTANDING then Tracked(pending, false)
    else Tracked(pending[id := now], true)
  }

  function Redeem(pending: Pending, id: string): Tracked {
    Tracked(pending - {id}, id in pending)
  }

  predicate Expired(since: Time, now: Time) {
    now >= since + WANT_EXPIRY
  }

  function Pruned(pending: Pending, now: Time): Pending {
    map id | id in pending && !Expired(pending[id], now) :: pending[id]
  }

  class OutstandingWantTracker {
    var pending: Pending

    constructor ()
      ensures pending == map[]
    {
      pending := map[];
    }

    method TrackWant(id: string, now: Time) returns (ok: bool)
      modifies this
      ensures Tracked(pending, ok) == Track(old(pending), id, now)
    {
      if id in pending {
        pending := pending[id := now];
        return true;
      }
      if |pending| >= MAXIMUM_OUTSTANDING {
        return false;
      }
      pending := pending[id := now];
      return true;
    }

    method RedeemWant(id: string) returns (ok: bool)
      modifies this
      ensures Tracked(pending, ok) == Redeem(old(pending), id)
    {
      ok := id in pending;
      pending := pending - {id};
    }

    method Prune(now: Time)
      modifies this
      ensures pending == Pruned(old(pending), now)
    {
      var keys := pending.Keys;
      while keys != {}
        invariant keys <= pending.Keys <= old(pending).Keys
        invariant forall id :: id in pending ==> pending[id] == old(pending)[id]
        invariant forall id :: id in keys || (id in old(pending) && !Expired(old(pending)[id], now)) ==> id in pending
        invariant forall id :: id in pending && id !in keys ==> !Expired(pending[id], now)
        decreases keys
      {
        var id :| id in keys;
        keys := keys - {id};
        if now >= pending[id] + WANT_EXPIRY {
          pending := pending - {id};
        }
      }
    }
  }

  // ---- Runs

  datatype WantOp = DoTrack(id: string, at: Time) | DoRedeem(id: string) | DoPrune(at: Time)

  function Next(pending: Pending, op: WantOp): Tracked {
    match op
    case DoTrack(id, at) => Track(pending, id, at)
    case DoRedeem(id) => Redeem(pending, id)
    case DoPrune(at) => Tracked(Pruned(pending, at), true)
  }

  /** How often an identifier was successfully tracked. */
  function TrackCount(pending: Pending, ops: seq<WantOp>, id: string): nat
    decreases ops
  {
    if ops == [] then 0
    else
      (if ops[0].DoTrack? && ops[0].id == id && Next(pending, ops[0]).ok then 1 else 0)
      + TrackCount(Next(pending, ops[0]).pending, ops[1..], id)
  }

  /** How often it was successfully redeemed. */
  function RedeemCount(pending: Pending, ops: seq<WantOp>, id: string): nat
    decreases ops
  {
    if ops == [] then 0
    else
      (if ops[0].DoRedeem? && ops[0].id == id && Next(pending, ops[0]).ok then 1 else 0)
      + RedeemCount(Next(pending, ops[0]).pending, ops[1..], id)
  }

  function PendingAfter(pending: Pending, ops: seq<WantOp>): Pending
    decreases ops
  {
    if ops == [] then pending else PendingAfter(Next(pending, ops[0]).pending, ops[1..])
  }

  function Owed(pending: Pending, id: string): nat {
    if id in pending then 1 else 0
  }

  lemma PrunedIsSubset(pending: Pending, now: Time)
    ensures Pruned(pending, now).Keys <= pending.Keys
    ensures |Pruned(pending, now)| <= |pending|
  {
    SubsetSize(Pruned(pending, now).Keys, pending.Keys);
    assert |Pruned(pending, now)| == |Pruned(pending, now).Keys|;
  }

  lemma SubsetSize<T>(a: set<T>, b: set<T>)
    requires a <= b
    ensures |a| <= |b|
  {
    assert b == a + (b - a);
  }

  /** Each redemption pays for a want tracked before it; an identifier is owed at most once at a time. */
  lemma {:induction false} RedemptionsArePaidFor(pending: Pending, ops: seq<WantOp>, id: string)
    ensures RedeemCount(pending, ops, id) + Owed(PendingAfter(pending, ops), id) <= Owed(pending, id) + TrackCount(pending, ops, id)
    decreases ops
  {
    if ops != [] {
      RedemptionsArePaidFor(Next(pending, ops[0]).pending, ops[1..], id);
    }
  }

  lemma {:induction false} TableStaysSmall(pending: Pending, ops: seq<WantOp>)
    requires |pending| <= 128
    ensures |PendingAfter(pending, ops)| <= 128
    decreases ops
  {
    if ops != [] {
      var next := Next(pending, ops[0]).pending;
      match ops[0] {
        case DoTrack(id, at) =>
          assert id in pending ==> next.Keys == pending.Keys;
          assert |next| == |next.Keys| && |pending| == |pending.Keys|;
        case DoRedeem(id) =>
          SubsetSize(next.Keys, pending.Keys);
          assert |next| == |next.Keys| && |pending| == |pending.Keys|;
        case DoPrune(at) => PrunedIsSubset(pending, at);
      }
      TableStaysSmall(next, ops[1..]);
    }
  }
}
