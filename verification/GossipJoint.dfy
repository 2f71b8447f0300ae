/** The protocol and the peer budgets together: every message charged to whoever sent it. */
module GossipJoint {
  import opened Wrappers
  import opened Bytes
  import opened Receiver
  import opened PeerBudget
  import opened Gossip
  import opened Exchange

  /** A node and what it keeps about its peers. */
  datatype Taker = Taker(node: Node, budgets: Budgets)

  /**
   * A message from a peer on a connection, where `victim` is whom the eviction scan would then choose, or the
   * connection's tick.
   */
  datatype Message =
    | Message(c: Connection, peer: string, now: Time, body: seq<byte>, victim: Option<string>)
    | Idle(c: Connection, now: Time)

  function Consuming(m: Message): ExchangeOp
    requires m.Message?
  {
    ExchangeOp(m.peer, m.victim, Op.Consume(m.now))
  }

  function Penalising(m: Message): ExchangeOp
    requires m.Message?
  {
    ExchangeOp(m.peer, m.victim, Op.Penalise(m.now))
  }

  /** What the protocol makes of a message when the sender's own budget admits or refuses it. */
  function ReactionTo(t: Trust, s: Taker, m: Message): Reaction {
    match m
    case Message(c, _, now, body, _) => React(t, s.node, Deliver(0, c, now, body, Admits(s.budgets, Consuming(m))))
    case Idle(c, now) => React(t, s.node, Event.Tick(0, c, now))
  }

  /** A violation is penalised, a record taken or refused is charged, anything else is free; so is the tick. */
  function Charges(t: Trust, s: Taker, m: Message): Option<ExchangeOp> {
    var r := ReactionTo(t, s, m);
    if m.Idle? then None
    else if r.penalises then Some(Penalising(m)) else if r.ingested.Some? then Some(Consuming(m)) else None
  }

  function Charged(budgets: Budgets, charge: Option<ExchangeOp>): Budgets {
    if charge.None? then budgets else Applied(budgets, charge.value)
  }

  function JointStep(t: Trust, s: Taker, m: Message): Taker {
    Taker(ReactionTo(t, s, m).node, Charged(s.budgets, Charges(t, s, m)))
  }

  function JointRun(t: Trust, s: Taker, messages: seq<Message>): Taker
    decreases messages
  {
    if messages == [] then s else JointRun(t, JointStep(t, s, messages[0]), messages[1..])
  }

  /** All charges of a run, in order. */
  function AllCharges(t: Trust, s: Taker, messages: seq<Message>): seq<ExchangeOp>
    decreases messages
  {
    if messages == [] then []
    else
      (if Charges(t, s, messages[0]).Some? then [Charges(t, s, messages[0]).value] else [])
      + AllCharges(t, JointStep(t, s, messages[0]), messages[1..])
  }

  /** Messages of a peer that changed the table. */
  function TakenFrom(t: Trust, s: Taker, messages: seq<Message>, peer: string): nat
    decreases messages
  {
    if messages == [] then 0
    else
      (if messages[0].Message? && messages[0].peer == peer && JointStep(t, s, messages[0]).node.retained != s.node.retained then 1 else 0)
      + TakenFrom(t, JointStep(t, s, messages[0]), messages[1..], peer)
  }

  /** Only an admitted record changes the table, and it is charged. */
  lemma ChangeIsAdmitted(t: Trust, s: Taker, m: Message)
    ensures ReactionTo(t, s, m).node.retained != s.node.retained ==>
      m.Message? && Charges(t, s, m) == Some(Consuming(m)) && Admits(s.budgets, Consuming(m))
  {
  }

  lemma ChargesUnfold(budgets: Budgets, charge: Option<ExchangeOp>, rest: seq<ExchangeOp>, peer: string)
    ensures
      var ops := (if charge.Some? then [charge.value] else []) + rest;
      && GrantsTo(budgets, ops, peer)
           == (if charge.Some? && charge.value.peer == peer && Admits(budgets, charge.value) then 1 else 0)
              + GrantsTo(Charged(budgets, charge), rest, peer)
      && AfterAll(budgets, ops) == AfterAll(Charged(budgets, charge), rest)
  {
    var ops := (if charge.Some? then [charge.value] else []) + rest;
    if charge.Some? {
      assert ops[0] == charge.value && ops[1..] == rest;
    } else {
      assert ops == rest;
    }
  }

  /** Over a joint run no more records of a peer reach the table than its budgets granted. */
  lemma {:induction false} TakenAreGranted(t: Trust, s: Taker, messages: seq<Message>, peer: string)
    ensures TakenFrom(t, s, messages, peer) <= GrantsTo(s.budgets, AllCharges(t, s, messages), peer)
    ensures JointRun(t, s, messages).budgets == AfterAll(s.budgets, AllCharges(t, s, messages))
    decreases messages
  {
    if messages != [] {
      var m := messages[0];
      ChangeIsAdmitted(t, s, m);
      TakenAreGranted(t, JointStep(t, s, m), messages[1..], peer);
      ChargesUnfold(s.budgets, Charges(t, s, m), AllCharges(t, JointStep(t, s, m), messages[1..]), peer);
    }
  }

  /**
   * Whatever anyone sends, in any window at most 8 records of a peer for each budget it had or was given, plus one
   * for each minute begun, reach the table.
   */
  lemma TableIsThrottled(t: Trust, s: Taker, messages: seq<Message>, peer: string, from: Time, until: Time)
    requires TableSound(s.budgets, from) && Legal(s.budgets, from, AllCharges(t, s, messages)) && from <= until
    requires forall k :: 0 <= k < |AllCharges(t, s, messages)| ==> AllCharges(t, s, messages)[k].op.at <= until
    ensures TakenFrom(t, s, messages, peer)
         <= BURST_ALLOWANCE * ((if peer in s.budgets then 1 else 0) + Readmissions(s.budgets, AllCharges(t, s, messages), peer))
            + CeilDiv(until - from, REFILL_INTERVAL)
  {
    TakenAreGranted(t, s, messages, peer);
    ThrottleBound(s.budgets, from, AllCharges(t, s, messages), peer, until);
  }

  /** A peer that stays tracked gets at most 8 records plus one for each minute begun into the table. */
  lemma TrackedPeerFillsSlowly(t: Trust, s: Taker, messages: seq<Message>, peer: string, from: Time, until: Time)
    requires TableSound(s.budgets, from) && Legal(s.budgets, from, AllCharges(t, s, messages)) && from <= until
    requires forall k :: 0 <= k < |AllCharges(t, s, messages)| ==> AllCharges(t, s, messages)[k].op.at <= until
    requires NeverEvicted(s.budgets, AllCharges(t, s, messages), peer)
    ensures TakenFrom(t, s, messages, peer) <= BURST_ALLOWANCE + CeilDiv(until - from, REFILL_INTERVAL)
  {
    TakenAreGranted(t, s, messages, peer);
    TrackedPeerIsThrottled(s.budgets, from, AllCharges(t, s, messages), peer, until);
  }
}
