/** Many rounds among many nodes: offered announces spread along every chain of rounds, and nothing else does. */
module GossipSpread {
  import opened Receiver
  import opened PeerBudget
  import opened Gossip
  import opened GossipJoint
  import opened RecordGate
  import opened GossipRound

  /** Nodes, each with what it keeps about its peers. */
  type Network = map<nat, Taker>

  /** A round from a giver, known to the taker as `peer`, over what the giver holds at `order`. */
  datatype Round = Round(giver: nat, taker: nat, connection: Connection, peer: string, now: Time, order: seq<string>, arrivals: Arrivals)

  /** The wants and the table have room; any of the records may still be refused or late. */
  ghost predicate Runs(net: Network, r: Round) {
    && r.giver in net && r.taker in net
    && Fits(net[r.giver].node, net[r.taker].node, r.connection, r.now, r.order)
    && Ordered(r.arrivals, r.now)
  }

  ghost function AfterRound(t: Trust, net: Network, r: Round): Network {
    if Runs(net, r) then
      net[r.taker := RoundOver(t, net[r.giver].node, net[r.taker], r.connection, r.peer, r.now, r.order, r.arrivals)]
    else net
  }

  ghost function AfterRounds(t: Trust, net: Network, rounds: seq<Round>): Network
    decreases rounds
  {
    if rounds == [] then net else AfterRounds(t, AfterRound(t, net, rounds[0]), rounds[1..])
  }

  ghost predicate AllRun(t: Trust, net: Network, rounds: seq<Round>)
    decreases rounds
  {
    rounds == [] || (Runs(net, rounds[0]) && AllRun(t, AfterRound(t, net, rounds[0]), rounds[1..]))
  }

  ghost predicate NetSound(t: Trust, net: Network) {
    forall n :: n in net ==> SoundTable(t, net[n].node.retained)
  }

  /** Of what the taker lacks, the gate lets this announce through; or the taker does not lack it. */
  ghost predicate GetsThrough(giver: Retained, taker: Retained, offered: seq<string>, gate: Gate, id: string)
    requires AllIn(offered, giver) && |gate.admitted| == |NewerIds(giver, taker, offered)|
  {
    id in NewerIds(giver, taker, offered) ==> id in Kept(NewerIds(giver, taker, offered), gate.admitted)
  }

  /** The round offers the identifier and, if the taker lacks it, its record is taken; others may be refused or late. */
  ghost predicate Carries(net: Network, r: Round, id: string) {
    && id in Offered(r.order)
    && r.giver in net && r.taker in net
    && AllIn(Offered(r.order), net[r.giver].node.retained)
    && GetsThrough(net[r.giver].node.retained, net[r.taker].node.retained, Offered(r.order),
                   RoundGate(net[r.giver].node, net[r.taker], r.peer, r.now, r.order, r.arrivals), id)
  }

  ghost function Wider(net: Network, holders: set<nat>, r: Round, id: string): set<nat> {
    if r.giver in holders && Carries(net, r, id) then holders + {r.taker} else holders
  }

  /** Nodes a piece of news known to `holders` has come to, round after round. */
  ghost function Reached(t: Trust, net: Network, holders: set<nat>, rounds: seq<Round>, id: string): set<nat>
    decreases rounds
  {
    if rounds == [] then holders
    else Reached(t, AfterRound(t, net, rounds[0]), Wider(net, holders, rounds[0], id), rounds[1..], id)
  }

  function VersionAt(net: Network, n: nat, id: string): int {
    if n in net then VersionOf(net[n].node.retained, id) else -1
  }

  /** What one round does to one version everywhere: the taker's rises at most to the giver's, and does so if carried. */
  ghost predicate Spreads(before: Network, r: Round, after: Network, id: string) {
    && after.Keys == before.Keys
    && VersionAt(before, r.taker, id) <= VersionAt(after, r.taker, id) <= Higher(VersionAt(before, r.giver, id), VersionAt(before, r.taker, id))
    && (Carries(before, r, id) ==> VersionAt(after, r.taker, id) >= VersionAt(before, r.giver, id))
    && forall n :: n != r.taker ==> VersionAt(after, n, id) == VersionAt(before, n, id)
  }

  /** A table overlaid with newer announces only: no version falls, and none exceeds both. */
  lemma OverlaidVersions(giver: Retained, taker: Retained, offered: seq<string>, ids: seq<string>, id: string)
    requires AllIn(offered, giver) && AllIn(ids, giver) && forall k :: k in ids ==> k in NewerIds(giver, taker, offered)
    ensures VersionOf(taker, id) <= VersionOf(Overlaid(taker, giver, ids), id) <= Higher(VersionOf(giver, id), VersionOf(taker, id))
  {
    OverlaidAt(taker, giver, ids, id);
    if id in ids {
      assert NewerAt(giver, taker, id);
    }
  }

  lemma TakenSpreads(giver: Retained, taker: Retained, offered: seq<string>, gate: Gate, after: Taker, id: string)
    requires AllIn(offered, giver) && |gate.admitted| == |NewerIds(giver, taker, offered)|
    requires TakenAs(giver, taker, NewerIds(giver, taker, offered), gate, after)
    ensures VersionOf(taker, id) <= VersionOf(after.node.retained, id) <= Higher(VersionOf(giver, id), VersionOf(taker, id))
    ensures id in offered && GetsThrough(giver, taker, offered, gate, id) ==> VersionOf(after.node.retained, id) >= VersionOf(giver, id)
  {
    var taken := Kept(NewerIds(giver, taker, offered), gate.admitted);
    OverlaidVersions(giver, taker, offered, taken, id);
    OverlaidAt(taker, giver, taken, id);
  }

  lemma TableSpreads(t: Trust, giver: Node, taker: Taker, r: Round, id: string)
    requires t.ready && SoundTable(t, giver.retained) && Fits(giver, taker.node, r.connection, r.now, r.order)
    ensures AllIn(Offered(r.order), giver.retained)
    ensures
      var after := RoundOver(t, giver, taker, r.connection, r.peer, r.now, r.order, r.arrivals).node.retained;
      && VersionOf(taker.node.retained, id) <= VersionOf(after, id) <= Higher(VersionOf(giver.retained, id), VersionOf(taker.node.retained, id))
      && (id in Offered(r.order)
          && GetsThrough(giver.retained, taker.node.retained, Offered(r.order),
                         RoundGate(giver, taker, r.peer, r.now, r.order, r.arrivals), id) ==>
            VersionOf(after, id) >= VersionOf(giver.retained, id))
  {
    RoundTakesWhatIsAdmitted(t, giver, taker, r.connection, r.peer, r.now, r.order, r.arrivals);
    TakenSpreads(giver.retained, taker.node.retained, Offered(r.order), RoundGate(giver, taker, r.peer, r.now, r.order, r.arrivals),
                 RoundOver(t, giver, taker, r.connection, r.peer, r.now, r.order, r.arrivals), id);
  }

  lemma OnlyTakerChanges(net: Network, r: Round, taken: Taker, id: string)
    requires r.giver in net && r.taker in net
    requires
      var before, after := VersionAt(net, r.taker, id), VersionOf(taken.node.retained, id);
      && before <= after <= Higher(VersionAt(net, r.giver, id), before)
      && (Carries(net, r, id) ==> after >= VersionAt(net, r.giver, id))
    ensures Spreads(net, r, net[r.taker := taken], id)
  {
  }

  lemma RoundStep(t: Trust, net: Network, r: Round, id: string)
    requires t.ready && NetSound(t, net) && Runs(net, r)
    ensures NetSound(t, AfterRound(t, net, r)) && Spreads(net, r, AfterRound(t, net, r), id)
  {
    RoundKeepsSound(t, net[r.giver].node, net[r.taker], r.connection, r.peer, r.now, r.order, r.arrivals);
    TableSpreads(t, net[r.giver].node, net[r.taker], r, id);
    OnlyTakerChanges(net, r, RoundOver(t, net[r.giver].node, net[r.taker], r.connection, r.peer, r.now, r.order, r.arrivals), id);
  }

  /** The first of many rounds. */
  lemma FirstRound(t: Trust, net: Network, rounds: seq<Round>, holders: set<nat>, id: string) returns (after: Network)
    requires t.ready && NetSound(t, net) && rounds != [] && AllRun(t, net, rounds)
    ensures AfterRounds(t, net, rounds) == AfterRounds(t, after, rounds[1..])
    ensures Reached(t, net, holders, rounds, id) == Reached(t, after, Wider(net, holders, rounds[0], id), rounds[1..], id)
    ensures NetSound(t, after) && AllRun(t, after, rounds[1..]) && Spreads(net, rounds[0], after, id)
    ensures rounds[0].giver in net
  {
    after := AfterRound(t, net, rounds[0]);
    RoundStep(t, net, rounds[0], id);
  }

  ghost predicate Known(net: Network, holders: set<nat>, id: string, version: int) {
    forall h :: h in holders ==> VersionAt(net, h, id) >= version
  }

  lemma KnownWider(before: Network, r: Round, after: Network, holders: set<nat>, id: string, version: int)
    requires Spreads(before, r, after, id) && Known(before, holders, id, version)
    ensures Known(after, Wider(before, holders, r, id), id, version)
  {
    forall h | h in Wider(before, holders, r, id)
      ensures VersionAt(after, h, id) >= version
    {
      assert h != r.taker ==> VersionAt(after, h, id) == VersionAt(before, h, id);
    }
  }

  /** Everybody the news has come to holds at least the version every holder started with. */
  lemma {:induction false} NewsArrives(t: Trust, net: Network, rounds: seq<Round>, holders: set<nat>, id: string, version: int, n: nat)
    requires t.ready && NetSound(t, net) && AllRun(t, net, rounds)
    requires Known(net, holders, id, version) && n in Reached(t, net, holders, rounds, id)
    ensures VersionAt(AfterRounds(t, net, rounds), n, id) >= version
    decreases |rounds|
  {
    if rounds != [] {
      var after := FirstRound(t, net, rounds, holders, id);
      KnownWider(net, rounds[0], after, holders, id, version);
      NewsArrives(t, after, rounds[1..], Wider(net, holders, rounds[0], id), id, version, n);
    }
  }

  ghost predicate AtMost(net: Network, id: string, limit: int) {
    -1 <= limit && forall m :: VersionAt(net, m, id) <= limit
  }

  lemma AtMostStays(before: Network, r: Round, after: Network, id: string, limit: int)
    requires Spreads(before, r, after, id) && AtMost(before, id, limit)
    ensures AtMost(after, id, limit)
  {
    forall m
      ensures VersionAt(after, m, id) <= limit
    {
      assert m != r.taker ==> VersionAt(after, m, id) == VersionAt(before, m, id);
    }
  }

  /** No version appears that nobody held, whatever is admitted, refused or late. */
  lemma {:induction false} NothingInvented(t: Trust, net: Network, rounds: seq<Round>, id: string, limit: int, n: nat)
    requires t.ready && NetSound(t, net) && AllRun(t, net, rounds) && AtMost(net, id, limit)
    ensures VersionAt(AfterRounds(t, net, rounds), n, id) <= limit
    decreases |rounds|
  {
    if rounds != [] {
      var after := FirstRound(t, net, rounds, {}, id);
      AtMostStays(net, rounds[0], after, id, limit);
      NothingInvented(t, after, rounds[1..], id, limit, n);
    }
  }

  /** No node ever loses a version. */
  lemma {:induction false} NothingLost(t: Trust, net: Network, rounds: seq<Round>, id: string, n: nat)
    requires t.ready && NetSound(t, net) && AllRun(t, net, rounds)
    ensures VersionAt(AfterRounds(t, net, rounds), n, id) >= VersionAt(net, n, id)
    decreases |rounds|
  {
    if rounds != [] {
      var after := FirstRound(t, net, rounds, {}, id);
      assert n != rounds[0].taker ==> VersionAt(after, n, id) == VersionAt(net, n, id);
      NothingLost(t, after, rounds[1..], id, n);
    }
  }

  /**
   * Once rounds that carry the announce have led from a holder of its highest version to
   * every node, whatever other rounds came between, all nodes hold that version.
   */
  lemma EverybodyAgrees(t: Trust, net: Network, rounds: seq<Round>, id: string, best: nat, n: nat)
    requires t.ready && NetSound(t, net) && AllRun(t, net, rounds)
    requires best in net && n in net && Reached(t, net, {best}, rounds, id) >= net.Keys
    requires forall m :: m in net ==> VersionAt(net, m, id) <= VersionAt(net, best, id)
    ensures VersionAt(AfterRounds(t, net, rounds), n, id) == VersionAt(net, best, id)
  {
    BestIsMost(net, id, best);
    NewsArrives(t, net, rounds, {best}, id, VersionAt(net, best, id), n);
    NothingInvented(t, net, rounds, id, VersionAt(net, best, id), n);
  }

  lemma BestIsMost(net: Network, id: string, best: nat)
    requires forall m :: m in net ==> VersionAt(net, m, id) <= VersionAt(net, best, id)
    ensures AtMost(net, id, VersionAt(net, best, id)) && Known(net, {best}, id, VersionAt(net, best, id))
  {
  }
}
