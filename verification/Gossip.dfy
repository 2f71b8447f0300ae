/** The announce gossip between nodes: offers, wants and records over any run of deliveries. */
module Gossip {
  import opened Wrappers
  import opened Bytes
  import opened Announces
  import opened WireCodec
  import opened Receiver
  import opened PeerBudget
  import opened Wants

  type Connection = nat

  datatype Node = Node(retained: Retained, wants: map<Connection, Pending>)

  function WantsOf(node: Node, c: Connection): Pending {
    if c in node.wants then node.wants[c] else map[]
  }

  function KeyOf(s: AnnounceSummary): string {
    Identifier(s.publisher, s.modName)
  }

  // ---- Answering an offer

  /** The offered summaries worth asking for, at most `room` of them. */
  function Missing(t: Trust, retained: Retained, offered: seq<AnnounceSummary>, room: nat): seq<AnnounceSummary>
    decreases offered
  {
    if offered == [] || room == 0 then []
    else if !WouldAccept(t, retained, offered[0].publisher, offered[0].modName, offered[0].version) then
      Missing(t, retained, offered[1..], room)
    else [offered[0]] + Missing(t, retained, offered[1..], room - 1)
  }

  datatype TrackResult = TrackResult(pending: Pending, tracked: seq<AnnounceSummary>)

  function TrackAll(pending: Pending, wanted: seq<AnnounceSummary>, now: Time): TrackResult
    decreases wanted
  {
    if wanted == [] then TrackResult(pending, [])
    else
      var first := Track(pending, KeyOf(wanted[0]), now);
      var rest := TrackAll(first.pending, wanted[1..], now);
      TrackResult(rest.pending, (if first.ok then [wanted[0]] else []) + rest.tracked)
  }

  /** The node afterwards, what it sends back, the summaries it tracked, and whether it penalises the peer. */
  datatype Reaction = Reaction(node: Node, replies: seq<seq<byte>>, tracked: seq<AnnounceSummary>, ingested: Option<string>, penalises: bool)

  function Quiet(node: Node): Reaction {
    Reaction(node, [], [], None, false)
  }

  function Violation(node: Node): Reaction {
    Reaction(node, [], [], None, true)
  }

  function HandleOffer(t: Trust, node: Node, c: Connection, now: Time, body: seq<byte>): Reaction {
    match DecodedOffer(body)
    case None => Violation(node)
    case Some(offered) =>
      var wanted := Missing(t, node.retained, offered, MAXIMUM_ENTRIES);
      if wanted == [] then Quiet(node)
      else
        var r := TrackAll(Pruned(WantsOf(node, c), now), wanted, now);
        Reaction(
          node.(wants := node.wants[c := r.pending]),
          if r.tracked == [] then [] else [EncodedWant(r.tracked)],
          r.tracked, None, false)
  }

  /** An offer with something worth asking for: what is tracked is asked for in one want. */
  lemma OfferTracks(t: Trust, node: Node, c: Connection, now: Time, body: seq<byte>, offered: seq<AnnounceSummary>, wanted: seq<AnnounceSummary>)
    requires DecodedOffer(body) == Some(offered) && wanted == Missing(t, node.retained, offered, MAXIMUM_ENTRIES) != []
    ensures
      var r := TrackAll(Pruned(WantsOf(node, c), now), wanted, now);
      HandleOffer(t, node, c, now, body)
        == Reaction(Node(node.retained, node.wants[c := r.pending]), if r.tracked == [] then [] else [EncodedWant(r.tracked)], r.tracked, None, false)
  {
  }

  // ---- Answering a want

  function Served(retained: Retained, wanted: seq<AnnounceSummary>): seq<seq<byte>> {
    if wanted == [] then []
    else
      match RecordFor(retained, wanted[0].publisher, wanted[0].modName)
      case None => Served(retained, wanted[1..])
      case Some(record) => [EncodedRecord(record)] + Served(retained, wanted[1..])
  }

  function HandleWant(node: Node, body: seq<byte>): Reaction {
    match DecodedWant(body)
    case None => Violation(node)
    case Some(wanted) => Reaction(node, Served(node.retained, wanted), [], None, false)
  }

  // ---- Taking a record

  /** `admitted` is the token bucket's answer for the sending peer. */
  function HandleRecord(t: Trust, node: Node, c: Connection, body: seq<byte>, admitted: bool): Reaction {
    match DecodedRecord(body)
    case None => Violation(node)
    case Some(record) =>
      match SummaryOf(record)
      case None => Violation(node)
      case Some(summary) =>
        var redeemed := Redeem(WantsOf(node, c), KeyOf(summary));
        if !redeemed.ok then Violation(node)
        else
          Reaction(
            Node(if admitted then Accepted(t, node.retained, record).retained else node.retained,
                 node.wants[c := redeemed.pending]),
            [], [], Some(KeyOf(summary)), false)
  }

  /** The same record once more is a violation: its want is used up. */
  lemma SecondRecordIsAViolation(t: Trust, node: Node, c: Connection, body: seq<byte>, first: bool, second: bool)
    requires HandleRecord(t, node, c, body, first).ingested.Some?
    ensures
      var after := HandleRecord(t, node, c, body, first).node;
      HandleRecord(t, after, c, body, second) == Violation(after)
  {
    var key := KeyOf(SummaryOf(DecodedRecord(body).value).value);
    assert key !in WantsOf(HandleRecord(t, node, c, body, first).node, c);
  }

  // ---- Runs over any number of nodes

  /** Anything may arrive anywhere at any time: late, twice, forged or never. */
  datatype Event =
    | Deliver(to: nat, from: Connection, now: Time, body: seq<byte>, admitted: bool)
    | Tick(to: nat, from: Connection, now: Time)

  function React(t: Trust, node: Node, e: Event): Reaction {
    match e
    case Tick(_, c, now) => Quiet(node.(wants := node.wants[c := Pruned(WantsOf(node, c), now)]))
    case Deliver(_, c, now, body, admitted) =>
      if |body| > MAXIMUM_MESSAGE_BYTES then Violation(node)
      else match MessageOf(body)
      case None => Quiet(node)
      case Some(Offer) => HandleOffer(t, node, c, now, body)
      case Some(Want) => HandleWant(node, body)
      case Some(Record) => HandleRecord(t, node, c, body, admitted)
      case Some(Ask) => Quiet(node)
  }

  type Nodes = map<nat, Node>

  function Stepped(t: Trust, nodes: Nodes, e: Event): Nodes {
    if e.to in nodes then nodes[e.to := React(t, nodes[e.to], e).node] else nodes
  }

  function Ran(t: Trust, nodes: Nodes, events: seq<Event>): Nodes
    decreases events
  {
    if events == [] then nodes else Ran(t, Stepped(t, nodes, events[0]), events[1..])
  }

  ghost predicate AllSound(t: Trust, nodes: Nodes) {
    forall n :: n in nodes ==> SoundTable(t, nodes[n].retained)
  }

  /** Reacting keeps the table as it was or takes one record through the receiver. */
  lemma ReactRetained(t: Trust, node: Node, e: Event)
    ensures
      var after := React(t, node, e).node.retained;
      || after == node.retained
      || (e.Deliver? && DecodedRecord(e.body).Some? && after == Accepted(t, node.retained, DecodedRecord(e.body).value).retained)
  {
  }

  lemma ReactSound(t: Trust, node: Node, e: Event)
    requires SoundTable(t, node.retained)
    ensures SoundTable(t, React(t, node, e).node.retained)
    ensures forall id :: VersionOf(React(t, node, e).node.retained, id) >= VersionOf(node.retained, id)
  {
    ReactRetained(t, node, e);
    if e.Deliver? && DecodedRecord(e.body).Some? {
      AcceptedSound(t, node.retained, DecodedRecord(e.body).value);
    }
  }

  /** Over every run every node only holds authentic announces, and no version it holds ever falls. */
  lemma {:induction false} GossipSafety(t: Trust, nodes: Nodes, events: seq<Event>)
    requires AllSound(t, nodes)
    ensures AllSound(t, Ran(t, nodes, events))
    ensures Ran(t, nodes, events).Keys == nodes.Keys
    ensures forall n, id :: n in nodes ==>
      VersionOf(Ran(t, nodes, events)[n].retained, id) >= VersionOf(nodes[n].retained, id)
    decreases events
  {
    if events != [] {
      var e := events[0];
      var next := Stepped(t, nodes, e);
      if e.to in nodes {
        ReactSound(t, nodes[e.to], e);
      }
      assert forall n, id :: n in nodes ==> VersionOf(next[n].retained, id) >= VersionOf(nodes[n].retained, id);
      GossipSafety(t, next, events[1..]);
    }
  }

  // ---- Ingests are paid for by wants

  function CountOf(summaries: seq<AnnounceSummary>, id: string): nat {
    if summaries == [] then 0 else (if KeyOf(summaries[0]) == id then 1 else 0) + CountOf(summaries[1..], id)
  }

  predicate Concerns(e: Event, n: nat, c: Connection) {
    e.to == n && e.from == c
  }

  function TrackedIn(t: Trust, nodes: Nodes, events: seq<Event>, n: nat, c: Connection, id: string): nat
    decreases events
  {
    if events == [] then 0
    else
      var e := events[0];
      (if Concerns(e, n, c) && n in nodes then CountOf(React(t, nodes[n], e).tracked, id) else 0)
      + TrackedIn(t, Stepped(t, nodes, e), events[1..], n, c, id)
  }

  function IngestedIn(t: Trust, nodes: Nodes, events: seq<Event>, n: nat, c: Connection, id: string): nat
    decreases events
  {
    if events == [] then 0
    else
      var e := events[0];
      (if Concerns(e, n, c) && n in nodes && React(t, nodes[n], e).ingested == Some(id) then 1 else 0)
      + IngestedIn(t, Stepped(t, nodes, e), events[1..], n, c, id)
  }

  lemma {:induction false} TrackAllOwed(pending: Pending, wanted: seq<AnnounceSummary>, now: Time, id: string)
    ensures
      var r := TrackAll(pending, wanted, now);
      Owed(r.pending, id) <= Owed(pending, id) + CountOf(r.tracked, id)
    decreases wanted
  {
    if wanted != [] {
      var first := Track(pending, KeyOf(wanted[0]), now);
      TrackAllOwed(first.pending, wanted[1..], now, id);
      var rest := TrackAll(first.pending, wanted[1..], now);
      var r := TrackAll(pending, wanted, now);
      if first.ok {
        assert r.tracked[1..] == rest.tracked;
      } else {
        assert r.tracked == rest.tracked;
      }
    }
  }

  /** What one step may take and must owe on a connection. */
  ghost predicate Balanced(before: Node, r: Reaction, c: Connection, id: string) {
    Owed(WantsOf(r.node, c), id) + (if r.ingested == Some(id) then 1 else 0) <= Owed(WantsOf(before, c), id) + CountOf(r.tracked, id)
  }

  lemma OfferOwed(t: Trust, node: Node, c: Connection, now: Time, body: seq<byte>, id: string)
    ensures Balanced(node, HandleOffer(t, node, c, now, body), c, id)
  {
    if DecodedOffer(body).Some? {
      var wanted := Missing(t, node.retained, DecodedOffer(body).value, MAXIMUM_ENTRIES);
      TrackAllOwed(Pruned(WantsOf(node, c), now), wanted, now, id);
    }
  }

  lemma RecordOwed(t: Trust, node: Node, c: Connection, body: seq<byte>, admitted: bool, id: string)
    ensures Balanced(node, HandleRecord(t, node, c, body, admitted), c, id)
  {
  }

  lemma OthersUntouched(t: Trust, node: Node, e: Event, c: Connection)
    requires e.from != c
    ensures WantsOf(React(t, node, e).node, c) == WantsOf(node, c)
  {
  }

  lemma ReactOwed(t: Trust, node: Node, e: Event, c: Connection, id: string)
    ensures
      if e.from == c then Balanced(node, React(t, node, e), c, id)
      else WantsOf(React(t, node, e).node, c) == WantsOf(node, c)
  {
    if e.from != c {
      OthersUntouched(t, node, e, c);
    } else if e.Deliver? {
      OfferOwed(t, node, c, e.now, e.body, id);
      RecordOwed(t, node, c, e.body, e.admitted, id);
    }
  }

  /** On every connection, over every run, records taken for an identifier never outnumber wants sent for it. */
  lemma {:induction false} IngestsNeverExceedWants(t: Trust, nodes: Nodes, events: seq<Event>, n: nat, c: Connection, id: string)
    requires n in nodes
    ensures IngestedIn(t, nodes, events, n, c, id) <= Owed(WantsOf(nodes[n], c), id) + TrackedIn(t, nodes, events, n, c, id)
    decreases events
  {
    if events != [] {
      var e := events[0];
      ReactOwed(t, nodes[n], e, c, id);
      IngestsNeverExceedWants(t, Stepped(t, nodes, e), events[1..], n, c, id);
    }
  }
}
