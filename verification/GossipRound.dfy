/** One round between two nodes: an offer, a want and the records the token bucket lets through. */
module GossipRound {
  import opened Sequences
  import opened Wrappers
  import opened Bytes
  import opened Announces
  import opened AnnounceCodec
  import opened WireCodec
  import opened Receiver
  import opened PeerBudget
  import opened Wants
  import opened Gossip
  import opened Exchange
  import opened GossipJoint
  import opened RecordGate

  ghost predicate AllIn(ids: seq<string>, retained: Retained) {
    forall id :: id in ids ==> id in retained
  }

  ghost predicate Distinct(ids: seq<string>) {
    forall i, j :: 0 <= i < j < |ids| ==> ids[i] != ids[j]
  }

  function SummaryFor(a: SignedAnnounce): AnnounceSummary {
    AnnounceSummary(a.publisher, a.modName, a.version)
  }

  /** A table's holdings, in the order its map is walked. */
  function Holdings(retained: Retained, ids: seq<string>): (r: seq<AnnounceSummary>)
    requires AllIn(ids, retained)
    ensures |r| == |ids|
    ensures forall i :: 0 <= i < |ids| ==> ids[i] in ids && r[i] == SummaryFor(retained[ids[i]])
  {
    if ids == [] then []
    else
      assert ids[0] in ids;
      [SummaryFor(retained[ids[0]])] + Holdings(retained, ids[1..])
  }

  /** What one message left, and whether the connection was dropped over it. */
  datatype Taken = Taken(taker: Taker, dropped: bool)

  /** The connection's tick drops its expired wants. */
  function Ticked(t: Trust, node: Node, c: Connection, at: Time): (r: Node)
    ensures r.retained == node.retained && WantsOf(r, c) == Pruned(WantsOf(node, c), at)
  {
    React(t, node, Event.Tick(0, c, at)).node
  }

  /** The last tick before the record, then the record. */
  function TakeOne(t: Trust, s: Taker, c: Connection, peer: string, message: seq<byte>, a: Arrival): Taken {
    var r := HandleRecord(t, Ticked(t, s.node, c, a.ticked), c, message, Admits(s.budgets, Charge(peer, a)));
    if r.penalises then Taken(Taker(r.node, Applied(s.budgets, Penalty(peer, a))), true)
    else Taken(Taker(r.node, Applied(s.budgets, Charge(peer, a))), CutOff(s.budgets, peer, a))
  }

  /** The records a peer sends back, each charged to it, until none is left or the connection is dropped. */
  function TakeAll(t: Trust, s: Taker, c: Connection, peer: string, messages: seq<seq<byte>>, arrivals: Arrivals, from: nat): Taker
    decreases messages
  {
    if messages == [] then s
    else
      var one := TakeOne(t, s, c, peer, messages[0], arrivals(from));
      if one.dropped then one.taker else TakeAll(t, one.taker, c, peer, messages[1..], arrivals, from + 1)
  }

  /** The taking side after a round over what the giver holds at `order`; `peer` is the giver as the taker knows it. */
  function RoundOver(
    t: Trust, giver: Node, taker: Taker, c: Connection, peer: string, now: Time, order: seq<string>, arrivals: Arrivals): Taker
    requires AllIn(order, giver.retained)
  {
    var asked := HandleOffer(t, taker.node, c, now, EncodedOffer(Holdings(giver.retained, order)));
    if asked.replies == [] then taker.(node := asked.node)
    else TakeAll(t, taker.(node := asked.node), c, peer, HandleWant(giver, asked.replies[0]).replies, arrivals, 0)
  }

  /** An offer carries the first 64 entries. */
  function Offered(order: seq<string>): (r: seq<string>)
    ensures |r| <= MAXIMUM_ENTRIES && r <= order
  {
    if |order| < MAXIMUM_ENTRIES then order else order[..MAXIMUM_ENTRIES]
  }

  predicate NewerAt(giver: Retained, taker: Retained, id: string)
    requires id in giver
  {
    id !in taker || giver[id].version > taker[id].version
  }

  function NewerIds(giver: Retained, taker: Retained, ids: seq<string>): (r: seq<string>)
    requires AllIn(ids, giver)
    ensures |r| <= |ids|
    ensures forall id :: id in r <==> id in ids && NewerAt(giver, taker, id)
  {
    if ids == [] then []
    else
      assert ids[0] in ids;
      (if NewerAt(giver, taker, ids[0]) then [ids[0]] else []) + NewerIds(giver, taker, ids[1..])
  }

  lemma {:induction false} NewerIdsDistinct(giver: Retained, taker: Retained, ids: seq<string>)
    requires AllIn(ids, giver) && Distinct(ids)
    ensures Distinct(NewerIds(giver, taker, ids))
  {
    if ids != [] {
      NewerIdsDistinct(giver, taker, ids[1..]);
      var rest := NewerIds(giver, taker, ids[1..]);
      forall k | 0 <= k < |rest|
        ensures rest[k] != ids[0]
      {
        assert rest[k] in rest;
      }
    }
  }

  function Elements(ids: seq<string>): set<string> {
    set id | id in ids
  }

  // ---- What is asked for

  /** The taker would ask for the giver's announce exactly when it is newer. */
  ghost predicate AsksForNewer(t: Trust, giver: Retained, taker: Retained, id: string)
    requires id in giver
  {
    WouldAccept(t, taker, giver[id].publisher, giver[id].modName, giver[id].version) <==> NewerAt(giver, taker, id)
  }

  lemma NewerIsWanted(t: Trust, giver: Retained, taker: Retained, id: string)
    requires SoundTable(t, giver) && id in giver
    requires id in taker || |taker| < MAXIMUM_RETAINED
    ensures AsksForNewer(t, giver, taker, id)
    ensures KeyOf(SummaryFor(giver[id])) == id
  {
    assert SoundEntry(t, id, giver[id]);
  }

  lemma MissingStep(t: Trust, taker: Retained, first: AnnounceSummary, rest: seq<AnnounceSummary>, room: nat)
    requires room > 0
    ensures Missing(t, taker, [first] + rest, room)
         == if WouldAccept(t, taker, first.publisher, first.modName, first.version)
            then [first] + Missing(t, taker, rest, room - 1) else Missing(t, taker, rest, room)
  {
    var all := [first] + rest;
    assert all[0] == first && all[1..] == rest;
  }

  lemma {:induction false} MissingIsNewer(t: Trust, giver: Retained, taker: Retained, ids: seq<string>, room: nat)
    requires AllIn(ids, giver) && |ids| <= room
    requires forall id :: id in ids ==> AsksForNewer(t, giver, taker, id)
    ensures Missing(t, taker, Holdings(giver, ids), room) == Holdings(giver, NewerIds(giver, taker, ids))
    decreases ids
  {
    if ids != [] {
      var id := ids[0];
      assert id in ids;
      assert AsksForNewer(t, giver, taker, id);
      var left := if NewerAt(giver, taker, id) then room - 1 else room;
      MissingIsNewer(t, giver, taker, ids[1..], left);
      MissingStep(t, taker, SummaryFor(giver[id]), Holdings(giver, ids[1..]), room);
      HoldingsStep(giver, taker, ids);
    }
  }

  lemma HoldingsStep(giver: Retained, taker: Retained, ids: seq<string>)
    requires AllIn(ids, giver) && ids != []
    ensures ids[0] in ids
    ensures Holdings(giver, NewerIds(giver, taker, ids))
         == (if NewerAt(giver, taker, ids[0]) then [SummaryFor(giver[ids[0]])] else [])
            + Holdings(giver, NewerIds(giver, taker, ids[1..]))
  {
    var rest := NewerIds(giver, taker, ids[1..]);
    if NewerAt(giver, taker, ids[0]) {
      assert ([ids[0]] + rest)[1..] == rest;
    } else {
      assert [] + rest == rest;
    }
  }

  lemma TrackGrows(pending: Pending, id: string, now: Time)
    requires |pending| < MAXIMUM_OUTSTANDING
    ensures
      var r := Track(pending, id, now);
      r.ok && |r.pending| <= |pending| + 1 && r.pending.Keys == pending.Keys + {id}
  {
    var r := Track(pending, id, now);
    assert |r.pending| == |r.pending.Keys| && |pending| == |pending.Keys|;
    assert r.pending.Keys == pending.Keys + {id};
  }

  function KeysOf(wanted: seq<AnnounceSummary>): set<string> {
    set s | s in wanted :: KeyOf(s)
  }

  lemma TrackAllFirst(pending: Pending, wanted: seq<AnnounceSummary>, now: Time, next: Pending)
    requires wanted != [] && Track(pending, KeyOf(wanted[0]), now) == Tracked(next, true)
    ensures TrackAll(pending, wanted, now)
         == TrackResult(TrackAll(next, wanted[1..], now).pending, [wanted[0]] + TrackAll(next, wanted[1..], now).tracked)
  {
  }

  lemma {:induction false} TrackAllFits(pending: Pending, wanted: seq<AnnounceSummary>, now: Time)
    requires |pending| + |wanted| <= MAXIMUM_OUTSTANDING
    ensures TrackAll(pending, wanted, now).tracked == wanted
    ensures pending.Keys <= TrackAll(pending, wanted, now).pending.Keys
    ensures KeysOf(wanted) <= TrackAll(pending, wanted, now).pending.Keys
    ensures forall id :: id in TrackAll(pending, wanted, now).pending ==>
      TrackAll(pending, wanted, now).pending[id] == if id in KeysOf(wanted) || id !in pending then now else pending[id]
    decreases wanted
  {
    if wanted != [] {
      TrackGrows(pending, KeyOf(wanted[0]), now);
      var next := Track(pending, KeyOf(wanted[0]), now).pending;
      TrackAllFirst(pending, wanted, now, next);
      TrackAllFits(next, wanted[1..], now);
      KeysOfStep(wanted);
      HeadAndTail(wanted);
    }
  }

  lemma KeysOfStep(wanted: seq<AnnounceSummary>)
    requires wanted != []
    ensures KeysOf(wanted) == {KeyOf(wanted[0])} + KeysOf(wanted[1..])
  {
    assert forall s :: s in wanted <==> s == wanted[0] || s in wanted[1..];
  }

  // ---- What is served

  function RecordsOf(retained: Retained, ids: seq<string>): (r: seq<seq<byte>>)
    requires AllIn(ids, retained)
  {
    if ids == [] then []
    else
      assert ids[0] in ids;
      [EncodedRecord(Encoded(retained[ids[0]]))] + RecordsOf(retained, ids[1..])
  }

  ghost predicate Servable(retained: Retained, id: string) {
    id in retained && IdentifierOf(retained[id]) == id
  }

  lemma CarriedStep(first: AnnounceSummary, rest: seq<AnnounceSummary>)
    ensures Carried([first] + rest, false) == [WithoutVersion(first)] + Carried(rest, false)
  {
  }

  lemma ServedStep(retained: Retained, first: AnnounceSummary, rest: seq<AnnounceSummary>)
    requires KeyOf(first) in retained
    ensures Served(retained, [first] + rest) == [EncodedRecord(Encoded(retained[KeyOf(first)]))] + Served(retained, rest)
  {
    var all := [first] + rest;
    assert all[0] == first && all[1..] == rest;
    assert RecordFor(retained, first.publisher, first.modName) == Some(Encoded(retained[KeyOf(first)]));
  }

  lemma {:induction false} ServesWhatWasAsked(giver: Retained, ids: seq<string>)
    requires AllIn(ids, giver)
    requires forall id :: id in ids ==> Servable(giver, id)
    ensures Served(giver, Carried(Holdings(giver, ids), false)) == RecordsOf(giver, ids)
    decreases ids
  {
    if ids != [] {
      var id := ids[0];
      assert id in ids && Servable(giver, id);
      ServesWhatWasAsked(giver, ids[1..]);
      CarriedStep(SummaryFor(giver[id]), Holdings(giver, ids[1..]));
      ServedStep(giver, WithoutVersion(SummaryFor(giver[id])), Carried(Holdings(giver, ids[1..]), false));
    }
  }

  // ---- What is taken

  lemma TakenAsNewer(t: Trust, retained: Retained, a: SignedAnnounce)
    requires IsUsable(t, a.publisher) && Authentic(t, a) && t.ready
    requires IdentifierOf(a) !in retained || a.version > retained[IdentifierOf(a)].version
    requires IdentifierOf(a) in retained || |retained| < MAXIMUM_RETAINED
    ensures Judged(t, retained, a).retained == retained[IdentifierOf(a) := a]
  {
  }

  /** The bytes that arrive are the announce that was sent. */
  lemma RecordArrives(a: SignedAnnounce)
    requires AcceptableName(a.modName)
    ensures DecodedRecord(EncodedRecord(Encoded(a))) == Some(Encoded(a))
    ensures SummaryOf(Encoded(a)) == Some(SummaryFor(a))
    ensures Decoded(Encoded(a)) == Ok(a)
  {
    RecordRoundTrip(Encoded(a));
    AnnounceRoundTrip(a);
    SummaryAgreesWithDecoding(Encoded(a));
  }

  lemma RecordHandled(t: Trust, node: Node, c: Connection, body: seq<byte>, record: seq<byte>, a: SignedAnnounce, admitted: bool)
    requires DecodedRecord(body) == Some(record) && SummaryOf(record) == Some(SummaryFor(a)) && Decoded(record) == Ok(a)
    requires IdentifierOf(a) in WantsOf(node, c)
    ensures
      var r := HandleRecord(t, node, c, body, admitted);
      && !r.penalises
      && r.node == Node(if admitted then Judged(t, node.retained, a).retained else node.retained,
                        node.wants[c := WantsOf(node, c) - {IdentifierOf(a)}])
  {
    assert KeyOf(SummaryFor(a)) == IdentifierOf(a);
    assert Accepted(t, node.retained, record) == Judged(t, node.retained, a);
  }

  /** The table after one wanted, newer record, admitted or not. */
  function WithRecord(node: Node, c: Connection, giver: Retained, id: string, admitted: bool): Node
    requires id in giver
  {
    Node(if admitted then node.retained[id := giver[id]] else node.retained, node.wants[c := WantsOf(node, c) - {id}])
  }

  lemma RecordTaken(t: Trust, giver: Retained, node: Node, c: Connection, id: string, admitted: bool)
    requires SoundTable(t, giver) && t.ready && id in giver && id in WantsOf(node, c)
    requires NewerAt(giver, node.retained, id) && (id in node.retained || |node.retained| < MAXIMUM_RETAINED)
    ensures
      var r := HandleRecord(t, node, c, EncodedRecord(Encoded(giver[id])), admitted);
      !r.penalises && r.node == WithRecord(node, c, giver, id, admitted)
  {
    var a := giver[id];
    assert SoundEntry(t, id, a);
    RecordArrives(a);
    TakenAsNewer(t, node.retained, a);
    RecordHandled(t, node, c, EncodedRecord(Encoded(a)), Encoded(a), a, admitted);
  }

  function Overlaid(base: Retained, giver: Retained, ids: seq<string>): Retained
    requires AllIn(ids, giver)
    decreases ids
  {
    if ids == [] then base
    else
      assert ids[0] in ids;
      Overlaid(base[ids[0] := giver[ids[0]]], giver, ids[1..])
  }

  /** Identifiers of the list a table does not have yet. */
  function NewKeys(table: Retained, ids: seq<string>): set<string> {
    set id | id in ids && id !in table
  }

  /** The identifier is wanted since then. */
  predicate WantedSince(node: Node, c: Connection, id: string, since: Time) {
    id in WantsOf(node, c) && WantsOf(node, c)[id] == since
  }

  /** Everything left to take is wanted since the offer, newer, and has room. */
  ghost predicate Taking(giver: Retained, node: Node, c: Connection, ids: seq<string>, since: Time) {
    && AllIn(ids, giver) && Distinct(ids)
    && (forall id :: id in ids ==> WantedSince(node, c, id, since) && NewerAt(giver, node.retained, id))
    && |node.retained.Keys + NewKeys(node.retained, ids)| <= MAXIMUM_RETAINED
  }

  lemma RoomForNext(giver: Retained, node: Node, c: Connection, ids: seq<string>, since: Time)
    requires Taking(giver, node, c, ids, since) && ids != []
    ensures ids[0] in node.retained || |node.retained| < MAXIMUM_RETAINED
  {
    var id := ids[0];
    if id !in node.retained {
      var room := node.retained.Keys + NewKeys(node.retained, ids);
      assert id in room;
      StrictlySmaller(node.retained.Keys, room, id);
      assert |node.retained| == |node.retained.Keys|;
    }
  }

  lemma TakingGoesOn(giver: Retained, node: Node, c: Connection, ids: seq<string>, since: Time, admitted: bool)
    requires Taking(giver, node, c, ids, since) && ids != [] && ids[0] in giver
    ensures Taking(giver, WithRecord(node, c, giver, ids[0], admitted), c, ids[1..], since)
  {
    var next := WithRecord(node, c, giver, ids[0], admitted);
    forall other | other in ids[1..]
      ensures WantedSince(next, c, other, since) && NewerAt(giver, next.retained, other)
    {
      assert other in ids && other != ids[0];
      assert WantedSince(node, c, other, since);
    }
    SameRoom(node.retained, ids, giver[ids[0]]);
    SubsetSize(node.retained.Keys + NewKeys(node.retained, ids[1..]), node.retained.Keys + NewKeys(node.retained, ids));
  }

  /** A tick before the wants expire leaves everything to take. */
  lemma TakingOutlivesTick(t: Trust, giver: Retained, node: Node, c: Connection, ids: seq<string>, since: Time, at: Time)
    requires Taking(giver, node, c, ids, since) && at < since + WANT_EXPIRY
    ensures Taking(giver, Ticked(t, node, c, at), c, ids, since)
  {
    var next := Ticked(t, node, c, at);
    forall id | id in ids
      ensures WantedSince(next, c, id, since) && NewerAt(giver, next.retained, id)
    {
      assert WantedSince(node, c, id, since);
    }
  }

  lemma SameRoom(table: Retained, ids: seq<string>, a: SignedAnnounce)
    requires ids != []
    ensures
      var next := table[ids[0] := a];
      next.Keys + NewKeys(next, ids[1..]) == table.Keys + NewKeys(table, ids)
  {
    assert forall id :: id in ids <==> id == ids[0] || id in ids[1..];
  }

  /** The identifiers whose records were admitted. */
  function Kept(ids: seq<string>, admitted: seq<bool>): (r: seq<string>)
    requires |ids| == |admitted|
    ensures forall id :: id in r ==> id in ids
  {
    if ids == [] then [] else (if admitted[0] then [ids[0]] else []) + Kept(ids[1..], admitted[1..])
  }

  lemma {:induction false} NoneKept(ids: seq<string>)
    ensures Kept(ids, Refused(|ids|)) == []
  {
    if ids != [] {
      assert Refused(|ids|)[1..] == Refused(|ids[1..]|);
      NoneKept(ids[1..]);
    }
  }

  lemma KeptInFront(id: string, ids: seq<string>, first: bool, admitted: seq<bool>)
    requires |ids| == |admitted|
    ensures Kept([id] + ids, [first] + admitted) == (if first then [id] else []) + Kept(ids, admitted)
  {
    assert ([id] + ids)[1..] == ids && ([first] + admitted)[1..] == admitted;
  }

  lemma OverlaidInFront(base: Retained, giver: Retained, id: string, ids: seq<string>)
    requires id in giver && AllIn(ids, giver)
    ensures AllIn([id] + ids, giver) && Overlaid(base, giver, [id] + ids) == Overlaid(base[id := giver[id]], giver, ids)
  {
    assert ([id] + ids)[0] == id && ([id] + ids)[1..] == ids;
  }

  /** One record in time: the node, and whether the rest still arrives. */
  lemma OneTaken(t: Trust, giver: Retained, s: Taker, c: Connection, peer: string, ids: seq<string>, since: Time, a: Arrival)
    requires SoundTable(t, giver) && t.ready && Taking(giver, s.node, c, ids, since) && ids != [] && ids[0] in giver
    requires !Late(a, since + WANT_EXPIRY)
    ensures
      var admitted := Admits(s.budgets, Charge(peer, a));
      var one := TakeOne(t, s, c, peer, EncodedRecord(Encoded(giver[ids[0]])), a);
      && one.taker == Taker(WithRecord(Ticked(t, s.node, c, a.ticked), c, giver, ids[0], admitted), Applied(s.budgets, Charge(peer, a)))
      && one.dropped == CutOff(s.budgets, peer, a)
  {
    TakingOutlivesTick(t, giver, s.node, c, ids, since, a.ticked);
    var ticked := Ticked(t, s.node, c, a.ticked);
    assert ids[0] in ids && WantedSince(ticked, c, ids[0], since);
    RoomForNext(giver, ticked, c, ids, since);
    RecordTaken(t, giver, ticked, c, ids[0], Admits(s.budgets, Charge(peer, a)));
  }

  lemma UnwantedRecord(t: Trust, node: Node, c: Connection, a: SignedAnnounce, admitted: bool)
    requires AcceptableName(a.modName) && IdentifierOf(a) !in WantsOf(node, c)
    ensures HandleRecord(t, node, c, EncodedRecord(Encoded(a)), admitted) == Violation(node)
  {
    RecordArrives(a);
    assert KeyOf(SummaryFor(a)) == IdentifierOf(a);
  }

  /** One late record: its want is gone, so it is penalised and the connection is dropped. */
  lemma LateRecordRefused(t: Trust, giver: Retained, s: Taker, c: Connection, peer: string, ids: seq<string>, since: Time, a: Arrival)
    requires SoundTable(t, giver) && Taking(giver, s.node, c, ids, since) && ids != [] && ids[0] in giver
    requires Late(a, since + WANT_EXPIRY)
    ensures TakeOne(t, s, c, peer, EncodedRecord(Encoded(giver[ids[0]])), a)
         == Taken(Taker(Ticked(t, s.node, c, a.ticked), Applied(s.budgets, Penalty(peer, a))), true)
  {
    assert ids[0] in ids && WantedSince(s.node, c, ids[0], since);
    assert SoundEntry(t, ids[0], giver[ids[0]]);
    UnwantedRecord(t, Ticked(t, s.node, c, a.ticked), c, giver[ids[0]], Admits(s.budgets, Charge(peer, a)));
  }

  /** The table and the budgets after a burst of wanted, newer records. */
  ghost predicate TakenAs(giver: Retained, base: Retained, ids: seq<string>, gate: Gate, after: Taker)
    requires AllIn(ids, giver) && |ids| == |gate.admitted|
  {
    && AllIn(Kept(ids, gate.admitted), giver)
    && after.node.retained == Overlaid(base, giver, Kept(ids, gate.admitted))
    && after.budgets == gate.budgets
  }

  lemma RecordsUnfold(giver: Retained, ids: seq<string>)
    requires AllIn(ids, giver) && ids != [] && ids[0] in giver
    ensures RecordsOf(giver, ids) == [EncodedRecord(Encoded(giver[ids[0]]))] + RecordsOf(giver, ids[1..])
  {
  }

  lemma TakeAllUnfolds(
    t: Trust, s: Taker, c: Connection, peer: string, first: seq<byte>, rest: seq<seq<byte>>, arrivals: Arrivals, from: nat)
    ensures TakeAll(t, s, c, peer, [first] + rest, arrivals, from)
         == (var one := TakeOne(t, s, c, peer, first, arrivals(from));
             if one.dropped then one.taker else TakeAll(t, one.taker, c, peer, rest, arrivals, from + 1))
  {
    var all := [first] + rest;
    assert all[0] == first && all[1..] == rest;
  }

  lemma TakeAllStep(
    t: Trust, giver: Retained, s: Taker, c: Connection, peer: string, ids: seq<string>, since: Time, arrivals: Arrivals, from: nat)
    returns (next: Taker)
    requires SoundTable(t, giver) && t.ready && Taking(giver, s.node, c, ids, since) && ids != [] && ids[0] in giver
    requires !Late(arrivals(from), since + WANT_EXPIRY)
    ensures
      var admitted := Admits(s.budgets, Charge(peer, arrivals(from)));
      && next.node.retained == (if admitted then s.node.retained[ids[0] := giver[ids[0]]] else s.node.retained)
      && next.budgets == Applied(s.budgets, Charge(peer, arrivals(from)))
    ensures Taking(giver, next.node, c, ids[1..], since)
    ensures TakeAll(t, s, c, peer, RecordsOf(giver, ids), arrivals, from)
         == if CutOff(s.budgets, peer, arrivals(from)) then next else TakeAll(t, next, c, peer, RecordsOf(giver, ids[1..]), arrivals, from + 1)
  {
    var a := arrivals(from);
    OneTaken(t, giver, s, c, peer, ids, since, a);
    var first := EncodedRecord(Encoded(giver[ids[0]]));
    next := TakeOne(t, s, c, peer, first, a).taker;
    RecordsUnfold(giver, ids);
    TakeAllUnfolds(t, s, c, peer, first, RecordsOf(giver, ids[1..]), arrivals, from);
    TakingOutlivesTick(t, giver, s.node, c, ids, since, a.ticked);
    TakingGoesOn(giver, Ticked(t, s.node, c, a.ticked), c, ids, since, Admits(s.budgets, Charge(peer, a)));
  }

  lemma TakenByCutOff(giver: Retained, base: Retained, ids: seq<string>, budgets: Budgets, after: Taker)
    requires AllIn(ids, giver) && after.node.retained == base && after.budgets == budgets
    ensures TakenAs(giver, base, ids, Gate(Refused(|ids|), budgets), after)
  {
    NoneKept(ids);
  }

  lemma CutOffIsRefused(budgets: Budgets, peer: string, a: Arrival)
    ensures CutOff(budgets, peer, a) ==> !Admits(budgets, Charge(peer, a))
  {
  }

  lemma LateEnds(
    t: Trust, giver: Retained, s: Taker, c: Connection, peer: string, ids: seq<string>, since: Time, arrivals: Arrivals, from: nat)
    requires SoundTable(t, giver) && Taking(giver, s.node, c, ids, since) && ids != []
    requires Late(arrivals(from), since + WANT_EXPIRY)
    ensures TakenAs(giver, s.node.retained, ids, Gate(Refused(|ids|), Applied(s.budgets, Penalty(peer, arrivals(from)))),
                    TakeAll(t, s, c, peer, RecordsOf(giver, ids), arrivals, from))
  {
    assert ids[0] in ids;
    LateRecordRefused(t, giver, s, c, peer, ids, since, arrivals(from));
    RecordsUnfold(giver, ids);
    TakeAllUnfolds(t, s, c, peer, EncodedRecord(Encoded(giver[ids[0]])), RecordsOf(giver, ids[1..]), arrivals, from);
    TakenByCutOff(giver, s.node.retained, ids, Applied(s.budgets, Penalty(peer, arrivals(from))),
                  Taker(Ticked(t, s.node, c, arrivals(from).ticked), Applied(s.budgets, Penalty(peer, arrivals(from)))));
  }

  lemma {:induction false} RecordsTaken(
    t: Trust, giver: Retained, s: Taker, c: Connection, peer: string, ids: seq<string>, since: Time, arrivals: Arrivals, from: nat, until: nat)
    requires SoundTable(t, giver) && t.ready && Taking(giver, s.node, c, ids, since) && until == from + |ids|
    ensures TakenAs(giver, s.node.retained, ids, Answering(s.budgets, peer, since + WANT_EXPIRY, arrivals, from, until),
                    TakeAll(t, s, c, peer, RecordsOf(giver, ids), arrivals, from))
    decreases |ids|
  {
    var deadline := since + WANT_EXPIRY;
    if ids == [] {
      NothingTaken(giver, s.node.retained, s.budgets, s);
    } else if Late(arrivals(from), deadline) {
      LateEnds(t, giver, s, c, peer, ids, since, arrivals, from);
    } else {
      assert ids[0] in ids;
      var next := TakeAllStep(t, giver, s, c, peer, ids, since, arrivals, from);
      var admitted := Admits(s.budgets, Charge(peer, arrivals(from)));
      AnsweringUnfolds(s.budgets, peer, deadline, arrivals, from, until, next.budgets);
      if CutOff(s.budgets, peer, arrivals(from)) {
        CutOffIsRefused(s.budgets, peer, arrivals(from));
        TakenByCutOff(giver, s.node.retained, ids, next.budgets, next);
      } else {
        RecordsTaken(t, giver, next, c, peer, ids[1..], since, arrivals, from + 1, until);
        TakenInFront(giver, s.node.retained, next.node.retained, ids, admitted,
                     Answering(next.budgets, peer, deadline, arrivals, from + 1, until),
                     TakeAll(t, next, c, peer, RecordsOf(giver, ids[1..]), arrivals, from + 1));
      }
    }
  }

  lemma TakenInFront(giver: Retained, base: Retained, next: Retained, ids: seq<string>, admitted: bool, rest: Gate, after: Taker)
    requires AllIn(ids, giver) && ids != [] && ids[0] in giver && AllIn(ids[1..], giver) && |rest.admitted| == |ids| - 1
    requires next == if admitted then base[ids[0] := giver[ids[0]]] else base
    ensures TakenAs(giver, next, ids[1..], rest, after) ==> TakenAs(giver, base, ids, Gate([admitted] + rest.admitted, rest.budgets), after)
  {
    if TakenAs(giver, next, ids[1..], rest, after) {
      HeadAndTail(ids);
      KeptInFront(ids[0], ids[1..], admitted, rest.admitted);
      if admitted {
        OverlaidInFront(base, giver, ids[0], Kept(ids[1..], rest.admitted));
      } else {
        assert [] + Kept(ids[1..], rest.admitted) == Kept(ids[1..], rest.admitted);
      }
    }
  }

  lemma StrictlySmaller<T>(a: set<T>, b: set<T>, x: T)
    requires a <= b && x in b && x !in a
    ensures |a| < |b|
  {
    SubsetSize(a, b - {x});
  }

  lemma {:induction false} OverlaidAt(base: Retained, giver: Retained, ids: seq<string>, id: string)
    requires AllIn(ids, giver)
    ensures
      var r := Overlaid(base, giver, ids);
      && (id in r <==> id in base || id in ids)
      && (id in r ==> r[id] == if id in ids then giver[id] else base[id])
    decreases ids
  {
    if ids != [] {
      assert ids[0] in ids;
      OverlaidAt(base[ids[0] := giver[ids[0]]], giver, ids[1..], id);
    }
  }

  // ---- The round

  /** The wants, once expired ones are dropped, and the table have room for what is offered. */
  ghost predicate Fits(giver: Node, taker: Node, c: Connection, now: Time, order: seq<string>) {
    && Distinct(order) && AllIn(order, giver.retained)
    && |Pruned(WantsOf(taker, c), now)| + |Offered(order)| <= MAXIMUM_OUTSTANDING
    && |taker.retained.Keys + Elements(Offered(order))| <= MAXIMUM_RETAINED
  }

  /** An authentic giver, a library that is up, and room on the taker's side. */
  ghost predicate RoundReady(t: Trust, giver: Node, taker: Node, c: Connection, now: Time, order: seq<string>) {
    SoundTable(t, giver.retained) && t.ready && Fits(giver, taker, c, now, order)
  }

  lemma HoldingsAcceptable(t: Trust, retained: Retained, ids: seq<string>)
    requires SoundTable(t, retained) && AllIn(ids, retained)
    ensures AllAcceptable(Holdings(retained, ids))
  {
    forall i | 0 <= i < |ids|
      ensures AcceptableName(Holdings(retained, ids)[i].modName)
    {
      assert ids[i] in ids && SoundEntry(t, ids[i], retained[ids[i]]);
    }
  }

  lemma OfferArrives(summaries: seq<AnnounceSummary>)
    requires AllAcceptable(Capped(summaries))
    ensures DecodedOffer(EncodedOffer(summaries)) == Some(Capped(summaries))
  {
    OfferRoundTrip(summaries);
  }

  lemma WantArrives(summaries: seq<AnnounceSummary>)
    requires AllAcceptable(summaries) && |summaries| <= MAXIMUM_ENTRIES
    ensures DecodedWant(EncodedWant(summaries)) == Some(Carried(summaries, false))
  {
    assert Capped(summaries) == summaries;
    ListRoundTrip(Want, summaries, false);
  }

  /** An offer with something to ask for: the wants are pruned, then every wanted announce is tracked. */
  lemma OfferUnfolds(t: Trust, taker: Node, c: Connection, now: Time, body: seq<byte>,
                     offered: seq<AnnounceSummary>, wanted: seq<AnnounceSummary>, r: TrackResult)
    requires DecodedOffer(body) == Some(offered) && Missing(t, taker.retained, offered, MAXIMUM_ENTRIES) == wanted != []
    requires TrackAll(Pruned(WantsOf(taker, c), now), wanted, now) == r
    ensures HandleOffer(t, taker, c, now, body)
         == Reaction(taker.(wants := taker.wants[c := r.pending]), if r.tracked == [] then [] else [EncodedWant(r.tracked)],
                     r.tracked, None, false)
  {
  }

  lemma WantedNow(pending: Pending, wanted: seq<AnnounceSummary>, now: Time, k: nat)
    requires |pending| + |wanted| <= MAXIMUM_OUTSTANDING && k < |wanted|
    ensures
      var r := TrackAll(pending, wanted, now).pending;
      KeyOf(wanted[k]) in r && r[KeyOf(wanted[k])] == now
  {
    TrackAllFits(pending, wanted, now);
    assert KeyOf(wanted[k]) in KeysOf(wanted);
  }

  lemma OfferHandled(t: Trust, taker: Node, c: Connection, now: Time, body: seq<byte>,
                     offered: seq<AnnounceSummary>, wanted: seq<AnnounceSummary>)
    requires DecodedOffer(body) == Some(offered) && Missing(t, taker.retained, offered, MAXIMUM_ENTRIES) == wanted
    requires |Pruned(WantsOf(taker, c), now)| + |wanted| <= MAXIMUM_OUTSTANDING
    ensures
      var r := HandleOffer(t, taker, c, now, body);
      && r.node.retained == taker.retained
      && r.replies == (if wanted == [] then [] else [EncodedWant(wanted)])
      && forall k :: 0 <= k < |wanted| ==> WantedSince(r.node, c, KeyOf(wanted[k]), now)
  {
    if wanted != [] {
      var pending := Pruned(WantsOf(taker, c), now);
      var tracked := TrackAll(pending, wanted, now);
      TrackAllFits(pending, wanted, now);
      OfferUnfolds(t, taker, c, now, body, offered, wanted, tracked);
      forall k | 0 <= k < |wanted|
        ensures KeyOf(wanted[k]) in tracked.pending && tracked.pending[KeyOf(wanted[k])] == now
      {
        WantedNow(pending, wanted, now, k);
      }
    }
  }

  lemma RoomForAll(taker: Retained, ids: seq<string>, id: string)
    requires |taker.Keys + Elements(ids)| <= MAXIMUM_RETAINED && id in ids
    ensures id in taker || |taker| < MAXIMUM_RETAINED
  {
    if id !in taker {
      StrictlySmaller(taker.Keys, taker.Keys + Elements(ids), id);
      assert |taker| == |taker.Keys|;
    }
  }

  lemma AskedForNewer(t: Trust, giver: Retained, taker: Retained, ids: seq<string>)
    requires SoundTable(t, giver) && AllIn(ids, giver) && |ids| <= MAXIMUM_ENTRIES
    requires |taker.Keys + Elements(ids)| <= MAXIMUM_RETAINED
    ensures Missing(t, taker, Holdings(giver, ids), MAXIMUM_ENTRIES) == Holdings(giver, NewerIds(giver, taker, ids))
    ensures forall id :: id in ids ==> KeyOf(SummaryFor(giver[id])) == id
  {
    forall id | id in ids
      ensures AsksForNewer(t, giver, taker, id) && KeyOf(SummaryFor(giver[id])) == id
    {
      RoomForAll(taker, ids, id);
      NewerIsWanted(t, giver, taker, id);
    }
    MissingIsNewer(t, giver, taker, ids, MAXIMUM_ENTRIES);
  }

  lemma OfferedIn(order: seq<string>, giver: Retained)
    requires AllIn(order, giver) && Distinct(order)
    ensures AllIn(Offered(order), giver) && Distinct(Offered(order))
    ensures Capped(Holdings(giver, order)) == Holdings(giver, Offered(order))
  {
    assert forall id :: id in Offered(order) ==> id in order;
    var a, b := Capped(Holdings(giver, order)), Holdings(giver, Offered(order));
    assert |a| == |b|;
    forall i | 0 <= i < |a|
      ensures a[i] == b[i]
    {
      assert a[i] == Holdings(giver, order)[i];
    }
  }

  lemma OfferAnswered(t: Trust, giver: Node, taker: Node, c: Connection, now: Time, order: seq<string>)
    requires SoundTable(t, giver.retained) && Fits(giver, taker, c, now, order)
    ensures AllIn(Offered(order), giver.retained)
    ensures
      var ids := NewerIds(giver.retained, taker.retained, Offered(order));
      var r := HandleOffer(t, taker, c, now, EncodedOffer(Holdings(giver.retained, order)));
      && r.node.retained == taker.retained
      && r.replies == (if ids == [] then [] else [EncodedWant(Holdings(giver.retained, ids))])
      && forall id :: id in ids ==> WantedSince(r.node, c, id, now)
  {
    OfferedIn(order, giver.retained);
    var offered := Offered(order);
    var ids := NewerIds(giver.retained, taker.retained, offered);
    var wanted := Holdings(giver.retained, ids);
    HoldingsAcceptable(t, giver.retained, offered);
    OfferArrives(Holdings(giver.retained, order));
    AskedForNewer(t, giver.retained, taker.retained, offered);
    OfferHandled(t, taker, c, now, EncodedOffer(Holdings(giver.retained, order)), Holdings(giver.retained, offered), wanted);
    AllTracked(giver.retained, ids, HandleOffer(t, taker, c, now, EncodedOffer(Holdings(giver.retained, order))).node, c, now);
  }

  lemma AllTracked(giver: Retained, ids: seq<string>, node: Node, c: Connection, now: Time)
    requires AllIn(ids, giver) && forall id :: id in ids ==> KeyOf(SummaryFor(giver[id])) == id
    requires forall k :: 0 <= k < |ids| ==> WantedSince(node, c, KeyOf(Holdings(giver, ids)[k]), now)
    ensures forall id :: id in ids ==> WantedSince(node, c, id, now)
  {
    forall id | id in ids
      ensures WantedSince(node, c, id, now)
    {
      var k :| 0 <= k < |ids| && ids[k] == id;
      assert KeyOf(Holdings(giver, ids)[k]) == id;
    }
  }

  lemma WantHandled(giver: Node, body: seq<byte>, wanted: seq<AnnounceSummary>)
    requires DecodedWant(body) == Some(wanted)
    ensures HandleWant(giver, body).replies == Served(giver.retained, wanted)
  {
  }

  lemma AllServable(t: Trust, retained: Retained, ids: seq<string>)
    requires SoundTable(t, retained) && AllIn(ids, retained)
    ensures forall id :: id in ids ==> Servable(retained, id)
  {
    forall id | id in ids
      ensures Servable(retained, id)
    {
      assert SoundEntry(t, id, retained[id]);
    }
  }

  lemma WantAnswered(t: Trust, giver: Node, ids: seq<string>)
    requires SoundTable(t, giver.retained) && AllIn(ids, giver.retained) && |ids| <= MAXIMUM_ENTRIES
    ensures HandleWant(giver, EncodedWant(Holdings(giver.retained, ids))).replies == RecordsOf(giver.retained, ids)
  {
    var wanted := Holdings(giver.retained, ids);
    HoldingsAcceptable(t, giver.retained, ids);
    WantArrives(wanted);
    AllServable(t, giver.retained, ids);
    ServesWhatWasAsked(giver.retained, ids);
    WantHandled(giver, EncodedWant(wanted), Carried(wanted, false));
  }

  lemma TakingStarts(giver: Retained, taker: Retained, asked: Node, c: Connection, now: Time, offered: seq<string>)
    requires Distinct(offered) && AllIn(offered, giver) && asked.retained == taker
    requires |taker.Keys + Elements(offered)| <= MAXIMUM_RETAINED
    requires forall id :: id in NewerIds(giver, taker, offered) ==> WantedSince(asked, c, id, now)
    ensures Taking(giver, asked, c, NewerIds(giver, taker, offered), now)
  {
    var ids := NewerIds(giver, taker, offered);
    NewerIdsDistinct(giver, taker, offered);
    SubsetSize(taker.Keys + NewKeys(taker, ids), taker.Keys + Elements(offered));
  }

  // ---- What a round leaves

  /** Which of the records asked for at `now` are taken, and the taker's budgets afterwards. */
  function RoundGate(giver: Node, taker: Taker, peer: string, now: Time, order: seq<string>, arrivals: Arrivals): (g: Gate)
    requires AllIn(Offered(order), giver.retained)
    ensures |g.admitted| == |NewerIds(giver.retained, taker.node.retained, Offered(order))|
  {
    Answering(taker.budgets, peer, now + WANT_EXPIRY, arrivals, 0, |NewerIds(giver.retained, taker.node.retained, Offered(order))|)
  }

  lemma RoundUnfolds(
    t: Trust, giver: Node, taker: Taker, c: Connection, peer: string, now: Time, order: seq<string>, arrivals: Arrivals, asked: Node,
    want: Option<seq<byte>>)
    requires AllIn(order, giver.retained)
    requires
      var r := HandleOffer(t, taker.node, c, now, EncodedOffer(Holdings(giver.retained, order)));
      r.node == asked && r.replies == (if want.None? then [] else [want.value])
    ensures RoundOver(t, giver, taker, c, peer, now, order, arrivals)
         == if want.None? then taker.(node := asked)
            else TakeAll(t, taker.(node := asked), c, peer, HandleWant(giver, want.value).replies, arrivals, 0)
  {
  }

  lemma NothingTaken(giver: Retained, base: Retained, budgets: Budgets, after: Taker)
    requires after.node.retained == base && after.budgets == budgets
    ensures TakenAs(giver, base, [], Gate([], budgets), after)
  {
  }

  /**
   * Exactly the newer announces whose records the token bucket admits, before any comes after its want was dropped,
   * are taken; the giver's budget pays for every record.
   */
  lemma RoundTakesWhatIsAdmitted(
    t: Trust, giver: Node, taker: Taker, c: Connection, peer: string, now: Time, order: seq<string>, arrivals: Arrivals)
    requires RoundReady(t, giver, taker.node, c, now, order)
    ensures AllIn(Offered(order), giver.retained) && Distinct(Offered(order))
    ensures TakenAs(giver.retained, taker.node.retained, NewerIds(giver.retained, taker.node.retained, Offered(order)),
                    RoundGate(giver, taker, peer, now, order, arrivals),
                    RoundOver(t, giver, taker, c, peer, now, order, arrivals))
  {
    OfferedIn(order, giver.retained);
    var ids := NewerIds(giver.retained, taker.node.retained, Offered(order));
    OfferAnswered(t, giver, taker.node, c, now, order);
    var asked := HandleOffer(t, taker.node, c, now, EncodedOffer(Holdings(giver.retained, order))).node;
    if ids == [] {
      RoundUnfolds(t, giver, taker, c, peer, now, order, arrivals, asked, None);
      NothingTaken(giver.retained, taker.node.retained, taker.budgets, taker.(node := asked));
    } else {
      RoundUnfolds(t, giver, taker, c, peer, now, order, arrivals, asked, Some(EncodedWant(Holdings(giver.retained, ids))));
      WantAnswered(t, giver, ids);
      TakingStarts(giver.retained, taker.node.retained, asked, c, now, Offered(order));
      RecordsTaken(t, giver.retained, taker.(node := asked), c, peer, ids, now, arrivals, 0, |ids|);
    }
  }

  /** Offered identifiers hold the newer announce of both, the taker's own on a tie; all others are the taker's still. */
  ghost predicate NewerOffered(giver: Retained, taker: Retained, offered: seq<string>, after: Retained) {
    && after.Keys == taker.Keys + Elements(offered)
    && forall id :: id in after ==>
         after[id] == if id in offered && id in giver && NewerAt(giver, taker, id) then giver[id]
                      else if id in taker then taker[id] else after[id]
  }

  function Higher(a: int, b: int): int {
    if a > b then a else b
  }

  lemma {:induction false} KeptAll(ids: seq<string>, admitted: seq<bool>)
    requires |ids| == |admitted| && All(admitted)
    ensures Kept(ids, admitted) == ids
  {
    if ids != [] {
      KeptAll(ids[1..], admitted[1..]);
      HeadAndTail(ids);
    }
  }

  lemma {:induction false} NotKept(ids: seq<string>, admitted: seq<bool>, k: nat)
    requires |ids| == |admitted| && k < |ids| && !admitted[k] && Distinct(ids)
    ensures ids[k] !in Kept(ids, admitted)
  {
    if k == 0 {
      assert ids[0] !in ids[1..];
    } else {
      NotKept(ids[1..], admitted[1..], k - 1);
      assert ids[k] == ids[1..][k - 1];
    }
  }

  lemma OverlaidIsNewer(giver: Retained, taker: Retained, offered: seq<string>)
    requires AllIn(offered, giver)
    ensures NewerOffered(giver, taker, offered, Overlaid(taker, giver, NewerIds(giver, taker, offered)))
  {
    var ids := NewerIds(giver, taker, offered);
    var after := Overlaid(taker, giver, ids);
    forall id
      ensures id in after <==> id in taker || id in offered
      ensures id in after ==>
        after[id] == if id in offered && id in giver && NewerAt(giver, taker, id) then giver[id]
                     else if id in taker then taker[id] else after[id]
    {
      OverlaidAt(taker, giver, ids, id);
    }
  }

  /** A newer announce whose record was not admitted is missing afterwards. */
  lemma RefusedIsMissing(giver: Retained, taker: Retained, offered: seq<string>, admitted: seq<bool>, k: nat)
    requires AllIn(offered, giver) && Distinct(offered) && |admitted| == |NewerIds(giver, taker, offered)|
    requires k < |admitted| && !admitted[k]
    ensures AllIn(Kept(NewerIds(giver, taker, offered), admitted), giver)
    ensures !NewerOffered(giver, taker, offered, Overlaid(taker, giver, Kept(NewerIds(giver, taker, offered), admitted)))
  {
    var ids := NewerIds(giver, taker, offered);
    NewerIdsDistinct(giver, taker, offered);
    NotKept(ids, admitted, k);
    var id := ids[k];
    assert id in ids;
    OverlaidAt(taker, giver, Kept(ids, admitted), id);
  }

  lemma {:induction false} KeptThere(ids: seq<string>, admitted: seq<bool>, k: nat)
    requires |ids| == |admitted| && k < |ids| && admitted[k]
    ensures ids[k] in Kept(ids, admitted)
  {
    if k > 0 {
      KeptThere(ids[1..], admitted[1..], k - 1);
      assert ids[k] == ids[1..][k - 1];
    }
  }

  /** The giver's announce is in the table. */
  predicate Has(table: Retained, giver: Retained, id: string) {
    id in giver && id in table && table[id] == giver[id]
  }

  /** What the taker asks for and gets, announce by announce: admitted, and no record so far was late. */
  lemma RecordTakenExactly(
    t: Trust, giver: Node, taker: Taker, c: Connection, peer: string, now: Time, order: seq<string>, arrivals: Arrivals, k: nat)
    requires RoundReady(t, giver, taker.node, c, now, order) && AllIn(Offered(order), giver.retained)
    requires k < |NewerIds(giver.retained, taker.node.retained, Offered(order))|
    ensures
      var ids := NewerIds(giver.retained, taker.node.retained, Offered(order));
      Has(RoundOver(t, giver, taker, c, peer, now, order, arrivals).node.retained, giver.retained, ids[k]) <==>
        Admitting(taker.budgets, peer, arrivals, 0, |ids|).admitted[k] && NoneLate(arrivals, now + WANT_EXPIRY, 0, k + 1)
  {
    var count := |NewerIds(giver.retained, taker.node.retained, Offered(order))|;
    RoundTakesWhatIsAdmitted(t, giver, taker, c, peer, now, order, arrivals);
    TakenExactly(taker.budgets, peer, now + WANT_EXPIRY, arrivals, 0, count, k);
    ThereExactly(giver.retained, taker.node.retained, Offered(order), RoundGate(giver, taker, peer, now, order, arrivals),
                 RoundOver(t, giver, taker, c, peer, now, order, arrivals), k);
  }

  lemma ThereExactly(giver: Retained, taker: Retained, offered: seq<string>, gate: Gate, after: Taker, k: nat)
    requires AllIn(offered, giver) && |gate.admitted| == |NewerIds(giver, taker, offered)| && k < |gate.admitted|
    ensures Distinct(offered) && TakenAs(giver, taker, NewerIds(giver, taker, offered), gate, after) ==>
      (Has(after.node.retained, giver, NewerIds(giver, taker, offered)[k]) <==> gate.admitted[k])
  {
    var ids := NewerIds(giver, taker, offered);
    if Distinct(offered) && TakenAs(giver, taker, ids, gate, after) {
      NewerIdsDistinct(giver, taker, offered);
      assert ids[k] in ids;
      OverlaidAt(taker, giver, Kept(ids, gate.admitted), ids[k]);
      if gate.admitted[k] {
        KeptThere(ids, gate.admitted, k);
      } else {
        NotKept(ids, gate.admitted, k);
      }
    }
  }

  lemma RoundReached(
    t: Trust, giver: Node, taker: Taker, c: Connection, peer: string, now: Time, order: seq<string>, arrivals: Arrivals)
    requires RoundReady(t, giver, taker.node, c, now, order)
    ensures AllIn(Offered(order), giver.retained)
    ensures
      NewerOffered(giver.retained, taker.node.retained, Offered(order), RoundOver(t, giver, taker, c, peer, now, order, arrivals).node.retained) <==>
        All(RoundGate(giver, taker, peer, now, order, arrivals).admitted)
  {
    RoundTakesWhatIsAdmitted(t, giver, taker, c, peer, now, order, arrivals);
    ReachedExactly(giver.retained, taker.node.retained, Offered(order), RoundGate(giver, taker, peer, now, order, arrivals),
                   RoundOver(t, giver, taker, c, peer, now, order, arrivals));
  }

  /**
   * A round reaches the newer announce of both for everything offered exactly when the token bucket admits every
   * record asked for and none comes after its want was dropped.
   */
  lemma RoundReachesMaximumExactly(
    t: Trust, giver: Node, taker: Taker, c: Connection, peer: string, now: Time, order: seq<string>, arrivals: Arrivals)
    requires RoundReady(t, giver, taker.node, c, now, order)
    ensures AllIn(Offered(order), giver.retained)
    ensures
      var count := |NewerIds(giver.retained, taker.node.retained, Offered(order))|;
      NewerOffered(giver.retained, taker.node.retained, Offered(order), RoundOver(t, giver, taker, c, peer, now, order, arrivals).node.retained) <==>
        All(Admitting(taker.budgets, peer, arrivals, 0, count).admitted) && NoneLate(arrivals, now + WANT_EXPIRY, 0, count)
  {
    RoundReached(t, giver, taker, c, peer, now, order, arrivals);
    WholeAnswerExactly(taker.budgets, peer, now + WANT_EXPIRY, arrivals, |NewerIds(giver.retained, taker.node.retained, Offered(order))|);
  }

  lemma ReachedExactly(giver: Retained, taker: Retained, offered: seq<string>, gate: Gate, after: Taker)
    requires AllIn(offered, giver) && |gate.admitted| == |NewerIds(giver, taker, offered)|
    ensures Distinct(offered) && TakenAs(giver, taker, NewerIds(giver, taker, offered), gate, after) ==>
      (NewerOffered(giver, taker, offered, after.node.retained) <==> All(gate.admitted))
  {
    var ids := NewerIds(giver, taker, offered);
    if !Distinct(offered) || !TakenAs(giver, taker, ids, gate, after) {
      return;
    }
    if All(gate.admitted) {
      KeptAll(ids, gate.admitted);
      OverlaidIsNewer(giver, taker, offered);
    } else {
      var k :| 0 <= k < |gate.admitted| && gate.admitted[k] == false;
      RefusedIsMissing(giver, taker, offered, gate.admitted, k);
    }
  }

  // ---- At one instant

  /** The tokens a peer has, or would have on being tracked. */
  function PeerTokens(budgets: Budgets, peer: string, victim: Option<string>, now: Time): nat {
    match Ensured(budgets, peer, victim)
    case None => 0
    case Some(ready) => Tokens(ready[peer], now)
  }

  /**
   * When all records arrive at once, a round with a peer that has a budget, or gets one, reaches the newer announce
   * of both for everything offered exactly when there are no more newer announces than the peer has tokens.
   */
  lemma RoundAtOnceExactly(
    t: Trust, giver: Node, taker: Taker, c: Connection, peer: string, now: Time, order: seq<string>, arrivals: Arrivals)
    requires RoundReady(t, giver, taker.node, c, now, order)
    requires TableSound(taker.budgets, now) && Ensured(taker.budgets, peer, arrivals(0).victim).Some?
    requires AllAt(arrivals, now)
    ensures AllIn(Offered(order), giver.retained)
    ensures
      NewerOffered(giver.retained, taker.node.retained, Offered(order), RoundOver(t, giver, taker, c, peer, now, order, arrivals).node.retained) <==>
        |NewerIds(giver.retained, taker.node.retained, Offered(order))| <= PeerTokens(taker.budgets, peer, arrivals(0).victim, now)
  {
    RoundReachesMaximumExactly(t, giver, taker, c, peer, now, order, arrivals);
    GateAtOnce(taker.budgets, peer, arrivals, |NewerIds(giver.retained, taker.node.retained, Offered(order))|, now);
  }

  /** All records arrive at the instant of the offer, after whatever tick. */
  ghost predicate AllAt(arrivals: Arrivals, now: Time) {
    forall i :: arrivals(i).at == now && arrivals(i).ticked <= now
  }

  lemma GateAtOnce(budgets: Budgets, peer: string, arrivals: Arrivals, count: nat, now: Time)
    requires TableSound(budgets, now) && Ensured(budgets, peer, arrivals(0).victim).Some? && AllAt(arrivals, now)
    ensures All(Admitting(budgets, peer, arrivals, 0, count).admitted) <==> count <= PeerTokens(budgets, peer, arrivals(0).victim, now)
  {
    if count > 0 {
      EnsuredFirst(budgets, peer, arrivals, count);
      var ready := Ensured(budgets, peer, arrivals(0).victim).value;
      assert peer in budgets ==> Sound(budgets[peer], now);
      WholeBurstExactly(ready, peer, arrivals, count, now);
    }
  }

  /** Newer announces at which a peer is left blocked: eight more than its tokens, or fewer if refused before. */
  function PeerLimit(budgets: Budgets, peer: string, victim: Option<string>, now: Time): nat
    requires Ensured(budgets, peer, victim).Some?
  {
    BlockLimit(Ensured(budgets, peer, victim).value[peer], now)
  }

  /**
   * When all records arrive at once, the round leaves the giver blocked exactly when the newer announces reach its
   * limit: the tokens and eight more while it has tokens, what is left of its patience otherwise.
   */
  lemma RoundBlocksExactly(
    t: Trust, giver: Node, taker: Taker, c: Connection, peer: string, now: Time, order: seq<string>, arrivals: Arrivals)
    requires RoundReady(t, giver, taker.node, c, now, order)
    requires TableSound(taker.budgets, now) && Ensured(taker.budgets, peer, arrivals(0).victim).Some?
    requires AllAt(arrivals, now)
    ensures AllIn(Offered(order), giver.retained)
    ensures
      PeerIsBlocked(RoundOver(t, giver, taker, c, peer, now, order, arrivals).budgets, peer, now) <==>
        |NewerIds(giver.retained, taker.node.retained, Offered(order))| >= PeerLimit(taker.budgets, peer, arrivals(0).victim, now)
  {
    RoundTakesWhatIsAdmitted(t, giver, taker, c, peer, now, order, arrivals);
    var count := |NewerIds(giver.retained, taker.node.retained, Offered(order))|;
    InTimeIsAdmitting(taker.budgets, peer, now + WANT_EXPIRY, arrivals, 0, count);
    BlockedAtOnce(taker.budgets, peer, arrivals, count, now);
  }

  lemma BlockedAtOnce(budgets: Budgets, peer: string, arrivals: Arrivals, count: nat, now: Time)
    requires TableSound(budgets, now) && Ensured(budgets, peer, arrivals(0).victim).Some? && AllAt(arrivals, now)
    ensures
      PeerIsBlocked(Admitting(budgets, peer, arrivals, 0, count).budgets, peer, now) <==>
        count >= PeerLimit(budgets, peer, arrivals(0).victim, now)
  {
    var ready := Ensured(budgets, peer, arrivals(0).victim).value;
    assert peer in budgets ==> Sound(budgets[peer], now);
    BlockedAfterExactly(ready, peer, arrivals, count, now);
    if count > 0 {
      EnsuredFirst(budgets, peer, arrivals, count);
    } else if peer !in budgets {
      assert ready[peer] == NEW_BUDGET;
    }
  }

  /**
   * An honest giver with sixteen or more announces a new acquaintance lacks, all sent at once: the first eight are
   * taken, the others refused, and the giver is blocked.
   */
  lemma SixteenAtOnceBlocksTheGiver(
    t: Trust, giver: Node, taker: Taker, c: Connection, peer: string, now: Time, order: seq<string>, arrivals: Arrivals)
    requires RoundReady(t, giver, taker.node, c, now, order) && AllIn(Offered(order), giver.retained)
    requires peer !in taker.budgets && Ensured(taker.budgets, peer, arrivals(0).victim).Some? && AllAt(arrivals, now)
    requires |NewerIds(giver.retained, taker.node.retained, Offered(order))| >= 16
    ensures FirstEightThenBlocked(
              giver.retained, taker.node.retained, NewerIds(giver.retained, taker.node.retained, Offered(order)), peer, now,
              RoundOver(t, giver, taker, c, peer, now, order, arrivals))
  {
    SixteenGate(giver, taker, peer, now, order, arrivals);
    RoundTakesFirst(t, giver, taker, c, peer, now, order, arrivals, BURST_ALLOWANCE);
    assert PeerIsBlocked(RoundOver(t, giver, taker, c, peer, now, order, arrivals).budgets, peer, now);
  }

  lemma SixteenGate(giver: Node, taker: Taker, peer: string, now: Time, order: seq<string>, arrivals: Arrivals)
    requires AllIn(Offered(order), giver.retained)
    requires peer !in taker.budgets && Ensured(taker.budgets, peer, arrivals(0).victim).Some? && AllAt(arrivals, now)
    requires |NewerIds(giver.retained, taker.node.retained, Offered(order))| >= 16
    ensures
      var gate := RoundGate(giver, taker, peer, now, order, arrivals);
      PeerIsBlocked(gate.budgets, peer, now) && FirstOnly(gate.admitted, BURST_ALLOWANCE)
  {
    SixteenRecords(taker.budgets, peer, arrivals, |NewerIds(giver.retained, taker.node.retained, Offered(order))|, now);
  }

  lemma RoundTakesFirst(
    t: Trust, giver: Node, taker: Taker, c: Connection, peer: string, now: Time, order: seq<string>, arrivals: Arrivals, n: nat)
    requires RoundReady(t, giver, taker.node, c, now, order) && AllIn(Offered(order), giver.retained)
    requires n <= |NewerIds(giver.retained, taker.node.retained, Offered(order))|
    requires FirstOnly(RoundGate(giver, taker, peer, now, order, arrivals).admitted, n)
    ensures
      var r := RoundOver(t, giver, taker, c, peer, now, order, arrivals);
      && r.budgets == RoundGate(giver, taker, peer, now, order, arrivals).budgets
      && TookFirst(giver.retained, taker.node.retained, NewerIds(giver.retained, taker.node.retained, Offered(order)), n, r.node.retained)
  {
    RoundTakesWhatIsAdmitted(t, giver, taker, c, peer, now, order, arrivals);
    FirstAreTaken(giver.retained, taker.node.retained, NewerIds(giver.retained, taker.node.retained, Offered(order)),
                  RoundGate(giver, taker, peer, now, order, arrivals), RoundOver(t, giver, taker, c, peer, now, order, arrivals), n);
  }

  /** The table took the first `n` of the announces and nothing else. */
  ghost predicate TookFirst(giver: Retained, taker: Retained, ids: seq<string>, n: nat, after: Retained) {
    n <= |ids| && AllIn(ids[..n], giver) && after == Overlaid(taker, giver, ids[..n])
  }

  ghost predicate FirstEightThenBlocked(giver: Retained, taker: Retained, ids: seq<string>, peer: string, now: Time, after: Taker) {
    TookFirst(giver, taker, ids, BURST_ALLOWANCE, after.node.retained) && PeerIsBlocked(after.budgets, peer, now)
  }

  ghost predicate FirstOnly(taken: seq<bool>, n: nat) {
    forall k :: 0 <= k < |taken| ==> (taken[k] <==> k < n)
  }

  lemma FirstAreTaken(giver: Retained, taker: Retained, ids: seq<string>, gate: Gate, after: Taker, n: nat)
    requires AllIn(ids, giver) && |gate.admitted| == |ids| && n <= |ids|
    ensures TakenAs(giver, taker, ids, gate, after) && FirstOnly(gate.admitted, n) ==>
      TookFirst(giver, taker, ids, n, after.node.retained) && after.budgets == gate.budgets
  {
    if FirstOnly(gate.admitted, n) {
      KeptFirst(ids, gate.admitted, n);
    }
  }

  lemma SixteenRecords(budgets: Budgets, peer: string, arrivals: Arrivals, count: nat, now: Time)
    requires peer !in budgets && Ensured(budgets, peer, arrivals(0).victim).Some? && count >= 16 && AllAt(arrivals, now)
    ensures
      var g := Answering(budgets, peer, now + WANT_EXPIRY, arrivals, 0, count);
      PeerIsBlocked(g.budgets, peer, now) && FirstOnly(g.admitted, BURST_ALLOWANCE)
  {
    InTimeIsAdmitting(budgets, peer, now + WANT_EXPIRY, arrivals, 0, count);
    EnsuredFirst(budgets, peer, arrivals, count);
    var ready := Ensured(budgets, peer, arrivals(0).victim).value;
    assert ready[peer] == NEW_BUDGET && Tokens(NEW_BUDGET, now) == 8;
    BurstBlocksExactly(ready, peer, arrivals, 0, count, now);
    forall k: nat | k < count
      ensures Admitting(ready, peer, arrivals, 0, count).admitted[k] <==> k < 8
    {
      FirstOnes(ready, peer, arrivals, 0, count, now, k);
    }
  }

  lemma {:induction false} KeptFirst(ids: seq<string>, admitted: seq<bool>, n: nat)
    requires |ids| == |admitted| && n <= |ids| && FirstOnly(admitted, n)
    ensures Kept(ids, admitted) == ids[..n]
    decreases ids
  {
    if ids != [] {
      var less := if n == 0 then 0 else n - 1;
      assert forall k :: 0 <= k < |ids[1..]| ==> admitted[1..][k] == admitted[k + 1];
      KeptFirst(ids[1..], admitted[1..], less);
      if n > 0 {
        assert [ids[0]] + ids[1..][..n - 1] == ids[..n];
      }
    }
  }

  // ---- Until the wants expire

  /**
   * An honest giver whose answer comes only after the tick has dropped the wants: nothing is taken, the giver is
   * penalised and, if a budget is to be had for it, blocked.
   */
  lemma LateAnswerBlocksTheGiver(
    t: Trust, giver: Node, taker: Taker, c: Connection, peer: string, now: Time, order: seq<string>, arrivals: Arrivals)
    requires RoundReady(t, giver, taker.node, c, now, order)
    requires TableSound(taker.budgets, now) && Late(arrivals(0), now + WANT_EXPIRY) && now <= arrivals(0).at
    requires AllIn(Offered(order), giver.retained)
    requires NewerIds(giver.retained, taker.node.retained, Offered(order)) != []
    ensures
      var r := RoundOver(t, giver, taker, c, peer, now, order, arrivals);
      && r.node.retained == taker.node.retained
      && r.budgets == Applied(taker.budgets, Penalty(peer, arrivals(0)))
      && (PeerIsBlocked(r.budgets, peer, arrivals(0).at) <==> Ensured(taker.budgets, peer, arrivals(0).victim).Some?)
  {
    var ids := NewerIds(giver.retained, taker.node.retained, Offered(order));
    RoundTakesWhatIsAdmitted(t, giver, taker, c, peer, now, order, arrivals);
    NoneKept(ids);
    PenaltyBlocks(taker.budgets, now, peer, arrivals(0));
  }

  lemma PenaltyBlocks(budgets: Budgets, now: Time, peer: string, a: Arrival)
    requires TableSound(budgets, now) && now <= a.at
    ensures PeerIsBlocked(Applied(budgets, Penalty(peer, a)), peer, a.at) <==> Ensured(budgets, peer, a.victim).Some?
  {
    var r := Ensured(budgets, peer, a.victim);
    if r.Some? {
      assert peer in budgets ==> Sound(budgets[peer], now);
      StepSound(r.value[peer], now, Op.Penalise(a.at));
    }
  }

  /** The same honest answer once more: the second copy of a record that was taken or refused is a violation. */
  lemma SecondCopyRefused(
    t: Trust, giver: Retained, s: Taker, c: Connection, peer: string, ids: seq<string>, since: Time, first: Arrival, again: Arrival)
    requires SoundTable(t, giver) && t.ready && Taking(giver, s.node, c, ids, since) && ids != [] && ids[0] in giver
    requires !Late(first, since + WANT_EXPIRY)
    ensures
      var message := EncodedRecord(Encoded(giver[ids[0]]));
      var once := TakeOne(t, s, c, peer, message, first).taker;
      var twice := TakeOne(t, once, c, peer, message, again);
      && twice.dropped
      && twice.taker.node.retained == once.node.retained
      && twice.taker.budgets == Applied(once.budgets, Penalty(peer, again))
  {
    OneTaken(t, giver, s, c, peer, ids, since, first);
    var once := TakeOne(t, s, c, peer, EncodedRecord(Encoded(giver[ids[0]])), first).taker;
    assert ids[0] in ids && SoundEntry(t, ids[0], giver[ids[0]]);
    assert ids[0] !in WantsOf(once.node, c);
    UnwantedRecord(t, Ticked(t, once.node, c, again.ticked), c, giver[ids[0]], Admits(once.budgets, Charge(peer, again)));
  }

  // ---- Two nodes that meet for the first time

  /** A node that holds one announce. */
  function Holder(a: SignedAnnounce): Node {
    Node(map[IdentifierOf(a) := a], map[])
  }

  /** A node that holds nothing and knows nobody. */
  const NEWCOMER: Taker := Taker(Node(map[], map[]), map[])

  ghost predicate Acceptable(t: Trust, a: SignedAnnounce) {
    t.ready && AcceptableName(a.modName) && IsUsable(t, a.publisher) && Authentic(t, a)
  }

  lemma HolderSound(t: Trust, a: SignedAnnounce)
    requires Acceptable(t, a)
    ensures SoundTable(t, Holder(a).retained)
  {
    assert Holder(a).retained.Keys == {IdentifierOf(a)};
    assert |Holder(a).retained| == |Holder(a).retained.Keys|;
  }

  lemma OnlyOne(giver: Retained, id: string)
    requires id in giver
    ensures Distinct([id]) && AllIn([id], giver) && Offered([id]) == [id] && Elements([id]) == {id}
    ensures NewerIds(giver, map[], [id]) == [id]
  {
  }

  lemma FitsNewcomer(giver: Node, c: Connection, now: Time, id: string)
    requires id in giver.retained
    ensures Fits(giver, NEWCOMER.node, c, now, [id])
  {
    OnlyOne(giver.retained, id);
    assert NEWCOMER.node.retained.Keys + {id} == {id};
    assert Pruned(WantsOf(NEWCOMER.node, c), now) == map[];
  }

  lemma FirstMeeting(t: Trust, a: SignedAnnounce, c: Connection, now: Time)
    requires Acceptable(t, a)
    ensures RoundReady(t, Holder(a), NEWCOMER.node, c, now, [IdentifierOf(a)])
    ensures Offered([IdentifierOf(a)]) == [IdentifierOf(a)] && AllIn([IdentifierOf(a)], Holder(a).retained)
    ensures NewerIds(Holder(a).retained, NEWCOMER.node.retained, [IdentifierOf(a)]) == [IdentifierOf(a)]
  {
    HolderSound(t, a);
    OnlyOne(Holder(a).retained, IdentifierOf(a));
    FitsNewcomer(Holder(a), c, now, IdentifierOf(a));
  }

  /** At their first meeting already a late answer leaves the newcomer with nothing and the giver blocked. */
  lemma LateAtFirstMeeting(t: Trust, a: SignedAnnounce, c: Connection, peer: string, now: Time, arrivals: Arrivals)
    requires Acceptable(t, a) && Late(arrivals(0), now + WANT_EXPIRY) && now <= arrivals(0).at
    ensures AllIn([IdentifierOf(a)], Holder(a).retained)
    ensures
      var r := RoundOver(t, Holder(a), NEWCOMER, c, peer, now, [IdentifierOf(a)], arrivals);
      r.node.retained == map[] && PeerIsBlocked(r.budgets, peer, arrivals(0).at)
  {
    FirstMeeting(t, a, c, now);
    LateAnswerBlocksTheGiver(t, Holder(a), NEWCOMER, c, peer, now, [IdentifierOf(a)], arrivals);
  }

  lemma TwiceTaken(
    t: Trust, giver: Retained, asked: Node, c: Connection, peer: string, id: string, now: Time, first: Arrival, again: Arrival)
    requires SoundTable(t, giver) && t.ready && id in giver && asked.retained == map[] && Taking(giver, asked, c, [id], now)
    requires now <= first.at <= again.at && !Late(first, now + WANT_EXPIRY)
    ensures
      var once := TakeOne(t, Taker(asked, map[]), c, peer, EncodedRecord(Encoded(giver[id])), first).taker;
      var twice := TakeOne(t, once, c, peer, EncodedRecord(Encoded(giver[id])), again);
      && twice.dropped
      && twice.taker.node.retained == once.node.retained == map[id := giver[id]]
      && PeerIsBlocked(twice.taker.budgets, peer, again.at)
  {
    OneTaken(t, giver, Taker(asked, map[]), c, peer, [id], now, first);
    SecondCopyRefused(t, giver, Taker(asked, map[]), c, peer, [id], now, first, again);
    ChargedThenPenalised(peer, first, again);
  }

  lemma ChargedThenPenalised(peer: string, first: Arrival, again: Arrival)
    requires first.at <= again.at
    ensures Admits(map[], Charge(peer, first))
    ensures PeerIsBlocked(Applied(Applied(map[], Charge(peer, first)), Penalty(peer, again)), peer, again.at)
  {
    AppliedSound(map[], 0, Charge(peer, first));
    PenaltyBlocks(Applied(map[], Charge(peer, first)), first.at, peer, again);
  }

  /** And so is a giver that sends the one record twice, though the announce stays. */
  lemma TwiceAtFirstMeeting(t: Trust, a: SignedAnnounce, c: Connection, peer: string, now: Time, first: Arrival, again: Arrival)
    requires Acceptable(t, a) && now <= first.at <= again.at && !Late(first, now + WANT_EXPIRY)
    ensures AllIn([IdentifierOf(a)], Holder(a).retained)
    ensures
      var asked := HandleOffer(t, NEWCOMER.node, c, now, EncodedOffer(Holdings(Holder(a).retained, [IdentifierOf(a)]))).node;
      var once := TakeOne(t, Taker(asked, map[]), c, peer, EncodedRecord(Encoded(a)), first).taker;
      var twice := TakeOne(t, once, c, peer, EncodedRecord(Encoded(a)), again);
      && twice.dropped
      && twice.taker.node.retained == once.node.retained == map[IdentifierOf(a) := a]
      && PeerIsBlocked(twice.taker.budgets, peer, again.at)
  {
    var asked := AskedAtFirstMeeting(t, a, c, now);
    HolderSound(t, a);
    TwiceTaken(t, Holder(a).retained, asked, c, peer, IdentifierOf(a), now, first, again);
  }

  lemma AskedAtFirstMeeting(t: Trust, a: SignedAnnounce, c: Connection, now: Time) returns (asked: Node)
    requires Acceptable(t, a)
    ensures AllIn([IdentifierOf(a)], Holder(a).retained)
    ensures asked == HandleOffer(t, NEWCOMER.node, c, now, EncodedOffer(Holdings(Holder(a).retained, [IdentifierOf(a)]))).node
    ensures asked.retained == map[] && Taking(Holder(a).retained, asked, c, [IdentifierOf(a)], now)
  {
    FirstMeeting(t, a, c, now);
    OfferAnswered(t, Holder(a), NEWCOMER.node, c, now, [IdentifierOf(a)]);
    asked := HandleOffer(t, NEWCOMER.node, c, now, EncodedOffer(Holdings(Holder(a).retained, [IdentifierOf(a)]))).node;
    TakingStarts(Holder(a).retained, map[], asked, c, now, [IdentifierOf(a)]);
  }

  /** The tick comes at most `slack` before each record. */
  ghost predicate TicksWithin(arrivals: Arrivals, slack: nat) {
    forall i :: arrivals(i).at <= arrivals(i).ticked + slack
  }

  lemma {:induction false} KeptCount(ids: seq<string>, taken: seq<bool>)
    requires |ids| == |taken|
    ensures |Kept(ids, taken)| == Count(taken)
  {
    if ids != [] {
      KeptCount(ids[1..], taken[1..]);
    }
  }

  /** Within the five minutes a want lasts, and what the tick may be behind, there are few tokens. */
  lemma FewTokens(slack: nat)
    ensures CeilDiv(WANT_EXPIRY, REFILL_INTERVAL) == 5
    ensures slack <= REFILL_INTERVAL ==> CeilDiv(WANT_EXPIRY + slack, REFILL_INTERVAL) <= 6
  {
  }

  /** The table took at most so many of the giver's announces. */
  ghost predicate TookAtMost(giver: Retained, taker: Retained, after: Retained, limit: nat) {
    exists taken: seq<string> :: |taken| <= limit && AllIn(taken, giver) && after == Overlaid(taker, giver, taken)
  }

  lemma TookFew(giver: Retained, taker: Retained, ids: seq<string>, gate: Gate, after: Taker, limit: nat)
    requires AllIn(ids, giver) && |gate.admitted| == |ids|
    ensures TakenAs(giver, taker, ids, gate, after) && Count(gate.admitted) <= limit ==>
      TookAtMost(giver, taker, after.node.retained, limit)
  {
    KeptCount(ids, gate.admitted);
    if TakenAs(giver, taker, ids, gate, after) {
      assert after.node.retained == Overlaid(taker, giver, Kept(ids, gate.admitted));
    }
  }

  /** Announces one round can bring while the tick is no more than `slack` behind: 13 at no slack, 14 up to a minute. */
  function RoundLimit(slack: nat): (r: nat)
    ensures r >= BURST_ALLOWANCE
    ensures slack == 0 ==> r == 13
    ensures slack <= REFILL_INTERVAL ==> r <= 14
  {
    FewTokens(slack);
    BURST_ALLOWANCE + CeilDiv(WANT_EXPIRY + slack, REFILL_INTERVAL)
  }

  lemma GateIsSmall(giver: Node, taker: Taker, peer: string, now: Time, order: seq<string>, arrivals: Arrivals, slack: nat)
    requires AllIn(Offered(order), giver.retained)
    requires TableSound(taker.budgets, now) && Ordered(arrivals, now) && TicksWithin(arrivals, slack)
    ensures Count(RoundGate(giver, taker, peer, now, order, arrivals).admitted) <= RoundLimit(slack)
  {
    var count := |NewerIds(giver.retained, taker.node.retained, Offered(order))|;
    InTimeArrivals(arrivals, now + WANT_EXPIRY, slack);
    TrackedShare(taker.budgets, now, peer);
    var end := now + WANT_EXPIRY + slack;
    AnswerIsSmall(taker.budgets, peer, now + WANT_EXPIRY, arrivals, count, now, end);
    assert end - now == WANT_EXPIRY + slack;
  }

  lemma TrackedShare(budgets: Budgets, now: Time, peer: string)
    requires TableSound(budgets, now)
    ensures SoundShare(BudgetOf(budgets, peer), now)
  {
  }

  lemma InTimeArrivals(arrivals: Arrivals, deadline: Time, slack: nat)
    requires TicksWithin(arrivals, slack)
    ensures TakenBy(arrivals, deadline, deadline + slack)
  {
  }

  /** One round brings at most a burst of announces and one for each minute begun until its wants are dropped. */
  lemma RoundTakesFew(
    t: Trust, giver: Node, taker: Taker, c: Connection, peer: string, now: Time, order: seq<string>, arrivals: Arrivals, slack: nat)
    requires RoundReady(t, giver, taker.node, c, now, order)
    requires TableSound(taker.budgets, now) && Ordered(arrivals, now) && TicksWithin(arrivals, slack)
    ensures TookAtMost(giver.retained, taker.node.retained, RoundOver(t, giver, taker, c, peer, now, order, arrivals).node.retained, RoundLimit(slack))
  {
    RoundTakesWhatIsAdmitted(t, giver, taker, c, peer, now, order, arrivals);
    GateIsSmall(giver, taker, peer, now, order, arrivals, slack);
    TookFew(giver.retained, taker.node.retained, NewerIds(giver.retained, taker.node.retained, Offered(order)),
            RoundGate(giver, taker, peer, now, order, arrivals), RoundOver(t, giver, taker, c, peer, now, order, arrivals), RoundLimit(slack));
  }

  /** So a round reaches the maximum only where no more than that is missing. */
  lemma MaximumNeedsFew(
    t: Trust, giver: Node, taker: Taker, c: Connection, peer: string, now: Time, order: seq<string>, arrivals: Arrivals, slack: nat)
    requires RoundReady(t, giver, taker.node, c, now, order)
    requires TableSound(taker.budgets, now) && Ordered(arrivals, now) && TicksWithin(arrivals, slack)
    ensures AllIn(Offered(order), giver.retained)
    ensures
      NewerOffered(giver.retained, taker.node.retained, Offered(order), RoundOver(t, giver, taker, c, peer, now, order, arrivals).node.retained) ==>
        |NewerIds(giver.retained, taker.node.retained, Offered(order))| <= RoundLimit(slack)
  {
    RoundReached(t, giver, taker, c, peer, now, order, arrivals);
    GateIsSmall(giver, taker, peer, now, order, arrivals, slack);
    AllCounted(RoundGate(giver, taker, peer, now, order, arrivals).admitted);
  }

  // ---- Whole tables

  /** The order lists the whole table. */
  ghost predicate Listing(retained: Retained, order: seq<string>) {
    forall id :: id in order <==> id in retained
  }

  /** The newer of two tables, identifier by identifier; the taker's own announce wins a tie. */
  ghost predicate NewerOfBoth(giver: Retained, taker: Retained, after: Retained) {
    && after.Keys == taker.Keys + giver.Keys
    && forall id :: id in after ==>
         && VersionOf(after, id) == Higher(VersionOf(giver, id), VersionOf(taker, id))
         && after[id] == if id in giver && NewerAt(giver, taker, id) then giver[id] else taker[id]
  }

  /** A table of at most 64 announces, offered whole and taken whole, in time, leaves the taker the newer of both tables. */
  lemma RoundMergesTables(
    t: Trust, giver: Node, taker: Taker, c: Connection, peer: string, now: Time, order: seq<string>, arrivals: Arrivals)
    requires RoundReady(t, giver, taker.node, c, now, order)
    requires Listing(giver.retained, order) && |order| <= MAXIMUM_ENTRIES && AllIn(Offered(order), giver.retained)
    requires All(RoundGate(giver, taker, peer, now, order, arrivals).admitted)
    ensures NewerOfBoth(giver.retained, taker.node.retained, RoundOver(t, giver, taker, c, peer, now, order, arrivals).node.retained)
  {
    RoundReached(t, giver, taker, c, peer, now, order, arrivals);
    WholeTable(giver.retained, taker.node.retained, order, RoundOver(t, giver, taker, c, peer, now, order, arrivals).node.retained);
  }

  lemma WholeTable(giver: Retained, taker: Retained, order: seq<string>, after: Retained)
    requires Listing(giver, order) && |order| <= MAXIMUM_ENTRIES
    ensures NewerOffered(giver, taker, Offered(order), after) ==> NewerOfBoth(giver, taker, after)
  {
    assert Offered(order) == order && Elements(order) == giver.Keys;
  }

  lemma NewerTwice(a: Retained, b: Retained, b2: Retained, a2: Retained, id: string)
    requires NewerOfBoth(a, b, b2) && NewerOfBoth(b2, a, a2)
    ensures a2.Keys == b2.Keys
    ensures VersionOf(a2, id) == VersionOf(b2, id) == Higher(VersionOf(a, id), VersionOf(b, id))
  {
    assert id !in a2 ==> id !in a && id !in b;
  }

  /** A round, whatever it lets through, keeps the taker's table authentic. */
  lemma TakenSound(t: Trust, giver: Retained, taker: Retained, ids: seq<string>, offered: seq<string>)
    requires SoundTable(t, giver) && SoundTable(t, taker) && AllIn(ids, giver) && AllIn(offered, giver)
    requires (forall id :: id in ids ==> id in offered) && |taker.Keys + Elements(offered)| <= MAXIMUM_RETAINED
    ensures SoundTable(t, Overlaid(taker, giver, ids))
  {
    var after := Overlaid(taker, giver, ids);
    forall id | id in after
      ensures SoundEntry(t, id, after[id]) && id in taker.Keys + Elements(offered)
    {
      OverlaidAt(taker, giver, ids, id);
      if id in ids {
        assert SoundEntry(t, id, giver[id]);
      } else {
        assert SoundEntry(t, id, taker[id]);
      }
    }
    SubsetSize(after.Keys, taker.Keys + Elements(offered));
    assert |after| == |after.Keys|;
  }

  /** Two nodes, each with its own budgets: after a round each way, both taken whole, they hold the same versions. */
  lemma RoundsBothWaysAgree(
    t: Trust, a: Taker, b: Taker, c: Connection, aName: string, bName: string, now: Time, later: Time,
    order: seq<string>, back: seq<string>, there: Arrivals, here: Arrivals, id: string)
    requires SoundTable(t, a.node.retained) && SoundTable(t, b.node.retained) && t.ready
    requires Fits(a.node, b.node, c, now, order) && Listing(a.node.retained, order) && |order| <= MAXIMUM_ENTRIES
    requires AllIn(Offered(order), a.node.retained) && All(RoundGate(a.node, b, aName, now, order, there).admitted)
    requires
      var b2 := RoundOver(t, a.node, b, c, aName, now, order, there);
      && Fits(b2.node, a.node, c, later, back) && Listing(b2.node.retained, back) && |back| <= MAXIMUM_ENTRIES
      && AllIn(Offered(back), b2.node.retained) && All(RoundGate(b2.node, a, bName, later, back, here).admitted)
    ensures
      var b2 := RoundOver(t, a.node, b, c, aName, now, order, there).node;
      var a2 := RoundOver(t, b2, a, c, bName, later, back, here).node;
      && a2.retained.Keys == b2.retained.Keys
      && VersionOf(a2.retained, id) == VersionOf(b2.retained, id)
           == Higher(VersionOf(a.node.retained, id), VersionOf(b.node.retained, id))
  {
    var b2 := RoundOver(t, a.node, b, c, aName, now, order, there);
    RoundMergesTables(t, a.node, b, c, aName, now, order, there);
    RoundKeepsSound(t, a.node, b, c, aName, now, order, there);
    BackRound(t, a, b, b2, c, bName, later, back, here, id);
  }

  lemma RoundKeepsSound(
    t: Trust, giver: Node, taker: Taker, c: Connection, peer: string, now: Time, order: seq<string>, arrivals: Arrivals)
    requires SoundTable(t, giver.retained) && SoundTable(t, taker.node.retained) && t.ready && Fits(giver, taker.node, c, now, order)
    ensures SoundTable(t, RoundOver(t, giver, taker, c, peer, now, order, arrivals).node.retained)
  {
    RoundTakesWhatIsAdmitted(t, giver, taker, c, peer, now, order, arrivals);
    var ids := NewerIds(giver.retained, taker.node.retained, Offered(order));
    TakenSound(t, giver.retained, taker.node.retained, Kept(ids, RoundGate(giver, taker, peer, now, order, arrivals).admitted), Offered(order));
  }

  lemma BackRound(
    t: Trust, a: Taker, b: Taker, b2: Taker, c: Connection, peer: string, later: Time, back: seq<string>, arrivals: Arrivals, id: string)
    requires SoundTable(t, b2.node.retained) && t.ready && NewerOfBoth(a.node.retained, b.node.retained, b2.node.retained)
    requires Fits(b2.node, a.node, c, later, back) && Listing(b2.node.retained, back) && |back| <= MAXIMUM_ENTRIES
    requires AllIn(Offered(back), b2.node.retained) && All(RoundGate(b2.node, a, peer, later, back, arrivals).admitted)
    ensures
      var a2 := RoundOver(t, b2.node, a, c, peer, later, back, arrivals).node;
      && a2.retained.Keys == b2.node.retained.Keys
      && VersionOf(a2.retained, id) == VersionOf(b2.node.retained, id)
           == Higher(VersionOf(a.node.retained, id), VersionOf(b.node.retained, id))
  {
    RoundMergesTables(t, b2.node, a, c, peer, later, back, arrivals);
    NewerTwice(a.node.retained, b.node.retained, b2.node.retained, RoundOver(t, b2.node, a, c, peer, later, back, arrivals).node.retained, id);
  }
}
