/** One peer connection: the handlers as they run, each doing what the protocol step says. */
module GossipPeer {
  import opened Sequences
  import opened Wrappers
  import opened Bytes
  import opened Announces
  import opened WireCodec
  import opened Receiver
  import opened PeerBudget
  import opened Wants
  import opened Gossip
  import opened Exchange
  import opened GossipJoint

  /** The node as this one connection sees it. */
  function View(retained: Retained, pending: Pending): Node {
    Node(retained, map[0 := pending])
  }

  /** What a handler did: what it sent, what it tracked, what it took, and whether it penalised the peer. */
  datatype Effect = Effect(replies: seq<seq<byte>>, tracked: seq<AnnounceSummary>, ingested: Option<string>, penalises: bool)

  const NOTHING: Effect := Effect([], [], None, false)
  const PENALTY: Effect := Effect([], [], None, true)

  predicate Sendable(payload: seq<byte>) {
    0 < |payload| <= 8192
  }

  lemma WantSendable(summaries: seq<AnnounceSummary>)
    ensures Sendable(EncodedWant(summaries))
  {
    assert |Capped(summaries)| * EntryBytes(false) <= 64 * 72;
  }

  /** A tracking result behind summaries already tracked. */
  function Following(tracked: seq<AnnounceSummary>, rest: TrackResult): TrackResult {
    TrackResult(rest.pending, tracked + rest.tracked)
  }

  lemma FollowingNothing(rest: TrackResult)
    ensures Following([], rest) == rest
  {
    assert [] + rest.tracked == rest.tracked;
  }

  lemma TrackAllStep(pending: Pending, tracked: seq<AnnounceSummary>, wanted: seq<AnnounceSummary>, index: nat, now: Time)
    requires index < |wanted|
    ensures
      var first := Track(pending, KeyOf(wanted[index]), now);
      Following(tracked, TrackAll(pending, wanted[index..], now))
        == Following(tracked + (if first.ok then [wanted[index]] else []), TrackAll(first.pending, wanted[index + 1..], now))
  {
    var rest := wanted[index..];
    assert rest[0] == wanted[index] && rest[1..] == wanted[index + 1..];
    var first := Track(pending, KeyOf(wanted[index]), now);
    var one := if first.ok then [wanted[index]] else [];
    var later := TrackAll(first.pending, wanted[index + 1..], now);
    assert TrackAll(pending, rest, now) == TrackResult(later.pending, one + later.tracked);
    assert tracked + (one + later.tracked) == tracked + one + later.tracked;
  }

  /** What one wanted summary is answered with. */
  function Answer(retained: Retained, wanted: AnnounceSummary): (r: seq<seq<byte>>)
    ensures forall k :: 0 <= k < |r| ==> Sendable(r[k])
  {
    match RecordFor(retained, wanted.publisher, wanted.modName)
    case None => []
    case Some(record) => [EncodedRecord(record)]
  }

  lemma ServedUnfolds(retained: Retained, wanted: seq<AnnounceSummary>)
    requires wanted != []
    ensures Served(retained, wanted) == Answer(retained, wanted[0]) + Served(retained, wanted[1..])
  {
  }

  lemma ServedStep(retained: Retained, replies: seq<seq<byte>>, wanted: seq<AnnounceSummary>, index: nat)
    requires index < |wanted|
    ensures replies + Served(retained, wanted[index..])
         == replies + Answer(retained, wanted[index]) + Served(retained, wanted[index + 1..])
  {
    var rest := wanted[index..];
    assert rest[0] == wanted[index] && rest[1..] == wanted[index + 1..];
    ServedUnfolds(retained, rest);
    Regroup(replies, Answer(retained, wanted[index]), Served(retained, wanted[index + 1..]));
  }

  lemma ViewWants(retained: Retained, pending: Pending, after: Pending)
    ensures WantsOf(View(retained, pending), 0) == pending
    ensures Node(retained, View(retained, pending).wants[0 := after]) == View(retained, after)
  {
    assert View(retained, pending).wants[0 := after] == map[0 := after];
  }

  lemma OfferReaction(t: Trust, retained: Retained, pending: Pending, now: Time, body: seq<byte>,
                      offered: seq<AnnounceSummary>, wanted: seq<AnnounceSummary>, r: TrackResult)
    requires DecodedOffer(body) == Some(offered) && Missing(t, retained, offered, MAXIMUM_ENTRIES) == wanted
    requires wanted != [] && TrackAll(Pruned(pending, now), wanted, now) == r
    ensures Gossip.HandleOffer(t, View(retained, pending), 0, now, body)
         == Reaction(View(retained, r.pending), if r.tracked == [] then [] else [EncodedWant(r.tracked)], r.tracked, None, false)
  {
    ViewWants(retained, pending, r.pending);
    OfferTracks(t, View(retained, pending), 0, now, body, offered, wanted);
  }

  const HOLDINGS_POLL_INTERVAL: nat := 2 * SECOND

  class AnnounceGossipPeerPlugin {
    const exchange: AnnounceExchange
    const wants: OutstandingWantTracker
    const peer: string
    var lastPoll: Time

    constructor (exchange: AnnounceExchange, peer: string)
      ensures this.exchange == exchange && this.peer == peer && fresh(wants) && wants.pending == map[] && lastPoll == 0
    {
      this.exchange, this.peer := exchange, peer;
      lastPoll := 0;
      wants := new OutstandingWantTracker();
    }

    /** Payloads that are empty or over the limit are dropped. */
    method Send(sent: seq<seq<byte>>, payload: seq<byte>) returns (after: seq<seq<byte>>)
      ensures after == if Sendable(payload) then sent + [payload] else sent
    {
      if |payload| == 0 || |payload| > MAXIMUM_MESSAGE_BYTES {
        return sent;
      }
      return sent + [payload];
    }

    method TrackWanted(wanted: seq<AnnounceSummary>, now: Time) returns (tracked: seq<AnnounceSummary>)
      modifies wants
      ensures TrackResult(wants.pending, tracked) == TrackAll(old(wants.pending), wanted, now)
    {
      tracked := [];
      FollowingNothing(TrackAll(wants.pending, wanted, now));
      assert wanted[0..] == wanted;
      for index := 0 to |wanted|
        invariant TrackAll(old(wants.pending), wanted, now) == Following(tracked, TrackAll(wants.pending, wanted[index..], now))
      {
        TrackAllStep(wants.pending, tracked, wanted, index, now);
        var ok := wants.TrackWant(KeyOf(wanted[index]), now);
        if ok {
          tracked := tracked + [wanted[index]];
        } else {
          assert tracked + [] == tracked;
        }
      }
      assert TrackAll(wants.pending, [], now) == TrackResult(wants.pending, []);
    }

    /** At most every two seconds the tick drops the expired wants; what it offers is not part of this. */
    method PollWants(now: Time) returns (polled: bool)
      modifies this`lastPoll, wants
      ensures polled == (now >= old(lastPoll) + 2 * 1_000_000_000)
      ensures lastPoll == if polled then now else old(lastPoll)
      ensures
        var before := old(Taker(View(exchange.receiver.retained, wants.pending), exchange.budgets));
        Taker(View(exchange.receiver.retained, wants.pending), exchange.budgets)
          == if polled then JointStep(exchange.receiver.trust, before, Idle(0, now)) else before
    {
      if now < lastPoll + HOLDINGS_POLL_INTERVAL {
        return false;
      }
      lastPoll := now;
      wants.Prune(now);
      return true;
    }

    method ServeAll(wanted: seq<AnnounceSummary>) returns (replies: seq<seq<byte>>)
      requires exchange.Valid()
      modifies exchange`status
      ensures exchange.Valid() && replies == Served(exchange.receiver.retained, wanted)
    {
      replies := [];
      assert wanted[0..] == wanted;
      for index := 0 to |wanted|
        invariant exchange.Valid()
        invariant Served(exchange.receiver.retained, wanted) == replies + Served(exchange.receiver.retained, wanted[index..])
      {
        var summary := wanted[index];
        ServedStep(exchange.receiver.retained, replies, wanted, index);
        ghost var answer := Answer(exchange.receiver.retained, summary);
        var record := exchange.Serve(summary);
        if record.Some? {
          assert answer == [EncodedRecord(record.value)] && Sendable(answer[0]);
          replies := Send(replies, EncodedRecord(record.value));
        }
      }
    }

    /** The two handlers below charge a malformed message as a violation and anything else not at all. */
    method HandleOffer(body: seq<byte>, now: Time) returns (effect: Effect, ghost victim: Option<string>)
      requires exchange.Valid()
      modifies exchange, wants
      ensures exchange.Valid() && exchange.receiver.retained == old(exchange.receiver.retained)
      ensures
        Reaction(View(exchange.receiver.retained, wants.pending), effect.replies, effect.tracked, effect.ingested, effect.penalises)
          == Gossip.HandleOffer(exchange.receiver.trust, old(View(exchange.receiver.retained, wants.pending)), 0, now, body)
      ensures effect.penalises && MustEvict(old(exchange.budgets), peer) ==> Chosen(old(exchange.budgets), now, victim)
      ensures
        exchange.budgets
          == if effect.penalises then Applied(old(exchange.budgets), ExchangeOp(peer, victim, Op.Penalise(now))) else old(exchange.budgets)
    {
      victim := None;
      var offered := DecodeEntries(body, Offer, true);
      if offered.None? {
        victim := exchange.Penalise(peer, now);
        return PENALTY, victim;
      }
      var wanted := exchange.MissingFrom(offered.value);
      if wanted == [] {
        return NOTHING, victim;
      }
      wants.Prune(now);
      var tracked := TrackWanted(wanted, now);
      OfferReaction(exchange.receiver.trust, old(exchange.receiver.retained), old(wants.pending), now, body,
                    offered.value, wanted, TrackResult(wants.pending, tracked));
      if tracked == [] {
        return NOTHING, victim;
      }
      var payload := EncodeList(Want, tracked, false);
      WantSendable(tracked);
      var replies := Send([], payload);
      return Effect(replies, tracked, None, false), victim;
    }

    method HandleWant(body: seq<byte>, now: Time) returns (effect: Effect, ghost victim: Option<string>)
      requires exchange.Valid()
      modifies exchange
      ensures exchange.Valid() && exchange.receiver.retained == old(exchange.receiver.retained)
      ensures
        Reaction(View(exchange.receiver.retained, wants.pending), effect.replies, effect.tracked, effect.ingested, effect.penalises)
          == Gossip.HandleWant(old(View(exchange.receiver.retained, wants.pending)), body)
      ensures effect.penalises && MustEvict(old(exchange.budgets), peer) ==> Chosen(old(exchange.budgets), now, victim)
      ensures
        exchange.budgets
          == if effect.penalises then Applied(old(exchange.budgets), ExchangeOp(peer, victim, Op.Penalise(now))) else old(exchange.budgets)
    {
      victim := None;
      var wanted := DecodeEntries(body, Want, false);
      if wanted.None? {
        victim := exchange.Penalise(peer, now);
        return PENALTY, victim;
      }
      var replies := ServeAll(wanted.value);
      return Effect(replies, [], None, false), victim;
    }

    /** The penalty or the token the peer was charged is exactly the exchange's own step. */
    method HandleRecord(body: seq<byte>, now: Time) returns (effect: Effect, ghost victim: Option<string>)
      requires exchange.Valid()
      modifies exchange, exchange.receiver, wants
      ensures exchange.Valid()
      ensures
        var admitted := Admits(old(exchange.budgets), ExchangeOp(peer, victim, Op.Consume(now)));
        Reaction(View(exchange.receiver.retained, wants.pending), effect.replies, effect.tracked, effect.ingested, effect.penalises)
          == Gossip.HandleRecord(exchange.receiver.trust, old(View(exchange.receiver.retained, wants.pending)), 0, body, admitted)
      ensures MustEvict(old(exchange.budgets), peer) ==> Chosen(old(exchange.budgets), now, victim)
      ensures
        exchange.budgets
          == Applied(old(exchange.budgets), ExchangeOp(peer, victim, if effect.penalises then Op.Penalise(now) else Op.Consume(now)))
      ensures effect.penalises || effect.ingested.Some?
    {
      var record := DecodedRecord(body);
      if record.None? {
        victim := exchange.Penalise(peer, now);
        return PENALTY, victim;
      }
      var identity := SummaryOf(record.value);
      if identity.None? {
        victim := exchange.Penalise(peer, now);
        return PENALTY, victim;
      }
      var redeemed := wants.RedeemWant(KeyOf(identity.value));
      if !redeemed {
        assert wants.pending == old(wants.pending);
        victim := exchange.Penalise(peer, now);
        return PENALTY, victim;
      }
      var accepted, v := exchange.Ingest(peer, record.value, now);
      victim := v;
      return Effect([], [], Some(KeyOf(identity.value)), false), victim;
    }

    /** A whole extended message is one joint step of protocol and budgets; asking for an offer changes nothing here. */
    method OnExtended(body: seq<byte>, now: Time) returns (effect: Effect, ghost victim: Option<string>)
      requires exchange.Valid()
      modifies exchange, exchange.receiver, wants
      ensures exchange.Valid()
      ensures
        var before := old(Taker(View(exchange.receiver.retained, wants.pending), exchange.budgets));
        var m := Message(0, peer, now, body, victim);
        && Taker(View(exchange.receiver.retained, wants.pending), exchange.budgets) == JointStep(exchange.receiver.trust, before, m)
        && Reaction(View(exchange.receiver.retained, wants.pending), effect.replies, effect.tracked, effect.ingested, effect.penalises)
             == ReactionTo(exchange.receiver.trust, before, m)
        && (Charges(exchange.receiver.trust, before, m).Some? && MustEvict(before.budgets, peer) ==> Chosen(before.budgets, now, victim))
    {
      victim := None;
      if |body| > MAXIMUM_MESSAGE_BYTES {
        victim := exchange.Penalise(peer, now);
        return PENALTY, victim;
      }
      match MessageOf(body) {
        case None =>
          effect := NOTHING;
        case Some(Offer) =>
          effect, victim := HandleOffer(body, now);
        case Some(Want) =>
          effect, victim := HandleWant(body, now);
        case Some(Record) =>
          effect, victim := HandleRecord(body, now);
        case Some(Ask) =>
          effect := NOTHING;
      }
    }
  }
}
