/** What receiving and answering mean, told from the key registry, the table and the messages alone. */
module GossipMeaning {
  import opened Wrappers
  import opened Bytes
  import opened Announces
  import opened AnnounceCodec
  import opened WireCodec
  import opened Receiver
  import opened PeerBudget
  import opened Wants
  import opened Gossip

  // ---- The verdict on a record

  function KeyName(publisher: Fingerprint, modName: string): string {
    ToHex(publisher) + "/" + modName
  }

  /** Registered, not revoked, and signed over the first 156 bytes with the registered key. */
  predicate Genuine(t: Trust, a: SignedAnnounce) {
    && a.publisher in t.registry
    && !t.registry[a.publisher].revoked
    && t.ready
    && t.verify(Encoded(a)[..156], a.signature, t.registry[a.publisher].publicKey)
  }

  /** Newer than the one held, or new in a table that holds less than 4096. */
  predicate Fresh(retained: Retained, publisher: Fingerprint, modName: string, version: uint64) {
    var key := KeyName(publisher, modName);
    if key in retained then retained[key].version < version else |retained| < 4096
  }

  lemma SignedPart(a: SignedAnnounce)
    ensures Encoded(a)[..156] == Signable(a)
  {
  }

  /** Every verdict, exactly; only an accepted announce changes the table, and only its own place. */
  lemma VerdictExactly(t: Trust, retained: Retained, record: seq<byte>, a: SignedAnnounce)
    requires Decoded(record) == Ok(a)
    ensures
      var r := Accepted(t, retained, record);
      var known := a.publisher in t.registry;
      && (r.result == Err(UnknownPublisher) <==> !known)
      && (r.result == Err(RevokedPublisher) <==> known && t.registry[a.publisher].revoked)
      && (r.result == Err(SignatureInvalid) <==> known && !t.registry[a.publisher].revoked && !Genuine(t, a))
      && (r.result == Err(NotNewer) <==> Genuine(t, a) && !Fresh(retained, a.publisher, a.modName, a.version))
      && (r.result == Ok(a) <==> Genuine(t, a) && Fresh(retained, a.publisher, a.modName, a.version))
      && r.result != Err(Malformed)
      && r.retained == if r.result.Ok? then retained[KeyName(a.publisher, a.modName) := a] else retained
  {
    SignedPart(a);
  }

  /** Nothing but an undecodable record is malformed. */
  lemma MalformedExactly(t: Trust, retained: Retained, record: seq<byte>)
    ensures Accepted(t, retained, record).result == Err(Malformed) <==> Decoded(record).Err?
    ensures Decoded(record).Err? ==> Accepted(t, retained, record).retained == retained
  {
    if Decoded(record).Ok? {
      VerdictExactly(t, retained, record, Decoded(record).value);
    }
  }

  // ---- Restoring what was stored

  /** Every key of the table, each once. */
  ghost predicate Listing(retained: Retained, keys: seq<string>) {
    && |keys| == |retained|
    && (forall key :: key in retained <==> key in keys)
    && Distinct(keys)
  }

  ghost predicate Distinct(keys: seq<string>) {
    forall i, j :: 0 <= i < j < |keys| ==> keys[i] != keys[j]
  }

  function RecordsOf(retained: Retained, keys: seq<string>): seq<seq<byte>> {
    if keys == [] then []
    else (if keys[0] in retained then [Encoded(retained[keys[0]])] else []) + RecordsOf(retained, keys[1..])
  }

  /** Part of a table already restored, the rest still to come. */
  ghost predicate Restoring(retained: Retained, keys: seq<string>, held: Retained) {
    && Distinct(keys)
    && |held| + |keys| <= 4096
    && (forall key :: key in held ==> key in retained && held[key] == retained[key])
    && (forall key :: key in retained <==> key in keys || key in held)
    && forall key :: key in keys ==> key !in held
  }

  lemma {:induction false} RestoresRest(t: Trust, retained: Retained, keys: seq<string>, held: Retained)
    requires t.ready && SoundTable(t, retained) && Restoring(retained, keys, held)
    ensures AcceptedAll(t, held, RecordsOf(retained, keys)) == retained
    ensures AcceptedCount(t, held, RecordsOf(retained, keys)) == |keys|
    decreases keys
  {
    if keys == [] {
      AllHeld(retained, held);
    } else {
      var key := keys[0];
      RestoringStep(retained, keys, held);
      RestoredOne(t, retained, key, held);
      var next := held[key := retained[key]];
      RestoresRest(t, retained, keys[1..], next);
      var record, rest := Encoded(retained[key]), RecordsOf(retained, keys[1..]);
      assert RecordsOf(retained, keys) == [record] + rest;
      RestoredStep(t, held, record, rest, next);
      CountedStep(t, held, record, rest, next);
    }
  }

  lemma AllHeld(retained: Retained, held: Retained)
    requires Restoring(retained, [], held)
    ensures held == retained
  {
  }

  lemma RestoredStep(t: Trust, held: Retained, record: seq<byte>, rest: seq<seq<byte>>, next: Retained)
    requires Accepted(t, held, record).retained == next && Accepted(t, held, record).result.Ok?
    ensures AcceptedAll(t, held, [record] + rest) == AcceptedAll(t, next, rest)
  {
    assert ([record] + rest)[1..] == rest;
  }

  lemma CountedStep(t: Trust, held: Retained, record: seq<byte>, rest: seq<seq<byte>>, next: Retained)
    requires Accepted(t, held, record).retained == next && Accepted(t, held, record).result.Ok?
    ensures AcceptedCount(t, held, [record] + rest) == 1 + AcceptedCount(t, next, rest)
  {
    assert ([record] + rest)[1..] == rest;
  }

  lemma RestoredOne(t: Trust, retained: Retained, key: string, held: Retained)
    requires t.ready && SoundTable(t, retained) && key in retained && key !in held && |held| < 4096
    ensures Accepted(t, held, Encoded(retained[key])) == Outcome(held[key := retained[key]], Ok(retained[key]))
  {
    var a := retained[key];
    assert SoundEntry(t, key, a);
    AnnounceRoundTrip(a);
    VerdictExactly(t, held, Encoded(a), a);
    SignedPart(a);
  }

  lemma DistinctTail(keys: seq<string>)
    requires keys != [] && Distinct(keys)
    ensures Distinct(keys[1..]) && keys[0] !in keys[1..]
    ensures forall key :: key in keys <==> key == keys[0] || key in keys[1..]
  {
    assert keys == [keys[0]] + keys[1..];
    assert forall i :: 0 <= i < |keys[1..]| ==> keys[1..][i] == keys[i + 1];
  }

  lemma RestoringStep(retained: Retained, keys: seq<string>, held: Retained)
    requires Restoring(retained, keys, held) && keys != []
    ensures keys[0] in retained && keys[0] !in held && Restoring(retained, keys[1..], held[keys[0] := retained[keys[0]]])
  {
    DistinctTail(keys);
    UpdatedSize(held, keys[0], retained[keys[0]]);
  }

  /** A table written out record by record, in any order, is restored whole, and every record counts. */
  lemma RestoreRoundTrip(t: Trust, retained: Retained, keys: seq<string>)
    requires t.ready && SoundTable(t, retained) && Listing(retained, keys)
    ensures AcceptedAll(t, map[], RecordsOf(retained, keys)) == retained
    ensures AcceptedCount(t, map[], RecordsOf(retained, keys)) == |retained|
  {
    RestoresRest(t, retained, keys, map[]);
  }

  // ---- Answering an offer

  /** Worth asking for: from a usable publisher, and newer or new with room for it. */
  predicate WorthAsking(t: Trust, retained: Retained, s: AnnounceSummary) {
    && s.publisher in t.registry
    && !t.registry[s.publisher].revoked
    && Fresh(retained, s.publisher, s.modName, s.version)
  }

  function Worthy(t: Trust, retained: Retained, offered: seq<AnnounceSummary>): seq<AnnounceSummary> {
    if offered == [] then []
    else (if WorthAsking(t, retained, offered[0]) then [offered[0]] else []) + Worthy(t, retained, offered[1..])
  }

  /** The first `room` of the announces worth asking for, in the order offered. */
  lemma {:induction false} MissingMeaning(t: Trust, retained: Retained, offered: seq<AnnounceSummary>, room: nat)
    ensures
      var worthy := Worthy(t, retained, offered);
      Missing(t, retained, offered, room) == worthy[..if |worthy| < room then |worthy| else room]
    decreases offered
  {
    if offered != [] && room > 0 {
      var wanted := WorthAsking(t, retained, offered[0]);
      MissingMeaning(t, retained, offered[1..], if wanted then room - 1 else room);
    }
  }

  function SummaryKey(s: AnnounceSummary): string {
    KeyName(s.publisher, s.modName)
  }

  function WithKeysIn(wanted: seq<AnnounceSummary>, keys: set<string>): seq<AnnounceSummary> {
    if wanted == [] then []
    else (if SummaryKey(wanted[0]) in keys then [wanted[0]] else []) + WithKeysIn(wanted[1..], keys)
  }

  ghost predicate Asked(wanted: seq<AnnounceSummary>, key: string) {
    exists i :: 0 <= i < |wanted| && SummaryKey(wanted[i]) == key
  }

  /**
   * What tracking does to the wants of a connection: nothing leaves, what is asked for enters or is renewed
   * while there are less than 128, and nothing else enters.
   */
  ghost predicate TrackedFrom(before: Pending, wanted: seq<AnnounceSummary>, now: Time, after: Pending) {
    && before.Keys <= after.Keys
    && (forall key :: key in after && Asked(wanted, key) ==> after[key] == now)
    && (forall key :: key in after && !Asked(wanted, key) ==> key in before && after[key] == before[key])
    && (forall i :: 0 <= i < |wanted| && SummaryKey(wanted[i]) !in after ==> |after| >= 128)
    && (after.Keys == before.Keys || |after| <= 128)
  }

  lemma TrackedOnce(before: Pending, s: AnnounceSummary, now: Time)
    ensures
      var first := Track(before, SummaryKey(s), now);
      TrackedFrom(before, [s], now, first.pending) && (first.ok <==> SummaryKey(s) in first.pending)
  {
    var key := SummaryKey(s);
    AskedAlone(s);
    var after := before[key := now];
    assert after.Keys == before.Keys + {key};
    assert |after| == |after.Keys| && |before| == |before.Keys|;
    if key in before {
      assert after.Keys == before.Keys;
    }
  }

  lemma AskedAlone(s: AnnounceSummary)
    ensures forall key :: Asked([s], key) <==> key == SummaryKey(s)
  {
    assert SummaryKey([s][0]) == SummaryKey(s);
  }

  lemma KeysGrow(before: Pending, after: Pending)
    ensures before.Keys <= after.Keys ==> |before| <= |after|
    ensures before.Keys < after.Keys ==> |before| < |after|
  {
    assert |after| == |after.Keys| && |before| == |before.Keys|;
    if before.Keys <= after.Keys {
      assert after.Keys == before.Keys + (after.Keys - before.Keys);
    }
  }

  lemma AskedFirst(wanted: seq<AnnounceSummary>, key: string)
    requires wanted != []
    ensures Asked(wanted, key) <==> Asked([wanted[0]], key) || Asked(wanted[1..], key)
  {
    assert wanted == [wanted[0]] + wanted[1..];
    if i :| 0 <= i < |wanted| && SummaryKey(wanted[i]) == key {
      if i == 0 {
        assert SummaryKey([wanted[0]][0]) == key;
      } else {
        assert SummaryKey(wanted[1..][i - 1]) == key;
      }
    }
    if i :| 0 <= i < |wanted[1..]| && SummaryKey(wanted[1..][i]) == key {
      assert SummaryKey(wanted[i + 1]) == key;
    }
  }

  lemma AskedEither(wanted: seq<AnnounceSummary>)
    requires wanted != []
    ensures forall key :: Asked(wanted, key) <==> key == SummaryKey(wanted[0]) || Asked(wanted[1..], key)
  {
    AskedAlone(wanted[0]);
    forall key
      ensures Asked(wanted, key) <==> Asked([wanted[0]], key) || Asked(wanted[1..], key)
    {
      AskedFirst(wanted, key);
    }
  }

  lemma TrackedJoined(before: Pending, middle: Pending, after: Pending, wanted: seq<AnnounceSummary>, now: Time)
    requires wanted != []
    requires TrackedFrom(before, [wanted[0]], now, middle) && TrackedFrom(middle, wanted[1..], now, after)
    ensures TrackedFrom(before, wanted, now, after)
    ensures SummaryKey(wanted[0]) in after <==> SummaryKey(wanted[0]) in middle
  {
    AskedAlone(wanted[0]);
    AskedEither(wanted);
    KeysGrow(before, middle);
    KeysGrow(middle, after);
    assert SummaryKey([wanted[0]][0]) == SummaryKey(wanted[0]);
    TrackedOrFull(middle, after, wanted, now);
  }

  lemma TrackedOrFull(middle: Pending, after: Pending, wanted: seq<AnnounceSummary>, now: Time)
    requires wanted != [] && (SummaryKey(wanted[0]) !in middle ==> |middle| >= 128) && |middle| <= |after|
    requires TrackedFrom(middle, wanted[1..], now, after)
    ensures forall i :: 0 <= i < |wanted| && SummaryKey(wanted[i]) !in after ==> |after| >= 128
  {
    forall i | 0 <= i < |wanted| && SummaryKey(wanted[i]) !in after
      ensures |after| >= 128
    {
      if i > 0 {
        assert SummaryKey(wanted[1..][i - 1]) !in after;
      }
    }
  }

  /** Tracking keeps the wants as said, and tells which of the announces are on the list afterwards, in order. */
  lemma {:induction false} TrackAllMeaning(before: Pending, wanted: seq<AnnounceSummary>, now: Time)
    ensures
      var r := TrackAll(before, wanted, now);
      TrackedFrom(before, wanted, now, r.pending) && r.tracked == WithKeysIn(wanted, r.pending.Keys)
    decreases wanted
  {
    if wanted != [] {
      var first := Track(before, SummaryKey(wanted[0]), now);
      TrackedOnce(before, wanted[0], now);
      TrackAllMeaning(first.pending, wanted[1..], now);
      TrackedJoined(before, first.pending, TrackAll(first.pending, wanted[1..], now).pending, wanted, now);
    }
  }

  /** The wants of a connection that are less than five minutes old. */
  ghost predicate Unexpired(before: Pending, now: Time, after: Pending) {
    && (forall key :: key in after <==> key in before && now < before[key] + 300 * 1_000_000_000)
    && forall key :: key in after ==> after[key] == before[key]
  }

  /** The wants after an offer, and the one message that asks for what is on the list. */
  ghost predicate Wanting(node: Node, c: Connection, wanted: seq<AnnounceSummary>, now: Time, live: Pending, r: Reaction) {
    var after := WantsOf(r.node, c);
    && Unexpired(WantsOf(node, c), now, live)
    && TrackedFrom(live, wanted, now, after)
    && r.node.wants == node.wants[c := after]
    && r.tracked == WithKeysIn(wanted, after.Keys)
    && r.replies == if r.tracked == [] then [] else [EncodedWant(r.tracked)]
  }

  lemma PrunedUnexpired(pending: Pending, now: Time)
    ensures Unexpired(pending, now, Pruned(pending, now))
  {
  }

  lemma OfferWanted(t: Trust, node: Node, c: Connection, now: Time, body: seq<byte>, offered: seq<AnnounceSummary>)
    requires DecodedOffer(body) == Some(offered) && Missing(t, node.retained, offered, 64) != []
    ensures
      var wanted := Missing(t, node.retained, offered, 64);
      Wanting(node, c, wanted, now, Pruned(WantsOf(node, c), now), HandleOffer(t, node, c, now, body))
  {
    var wanted := Missing(t, node.retained, offered, 64);
    PrunedUnexpired(WantsOf(node, c), now);
    TrackAllMeaning(Pruned(WantsOf(node, c), now), wanted, now);
    OfferTracks(t, node, c, now, body, offered, wanted);
  }

  /** An offer is answered with a want for the first 64 announces worth asking for that could be put on the list. */
  lemma OfferMeaning(t: Trust, node: Node, c: Connection, now: Time, body: seq<byte>, offered: seq<AnnounceSummary>)
    requires DecodedOffer(body) == Some(offered)
    ensures
      var r := HandleOffer(t, node, c, now, body);
      var worthy := Worthy(t, node.retained, offered);
      var wanted := worthy[..if |worthy| < 64 then |worthy| else 64];
      && !r.penalises && r.ingested == None && r.node.retained == node.retained
      && (worthy == [] ==> r == Reaction(node, [], [], None, false))
      && (worthy != [] ==> exists live: Pending :: Wanting(node, c, wanted, now, live, r))
  {
    MissingMeaning(t, node.retained, offered, 64);
    if Worthy(t, node.retained, offered) != [] {
      OfferWanted(t, node, c, now, body, offered);
    }
  }

  lemma ServedStep(retained: Retained, wanted: seq<AnnounceSummary>)
    requires wanted != []
    ensures
      var key, rest := SummaryKey(wanted[0]), Served(retained, wanted[1..]);
      Served(retained, wanted) == (if key in retained then [[3] + Encoded(retained[key])] else []) + rest
  {
  }

  predicate AllAnswer(retained: Retained, held: seq<AnnounceSummary>, messages: seq<seq<byte>>) {
    && |messages| == |held|
    && forall i :: 0 <= i < |held| ==> Answers(retained, held[i], messages[i])
  }

  lemma AnswersInFront(retained: Retained, s: AnnounceSummary, message: seq<byte>, held: seq<AnnounceSummary>, messages: seq<seq<byte>>)
    requires Answers(retained, s, message) && AllAnswer(retained, held, messages)
    ensures AllAnswer(retained, [s] + held, [message] + messages)
  {
    forall i | 0 <= i < |held| + 1
      ensures Answers(retained, ([s] + held)[i], ([message] + messages)[i])
    {
      if i > 0 {
        assert ([s] + held)[i] == held[i - 1] && ([message] + messages)[i] == messages[i - 1];
      }
    }
  }

  /** A want is answered with the records held, in the order asked. */
  lemma {:induction false} ServedMeaning(retained: Retained, wanted: seq<AnnounceSummary>)
    ensures AllAnswer(retained, WithKeysIn(wanted, retained.Keys), Served(retained, wanted))
    decreases wanted
  {
    if wanted != [] {
      var first, rest := wanted[0], wanted[1..];
      var key := SummaryKey(first);
      ServedStep(retained, wanted);
      ServedMeaning(retained, rest);
      if key in retained {
        AnswersInFront(retained, first, [3] + Encoded(retained[key]), WithKeysIn(rest, retained.Keys), Served(retained, rest));
      } else {
        assert WithKeysIn(wanted, retained.Keys) == WithKeysIn(rest, retained.Keys);
      }
    }
  }

  predicate Answers(retained: Retained, s: AnnounceSummary, message: seq<byte>) {
    SummaryKey(s) in retained && message == [3] + Encoded(retained[SummaryKey(s)])
  }

  /** Nothing but these messages is a violation; a violation changes nothing and is not answered. */
  lemma ViolationExactly(t: Trust, node: Node, c: Connection, now: Time, body: seq<byte>, admitted: bool)
    ensures
      var r := React(t, node, Deliver(0, c, now, body, admitted));
      && (r.penalises <==>
        || |body| > 8192
        || (body != [] && body[0] == 1 && DecodedOffer(body).None?)
        || (body != [] && body[0] == 2 && DecodedWant(body).None?)
        || (body != [] && body[0] == 3 && !Solicited(node, c, body)))
      && (r.penalises ==> r == Reaction(node, [], [], None, true))
  {
  }

  /** A whole record with a readable name that this connection was asked for. */
  predicate Solicited(node: Node, c: Connection, body: seq<byte>) {
    && |body| == 221
    && SummaryOf(body[1..]).Some?
    && SummaryKey(SummaryOf(body[1..]).value) in WantsOf(node, c)
  }

  /** A solicited record uses up its want, and goes to the receiver when the sender still has a token. */
  lemma SolicitedMeaning(t: Trust, node: Node, c: Connection, now: Time, body: seq<byte>, admitted: bool)
    requires body != [] && body[0] == 3 && Solicited(node, c, body)
    ensures
      var r := React(t, node, Deliver(0, c, now, body, admitted));
      var key := SummaryKey(SummaryOf(body[1..]).value);
      && r.node.wants == node.wants[c := WantsOf(node, c) - {key}]
      && r.node.retained == (if admitted then Accepted(t, node.retained, body[1..]).retained else node.retained)
      && r.ingested == Some(key) && r.replies == []
  {
  }
}
