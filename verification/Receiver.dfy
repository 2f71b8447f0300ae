/** Accepting signed announces: only authentic ones, only newer ones. */
module Receiver {
  import opened Wrappers
  import opened Bytes
  import opened Announces
  import opened AnnounceCodec

  datatype Rejection = Malformed | UnknownPublisher | RevokedPublisher | SignatureInvalid | NotNewer

  datatype RegisteredKey = RegisteredKey(publicKey: seq<byte>, revoked: bool)

  type Registry = map<Fingerprint, RegisteredKey>

  /** The key registry, the signature check (message, signature, public key) and whether the library is up. */
  datatype Trust = Trust(registry: Registry, verify: (seq<byte>, Signature, seq<byte>) -> bool, ready: bool)

  /** Retained announces by identifier. */
  type Retained = map<string, SignedAnnounce>

  const MAXIMUM_RETAINED: nat := 4096

  function IdentifierOf(a: SignedAnnounce): string {
    Identifier(a.publisher, a.modName)
  }

  predicate IsUsable(t: Trust, publisher: Fingerprint) {
    publisher in t.registry && !t.registry[publisher].revoked
  }

  predicate Authentic(t: Trust, a: SignedAnnounce) {
    a.publisher in t.registry && t.verify(Signable(a), a.signature, t.registry[a.publisher].publicKey)
  }

  predicate WouldAccept(t: Trust, retained: Retained, publisher: Fingerprint, modName: string, version: uint64) {
    if !IsUsable(t, publisher) then false
    else if Identifier(publisher, modName) !in retained then |retained| < MAXIMUM_RETAINED
    else version > retained[Identifier(publisher, modName)].version
  }

  datatype Outcome = Outcome(retained: Retained, result: Result<SignedAnnounce, Rejection>)

  /** The verdict on a decoded announce. */
  function Judged(t: Trust, retained: Retained, a: SignedAnnounce): Outcome {
    if a.publisher !in t.registry then Outcome(retained, Err(UnknownPublisher))
    else if t.registry[a.publisher].revoked then Outcome(retained, Err(RevokedPublisher))
    else if !t.ready then Outcome(retained, Err(SignatureInvalid))
    else if !Authentic(t, a) then Outcome(retained, Err(SignatureInvalid))
    else
      var id := IdentifierOf(a);
      if id in retained && retained[id].version >= a.version then Outcome(retained, Err(NotNewer))
      else if id !in retained && |retained| >= MAXIMUM_RETAINED then Outcome(retained, Err(NotNewer))
      else Outcome(retained[id := a], Ok(a))
  }

  function Accepted(t: Trust, retained: Retained, record: seq<byte>): Outcome {
    match Decoded(record)
    case Err(_) => Outcome(retained, Err(Malformed))
    case Ok(a) => Judged(t, retained, a)
  }

  function RecordFor(retained: Retained, publisher: Fingerprint, modName: string): Option<seq<byte>> {
    var id := Identifier(publisher, modName);
    if id in retained then Some(Encoded(retained[id])) else None
  }

  class AnnounceReceiver {
    const trust: Trust
    var retained: Retained
    var rejected: nat

    constructor (trust: Trust)
      ensures this.trust == trust && retained == map[] && rejected == 0
    {
      this.trust := trust;
      retained, rejected := map[], 0;
    }

    method Accept(record: seq<byte>) returns (r: Result<SignedAnnounce, Rejection>)
      modifies this
      ensures Outcome(retained, r) == Accepted(trust, old(retained), record)
      ensures rejected == old(rejected) + if r.Err? then 1 else 0
    {
      var decoded := Decode(record);
      if decoded.Err? {
        rejected := rejected + 1;
        return Err(Malformed);
      }
      var a := decoded.value;
      if a.publisher !in trust.registry {
        rejected := rejected + 1;
        return Err(UnknownPublisher);
      }
      var key := trust.registry[a.publisher];
      if key.revoked {
        rejected := rejected + 1;
        return Err(RevokedPublisher);
      }
      if !trust.ready {
        rejected := rejected + 1;
        return Err(SignatureInvalid);
      }
      var signable := EncodeSignable(a);
      if !trust.verify(signable[..], a.signature, key.publicKey) {
        rejected := rejected + 1;
        return Err(SignatureInvalid);
      }
      var id := IdentifierOf(a);
      if id in retained && retained[id].version >= a.version {
        rejected := rejected + 1;
        return Err(NotNewer);
      }
      if id !in retained && |retained| >= MAXIMUM_RETAINED {
        rejected := rejected + 1;
        return Err(NotNewer);
      }
      retained := retained[id := a];
      return Ok(a);
    }

    /** Stored records go through the same gate. */
    method Restore(records: seq<seq<byte>>) returns (restored: nat)
      modifies this
      ensures retained == AcceptedAll(trust, old(retained), records)
      ensures restored == AcceptedCount(trust, old(retained), records)
      ensures restored + rejected == old(rejected) + |records|
    {
      restored := 0;
      for i := 0 to |records|
        invariant AcceptedAll(trust, old(retained), records) == AcceptedAll(trust, retained, records[i..])
        invariant AcceptedCount(trust, old(retained), records) == restored + AcceptedCount(trust, retained, records[i..])
        invariant restored + rejected == old(rejected) + i
      {
        assert records[i..][1..] == records[i + 1..];
        var r := Accept(records[i]);
        if r.Ok? {
          restored := restored + 1;
        }
      }
    }
  }

  function AcceptedAll(t: Trust, retained: Retained, records: seq<seq<byte>>): Retained
    decreases records
  {
    if records == [] then retained else AcceptedAll(t, Accepted(t, retained, records[0]).retained, records[1..])
  }

  /** How many of the records are accepted, each judged against the table the earlier ones left. */
  function AcceptedCount(t: Trust, retained: Retained, records: seq<seq<byte>>): nat
    decreases records
  {
    if records == [] then 0
    else
      var first := Accepted(t, retained, records[0]);
      (if first.result.Ok? then 1 else 0) + AcceptedCount(t, first.retained, records[1..])
  }

  // ---- What acceptance means

  /** Accepted exactly when the record decodes, is authentic and would have been asked for. */
  lemma AcceptedExactly(t: Trust, retained: Retained, record: seq<byte>)
    ensures
      Accepted(t, retained, record).result.Ok? <==>
        && Decoded(record).Ok?
        && t.ready
        && Authentic(t, Decoded(record).value)
        && WouldAccept(t, retained, Decoded(record).value.publisher, Decoded(record).value.modName, Decoded(record).value.version)
  {
  }

  function VersionOf(retained: Retained, id: string): int {
    if id in retained then retained[id].version else -1
  }

  /** What every retained table keeps under a fixed registry. */
  ghost predicate SoundTable(t: Trust, retained: Retained) {
    && |retained| <= 4096
    && forall id :: id in retained ==> SoundEntry(t, id, retained[id])
  }

  ghost predicate SoundEntry(t: Trust, id: string, a: SignedAnnounce) {
    && id == IdentifierOf(a)
    && AcceptableName(a.modName)
    && IsUsable(t, a.publisher)
    && Authentic(t, a)
  }

  lemma JudgedChange(t: Trust, retained: Retained, a: SignedAnnounce)
    requires AcceptableName(a.modName)
    ensures
      var r := Judged(t, retained, a);
      match r.result
      case Err(_) => r.retained == retained
      case Ok(accepted) => accepted == a && Entered(t, retained, a, r.retained)
  {
  }

  /** One authentic, newer entry was written. */
  ghost predicate Entered(t: Trust, before: Retained, a: SignedAnnounce, after: Retained) {
    && SoundEntry(t, IdentifierOf(a), a)
    && after == before[IdentifierOf(a) := a]
    && a.version > VersionOf(before, IdentifierOf(a))
    && (IdentifierOf(a) in before || |before| < MAXIMUM_RETAINED)
  }

  lemma DecodedNameAcceptable(record: seq<byte>)
    requires Decoded(record).Ok?
    ensures AcceptableName(Decoded(record).value.modName)
  {
  }

  /** Acceptance writes one authentic, newer entry; a refusal writes nothing. */
  lemma AcceptedChange(t: Trust, retained: Retained, record: seq<byte>)
    ensures
      var r := Accepted(t, retained, record);
      match r.result
      case Err(_) => r.retained == retained
      case Ok(a) => Decoded(record) == Ok(a) && Entered(t, retained, a, r.retained)
  {
    if Decoded(record).Ok? {
      DecodedNameAcceptable(record);
      JudgedChange(t, retained, Decoded(record).value);
    }
  }

  lemma UpdatedSize(before: Retained, id: string, a: SignedAnnounce)
    ensures |before[id := a]| == |before| + if id in before then 0 else 1
  {
    var after := before[id := a];
    assert after.Keys == before.Keys + {id};
    assert |after| == |after.Keys| && |before| == |before.Keys|;
  }

  lemma EnteredSound(t: Trust, before: Retained, a: SignedAnnounce, after: Retained)
    requires SoundTable(t, before) && Entered(t, before, a, after)
    ensures SoundTable(t, after)
  {
    UpdatedSize(before, IdentifierOf(a), a);
    forall id | id in after
      ensures SoundEntry(t, id, after[id])
    {
      if id != IdentifierOf(a) {
        assert id in before && after[id] == before[id];
        assert SoundEntry(t, id, before[id]);
      }
    }
  }

  lemma EnteredNewer(t: Trust, before: Retained, a: SignedAnnounce, after: Retained)
    requires Entered(t, before, a, after)
    ensures forall id :: VersionOf(after, id) >= VersionOf(before, id)
  {
  }

  lemma AcceptedSound(t: Trust, retained: Retained, record: seq<byte>)
    requires SoundTable(t, retained)
    ensures SoundTable(t, Accepted(t, retained, record).retained)
    ensures forall id :: VersionOf(Accepted(t, retained, record).retained, id) >= VersionOf(retained, id)
  {
    AcceptedChange(t, retained, record);
    var r := Accepted(t, retained, record);
    if r.result.Ok? {
      EnteredSound(t, retained, r.result.value, r.retained);
      EnteredNewer(t, retained, r.result.value, r.retained);
    }
  }

  /** Restoring from disk, whatever the files hold, gives a sound table. */
  lemma {:induction false} RestoredSound(t: Trust, retained: Retained, records: seq<seq<byte>>)
    requires SoundTable(t, retained)
    ensures SoundTable(t, AcceptedAll(t, retained, records))
    ensures forall id :: VersionOf(AcceptedAll(t, retained, records), id) >= VersionOf(retained, id)
    decreases records
  {
    if records != [] {
      AcceptedSound(t, retained, records[0]);
      RestoredSound(t, Accepted(t, retained, records[0]).retained, records[1..]);
    }
  }

  /** A retained announce is served as a record that decodes to itself. */
  lemma ServedRecordDecodes(t: Trust, retained: Retained, id: string)
    requires SoundTable(t, retained) && id in retained
    ensures
      var a := retained[id];
      RecordFor(retained, a.publisher, a.modName) == Some(Encoded(a)) && Decoded(Encoded(a)) == Ok(a)
  {
    AnnounceRoundTrip(retained[id]);
  }
}
