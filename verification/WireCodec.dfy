/** Gossip messages between peers: offers, wants, records and asks. */
module WireCodec {
  import opened Sequences
  import opened Wrappers
  import opened Bytes
  import opened Announces
  import opened AnnounceCodec

  datatype MessageKind = Offer | Want | Record | Ask

  const FINGERPRINT_BYTES: nat := 8
  const VERSION_BYTES: nat := 8
  const MAXIMUM_ENTRIES: nat := 64
  const MAXIMUM_MESSAGE_BYTES: nat := 8192
  const HEADER_BYTES: nat := 1
  const COUNT_BYTES: nat := 2

  function KindByte(kind: MessageKind): byte {
    match kind
    case Offer => 1
    case Want => 2
    case Record => 3
    case Ask => 4
  }

  function MessageOf(message: seq<byte>): Option<MessageKind> {
    if message == [] || |message| > MAXIMUM_MESSAGE_BYTES then None
    else if message[0] == 1 then Some(Offer)
    else if message[0] == 2 then Some(Want)
    else if message[0] == 3 then Some(Record)
    else if message[0] == 4 then Some(Ask)
    else None
  }

  // ---- Entries

  function EntryBytes(withVersion: bool): nat {
    FINGERPRINT_BYTES + MOD_NAME_BYTES + if withVersion then VERSION_BYTES else 0
  }

  function EncodedEntry(s: AnnounceSummary, withVersion: bool): (r: seq<byte>)
    ensures |r| == EntryBytes(withVersion)
  {
    s.publisher + PaddedName(s.modName) + if withVersion then LittleEndian(s.version, VERSION_BYTES) else []
  }

  function EncodedEntries(summaries: seq<AnnounceSummary>, withVersion: bool): (r: seq<byte>)
    ensures |r| == |summaries| * EntryBytes(withVersion)
  {
    if summaries == [] then []
    else
      EntryFits(|summaries|, EntryBytes(withVersion), |summaries| * EntryBytes(withVersion));
      EncodedEntry(summaries[0], withVersion) + EncodedEntries(summaries[1..], withVersion)
  }

  function DecodedEntry(entry: seq<byte>, withVersion: bool): Option<AnnounceSummary>
    requires |entry| == EntryBytes(withVersion)
  {
    var name := NameIn(entry[FINGERPRINT_BYTES..FINGERPRINT_BYTES + MOD_NAME_BYTES]);
    if !AcceptableName(name) then None
    else if withVersion then
      Version64(entry[FINGERPRINT_BYTES + MOD_NAME_BYTES..]);
      Some(AnnounceSummary(entry[..FINGERPRINT_BYTES], name, FromLittleEndian(entry[FINGERPRINT_BYTES + MOD_NAME_BYTES..])))
    else Some(AnnounceSummary(entry[..FINGERPRINT_BYTES], name, 0))
  }

  function DecodedEntries(body: seq<byte>, count: nat, withVersion: bool): Option<seq<AnnounceSummary>>
    requires |body| == count * EntryBytes(withVersion)
    decreases count
  {
    if count == 0 then Some([])
    else
      EntryFits(count, EntryBytes(withVersion), |body|);
      match DecodedEntry(body[..EntryBytes(withVersion)], withVersion)
      case None => None
      case Some(first) =>
        match DecodedEntries(body[EntryBytes(withVersion)..], count - 1, withVersion)
        case None => None
        case Some(rest) => Some([first] + rest)
  }

  // ---- Whole messages

  function Capped(summaries: seq<AnnounceSummary>): (r: seq<AnnounceSummary>)
    ensures |r| == if |summaries| < MAXIMUM_ENTRIES then |summaries| else MAXIMUM_ENTRIES
    ensures r <= summaries
  {
    if |summaries| < MAXIMUM_ENTRIES then summaries else summaries[..MAXIMUM_ENTRIES]
  }

  function EncodedList(kind: MessageKind, summaries: seq<AnnounceSummary>, withVersion: bool): seq<byte> {
    var sent := Capped(summaries);
    [KindByte(kind), (|sent| % 256) as byte, (|sent| / 256 % 256) as byte] + EncodedEntries(sent, withVersion)
  }

  function DecodedList(message: seq<byte>, kind: MessageKind, withVersion: bool): Option<seq<AnnounceSummary>> {
    if MessageOf(message) != Some(kind) then None
    else if |message| < HEADER_BYTES + COUNT_BYTES then None
    else
      var count := message[1] as nat + 256 * (message[2] as nat);
      if count > MAXIMUM_ENTRIES then None
      else if |message| != HEADER_BYTES + COUNT_BYTES + count * EntryBytes(withVersion) then None
      else DecodedEntries(message[3..], count, withVersion)
  }

  function EncodedOffer(summaries: seq<AnnounceSummary>): seq<byte> {
    EncodedList(Offer, summaries, true)
  }

  function EncodedWant(summaries: seq<AnnounceSummary>): seq<byte> {
    EncodedList(Want, summaries, false)
  }

  function DecodedOffer(message: seq<byte>): Option<seq<AnnounceSummary>> {
    DecodedList(message, Offer, true)
  }

  function DecodedWant(message: seq<byte>): Option<seq<AnnounceSummary>> {
    DecodedList(message, Want, false)
  }

  function EncodedRecord(record: seq<byte>): seq<byte> {
    if |record| != RECORD_BYTES then [] else [KindByte(Record)] + record
  }

  function DecodedRecord(message: seq<byte>): Option<seq<byte>> {
    if MessageOf(message) != Some(Record) then None
    else if |message| != HEADER_BYTES + RECORD_BYTES then None
    else Some(message[1..])
  }

  /** Who and what a raw record is about, read without checking the rest of it. */
  function SummaryOf(record: seq<byte>): Option<AnnounceSummary> {
    if |record| != RECORD_BYTES then None
    else
      var name := NameIn(NameField(record));
      if !AcceptableName(name) then None
      else Some(AnnounceSummary(record[FINGERPRINT_OFFSET..MOD_NAME_OFFSET], name, VersionField(record)))
  }

  // ---- The loops of the source

  method AppendEntry(message: seq<byte>, summary: AnnounceSummary, withVersion: bool) returns (longer: seq<byte>)
    ensures longer == message + EncodedEntry(summary, withVersion)
  {
    longer := message + summary.publisher;
    longer := longer + PaddedName(summary.modName);
    if withVersion {
      var version := LittleEndianBytes(summary.version, VERSION_BYTES);
      longer := longer + version;
    }
  }

  method EncodeList(kind: MessageKind, summaries: seq<AnnounceSummary>, withVersion: bool) returns (message: seq<byte>)
    ensures message == EncodedList(kind, summaries, withVersion)
  {
    var count := if |summaries| < MAXIMUM_ENTRIES then |summaries| else MAXIMUM_ENTRIES;
    message := [KindByte(kind), (count % 256) as byte, (count / 256 % 256) as byte];
    ghost var sent := Capped(summaries);
    for index := 0 to count
      invariant EncodedList(kind, summaries, withVersion) == message + EncodedEntries(sent[index..], withVersion)
    {
      assert sent[index] == summaries[index] && sent[index..][1..] == sent[index + 1..];
      Regroup(message, EncodedEntry(summaries[index], withVersion), EncodedEntries(sent[index + 1..], withVersion));
      message := AppendEntry(message, summaries[index], withVersion);
    }
    assert message + EncodedEntries([], withVersion) == message;
  }

  method DecodeEntries(message: seq<byte>, kind: MessageKind, withVersion: bool) returns (r: Option<seq<AnnounceSummary>>)
    ensures r == DecodedList(message, kind, withVersion)
  {
    if MessageOf(message) != Some(kind) {
      return None;
    }
    if |message| < HEADER_BYTES + COUNT_BYTES {
      return None;
    }
    var count := message[1] as nat + 256 * (message[2] as nat);
    if count > MAXIMUM_ENTRIES {
      return None;
    }
    var size := EntryBytes(withVersion);
    if |message| != HEADER_BYTES + COUNT_BYTES + count * size {
      return None;
    }
    var body := message[3..];
    var summaries: seq<AnnounceSummary> := [];
    BehindNothing(DecodedEntries(body, count, withVersion));
    for index := 0 to count
      invariant |body| == (count - index) * size
      invariant DecodedEntries(message[3..], count, withVersion) == Behind(summaries, DecodedEntries(body, count - index, withVersion))
    {
      EntryFits(count - index, size, |body|);
      var entry := body[..size];
      var name := ReadName(entry[FINGERPRINT_BYTES..FINGERPRINT_BYTES + MOD_NAME_BYTES]);
      if !AcceptableName(name) {
        return None;
      }
      var version: nat := 0;
      if withVersion {
        version := ReadLittleEndian(entry[FINGERPRINT_BYTES + MOD_NAME_BYTES..]);
        Version64(entry[FINGERPRINT_BYTES + MOD_NAME_BYTES..]);
      }
      var summary := AnnounceSummary(entry[..FINGERPRINT_BYTES], name, version);
      assert DecodedEntry(entry, withVersion) == Some(summary);
      BehindTwice(summaries, summary, DecodedEntries(body[size..], count - index - 1, withVersion));
      summaries := summaries + [summary];
      body := body[size..];
    }
    assert summaries + [] == summaries;
    return Some(summaries);
  }

  lemma EntryFits(count: nat, size: nat, length: nat)
    requires count > 0 && length == count * size
    ensures size <= length && length - size == (count - 1) * size
  {
    assert count * size == (count - 1) * size + size;
  }

  /** Entries already read, in front of the outcome of the rest. */
  function Behind(read: seq<AnnounceSummary>, rest: Option<seq<AnnounceSummary>>): Option<seq<AnnounceSummary>> {
    match rest
    case None => None
    case Some(summaries) => Some(read + summaries)
  }

  lemma BehindNothing(rest: Option<seq<AnnounceSummary>>)
    ensures Behind([], rest) == rest
  {
    if rest.Some? {
      assert [] + rest.value == rest.value;
    }
  }

  lemma BehindTwice(read: seq<AnnounceSummary>, one: AnnounceSummary, rest: Option<seq<AnnounceSummary>>)
    ensures Behind(read, Behind([one], rest)) == Behind(read + [one], rest)
  {
    if rest.Some? {
      assert read + ([one] + rest.value) == read + [one] + rest.value;
    }
  }

  // ---- Round trips

  predicate AllAcceptable(summaries: seq<AnnounceSummary>) {
    forall i :: 0 <= i < |summaries| ==> AcceptableName(summaries[i].modName)
  }

  function WithoutVersion(s: AnnounceSummary): AnnounceSummary {
    s.(version := 0)
  }

  function Carried(summaries: seq<AnnounceSummary>, withVersion: bool): (r: seq<AnnounceSummary>)
    ensures |r| == |summaries|
    ensures withVersion ==> r == summaries
  {
    seq(|summaries|, i requires 0 <= i < |summaries| => if withVersion then summaries[i] else WithoutVersion(summaries[i]))
  }

  lemma EntryRoundTrip(s: AnnounceSummary, withVersion: bool)
    requires AcceptableName(s.modName)
    ensures DecodedEntry(EncodedEntry(s, withVersion), withVersion) == Some(if withVersion then s else WithoutVersion(s))
  {
    var entry := EncodedEntry(s, withVersion);
    assert entry[..FINGERPRINT_BYTES] == s.publisher;
    assert entry[FINGERPRINT_BYTES..FINGERPRINT_BYTES + MOD_NAME_BYTES] == PaddedName(s.modName);
    NameRoundTrip(s.modName);
    if withVersion {
      assert entry[FINGERPRINT_BYTES + MOD_NAME_BYTES..] == LittleEndian(s.version, VERSION_BYTES);
      Version64Back(s.version);
    }
  }

  lemma {:induction false} EntriesRoundTrip(summaries: seq<AnnounceSummary>, withVersion: bool)
    requires AllAcceptable(summaries)
    ensures DecodedEntries(EncodedEntries(summaries, withVersion), |summaries|, withVersion) == Some(Carried(summaries, withVersion))
  {
    if summaries != [] {
      var first := EncodedEntry(summaries[0], withVersion);
      Peel(first, EncodedEntries(summaries[1..], withVersion));
      EntryRoundTrip(summaries[0], withVersion);
      EntriesRoundTrip(summaries[1..], withVersion);
      assert Carried(summaries, withVersion)
          == [if withVersion then summaries[0] else WithoutVersion(summaries[0])] + Carried(summaries[1..], withVersion);
    }
  }

  lemma EntriesFit(count: nat, withVersion: bool)
    requires count <= MAXIMUM_ENTRIES
    ensures count * EntryBytes(withVersion) <= 64 * 80
  {
    if withVersion {
      assert count * 80 <= 64 * 80;
    } else {
      assert count * 72 <= 64 * 72;
    }
  }

  lemma HeaderReadBack(kind: byte, count: nat, entries: seq<byte>, message: seq<byte>)
    requires count <= MAXIMUM_ENTRIES
    requires message == [kind, (count % 256) as byte, (count / 256 % 256) as byte] + entries
    ensures |message| == HEADER_BYTES + COUNT_BYTES + |entries| && message[3..] == entries
    ensures message[0] == kind && message[1] as nat + 256 * (message[2] as nat) == count
  {
  }

  lemma DecodedBehindHeader(message: seq<byte>, kind: MessageKind, withVersion: bool, count: nat, entries: seq<byte>)
    requires |message| == HEADER_BYTES + COUNT_BYTES + |entries| && message[3..] == entries && MessageOf(message) == Some(kind)
    requires message[1] as nat + 256 * (message[2] as nat) == count <= MAXIMUM_ENTRIES
    requires |entries| == count * EntryBytes(withVersion)
    ensures DecodedList(message, kind, withVersion) == DecodedEntries(entries, count, withVersion)
  {
  }

  /** A peer reads back the first 64 entries sent to it, within the message limit. */
  lemma ListRoundTrip(kind: MessageKind, summaries: seq<AnnounceSummary>, withVersion: bool)
    requires AllAcceptable(Capped(summaries))
    ensures DecodedList(EncodedList(kind, summaries, withVersion), kind, withVersion) == Some(Carried(Capped(summaries), withVersion))
    ensures |EncodedList(kind, summaries, withVersion)| < MAXIMUM_MESSAGE_BYTES
  {
    var sent := Capped(summaries);
    var entries, message := EncodedEntries(sent, withVersion), EncodedList(kind, summaries, withVersion);
    HeaderReadBack(KindByte(kind), |sent|, entries, message);
    DecodedBehindHeader(message, kind, withVersion, |sent|, entries);
    EntriesFit(|sent|, withVersion);
    EntriesRoundTrip(sent, withVersion);
  }

  lemma OfferRoundTrip(summaries: seq<AnnounceSummary>)
    requires AllAcceptable(Capped(summaries))
    ensures DecodedOffer(EncodedOffer(summaries)) == Some(Capped(summaries))
    ensures |EncodedOffer(summaries)| < MAXIMUM_MESSAGE_BYTES
  {
    ListRoundTrip(Offer, summaries, true);
  }

  lemma RecordRoundTrip(record: seq<byte>)
    ensures DecodedRecord(EncodedRecord(record)) == Some(record) <==> |record| == RECORD_BYTES
  {
    if |record| == RECORD_BYTES {
      assert EncodedRecord(record)[1..] == record;
    }
  }

  /** The summary read off a record agrees with its full decoding whenever that succeeds. */
  lemma SummaryAgreesWithDecoding(record: seq<byte>)
    requires Decoded(record).Ok?
    ensures
      var a := Decoded(record).value;
      SummaryOf(record) == Some(AnnounceSummary(a.publisher, a.modName, a.version))
  {
  }
}
