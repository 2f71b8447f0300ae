/** The bytes on the wire, position by position, with the numbers the protocol fixes. */
module WireLayout {
  import opened Wrappers
  import opened Bytes
  import opened Announces
  import opened AnnounceCodec
  import opened WireCodec

  // ---- Numbers and names

  /** Byte i of a number is its digit of weight 256 to the i. */
  lemma {:induction false} LittleEndianMeaning(value: nat, count: nat, i: nat)
    requires i < count
    ensures Power256(i) > 0 && LittleEndian(value, count)[i] as nat == value / Power256(i) % 256
    decreases i
  {
    if i > 0 {
      LittleEndianMeaning(value / 256, count - 1, i - 1);
      assert LittleEndian(value, count)[1..] == LittleEndian(value / 256, count - 1);
      DivideTwice(value, Power256(i - 1));
    }
  }

  lemma DivideTwice(value: nat, b: nat)
    requires b > 0
    ensures value / 256 / b == value / (256 * b)
  {
    var q := value / 256;
    var low := q / b;
    var rest := 256 * (q % b) + value % 256;
    assert value == 256 * (b * low + q % b) + value % 256;
    Regrouped(b, low, q % b, value % 256);
    UniqueQuotient(value, 256 * b, low, rest);
  }

  lemma Regrouped(b: nat, low: nat, middle: nat, bottom: nat)
    ensures 256 * (b * low + middle) + bottom == (256 * b) * low + (256 * middle + bottom)
  {
  }

  lemma UniqueQuotient(value: nat, d: nat, q: nat, r: nat)
    requires d > 0 && value == d * q + r && r < d
    ensures value / d == q
  {
    var other := value / d;
    var difference := other - q;
    assert d * difference == r - value % d by {
      assert d * difference == d * other - d * q;
    }
    SmallMultiple(d, difference);
  }

  lemma SmallMultiple(d: nat, k: int)
    requires 0 - d < d * k < d
    ensures k == 0
  {
    if k > 0 {
      Product(d, k - 1);
    } else if k < 0 {
      Product(d, -1 - k);
    }
  }

  lemma Product(d: nat, k: nat)
    ensures d * k >= 0 && d * (k + 1) == d * k + d && d * (-1 - k) == 0 - d * k - d
  {
  }

  /** A name fills its field from the left and zeros fill the rest; at most 64 characters are carried. */
  lemma PaddedNameMeaning(name: string, k: nat)
    requires k < 64
    ensures |PaddedName(name)| == 64
    ensures PaddedName(name)[k] == if k < |name| then (name[k] as int % 256) as byte else 0
  {
  }

  /** Two digits for each byte, the high one first. */
  lemma {:induction false} HexMeaning(bytes: seq<byte>, i: nat)
    requires i < |bytes|
    ensures
      var text := ToHex(bytes);
      text[2 * i] == "0123456789abcdef"[bytes[i] as int / 16] && text[2 * i + 1] == "0123456789abcdef"[bytes[i] as int % 16]
    decreases bytes
  {
    if i > 0 {
      HexMeaning(bytes[1..], i - 1);
      assert ToHex(bytes)[2..] == ToHex(bytes[1..]);
    }
  }

  // ---- The signed record

  /** Where everything stands in the 220 bytes, the first 156 of which are signed. */
  lemma RecordLayout(a: SignedAnnounce)
    ensures
      var r := Encoded(a);
      && |r| == 220 && Signable(a) == r[..156]
      && r[..8] == [87, 71, 82, 68, 65, 78, 78, 67]
      && r[8..12] == [1, 0, 0, 0]
      && r[12..20] == a.publisher
      && r[20..84] == PaddedName(a.modName)
      && r[84..92] == LittleEndian(a.version, 8)
      && r[92..124] == a.manifestDigest
      && r[124..156] == a.torrentInfoHash
      && r[156..] == a.signature
  {
    EncodedFields(a);
    FormatBytes();
  }

  lemma FormatBytes()
    ensures LittleEndian(FORMAT_VERSION, 4) == [1, 0, 0, 0]
  {
    var f := LittleEndian(1, 4);
    assert f[1..] == LittleEndian(0, 3) && f[1..][1..] == LittleEndian(0, 2) && f[1..][1..][1..] == LittleEndian(0, 1);
  }

  // ---- Messages

  /** The first byte tells the kind; nothing empty or over 8192 bytes, and no other first byte, is a message. */
  lemma MessageMeaning(message: seq<byte>)
    ensures
      match MessageOf(message)
      case None => message == [] || |message| > 8192 || message[0] == 0 || message[0] > 4
      case Some(kind) =>
        && 0 < |message| <= 8192
        && message[0] == match kind case Offer => 1 case Want => 2 case Record => 3 case Ask => 4
  {
  }

  /** An entry: the publisher, the name and, in offers, the version. */
  lemma EntryLayout(s: AnnounceSummary)
    ensures
      var offered, wanted := EncodedEntry(s, true), EncodedEntry(s, false);
      && |offered| == 80 && |wanted| == 72
      && offered[..72] == wanted
      && wanted[..8] == s.publisher && wanted[8..] == PaddedName(s.modName)
      && offered[72..] == LittleEndian(s.version, 8)
  {
  }

  lemma {:induction false} EntriesApart(summaries: seq<AnnounceSummary>, withVersion: bool, k: nat)
    requires k < |summaries|
    ensures EncodedEntries(summaries, withVersion)
         == EncodedEntries(summaries[..k], withVersion) + EncodedEntry(summaries[k], withVersion)
          + EncodedEntries(summaries[k + 1..], withVersion)
    decreases k
  {
    if k > 0 {
      EntriesApart(summaries[1..], withVersion, k - 1);
      assert summaries[1..][..k - 1] == summaries[..k][1..];
      assert summaries[1..][k..] == summaries[k + 1..];
    }
  }

  /**
   * An offer or a want: its kind, the number of entries in two bytes, low one first, and the first 64 entries
   * in order, so that entry k stands behind k entries of 80 bytes in an offer and of 72 in a want.
   */
  lemma ListLayout(summaries: seq<AnnounceSummary>, offering: bool, k: nat)
    requires k < |summaries| && k < 64
    ensures
      var message := if offering then EncodedOffer(summaries) else EncodedWant(summaries);
      var sent := if |summaries| < 64 then summaries else summaries[..64];
      var before := EncodedEntries(sent[..k], offering);
      && message == [if offering then 1 else 2, |sent| as byte, 0]
                  + (before + EncodedEntry(summaries[k], offering) + EncodedEntries(sent[k + 1..], offering))
      && |before| == (if offering then 80 * k else 72 * k)
      && |message| == 3 + if offering then 80 * |sent| else 72 * |sent|
  {
    CappedMeaning(summaries);
    var sent := Capped(summaries);
    HeaderLayout(if offering then Offer else Want, summaries, offering);
    EntriesApart(sent, offering, k);
    EntriesSize(sent, offering);
    EntriesSize(sent[..k], offering);
  }

  lemma CappedMeaning(summaries: seq<AnnounceSummary>)
    ensures Capped(summaries) == if |summaries| < 64 then summaries else summaries[..64]
  {
  }

  lemma HeaderLayout(kind: MessageKind, summaries: seq<AnnounceSummary>, withVersion: bool)
    ensures
      var sent := Capped(summaries);
      |sent| <= 64 && EncodedList(kind, summaries, withVersion)
        == [KindByte(kind), |sent| as byte, 0] + EncodedEntries(sent, withVersion)
  {
  }

  lemma EntriesSize(summaries: seq<AnnounceSummary>, withVersion: bool)
    ensures |EncodedEntries(summaries, withVersion)| == if withVersion then 80 * |summaries| else 72 * |summaries|
  {
  }

  // ---- What is read back, in full

  /** One to 64 characters with the codes of letters, digits, the underscore or the hyphen. */
  predicate GoodName(name: string) {
    && 0 < |name| <= 64
    && forall i :: 0 <= i < |name| ==>
      var code := name[i] as int;
      65 <= code <= 90 || 97 <= code <= 122 || 48 <= code <= 57 || code == 95 || code == 45
  }

  lemma AcceptableNameExactly(name: string)
    ensures AcceptableName(name) <==> GoodName(name)
  {
  }

  /** A field holds a name: its characters from the left, then the end of the field or a zero. */
  predicate HoldsName(field: seq<byte>, name: string) {
    && |name| <= |field|
    && (forall i :: 0 <= i < |name| ==> name[i] as int == field[i] as int != 0)
    && (|name| < |field| ==> field[|name|] == 0)
  }

  lemma {:induction false} NameInExactly(field: seq<byte>, name: string)
    ensures name == NameIn(field) <==> HoldsName(field, name)
    decreases field
  {
    if field != [] && field[0] != 0 && name != [] {
      NameInExactly(field[1..], name[1..]);
      HoldsNameStep(field, name);
      assert name == [name[0]] + name[1..];
    }
  }

  lemma HoldsNameStep(field: seq<byte>, name: string)
    requires field != [] && name != []
    ensures HoldsName(field, name) <==> name[0] as int == field[0] as int != 0 && HoldsName(field[1..], name[1..])
  {
    forall i | 0 < i < |name| && i < |field|
      ensures name[i] == name[1..][i - 1] && field[i] == field[1..][i - 1]
    {
    }
  }

  /** Good and held by the field. */
  predicate NamedBy(field: seq<byte>, name: string) {
    HoldsName(field, name) && GoodName(name)
  }

  lemma NamedByExactly(field: seq<byte>, name: string)
    ensures NamedBy(field, name) <==> name == NameIn(field) && AcceptableName(name)
  {
    NameInExactly(field, name);
    AcceptableNameExactly(name);
  }

  lemma NumberExactly(bytes: seq<byte>, value: uint64)
    requires |bytes| == 8
    ensures bytes == LittleEndian(value, 8) <==> value == FromLittleEndian(bytes)
  {
    Version64(bytes);
    Version64Back(value);
  }

  /** What the 220 bytes say of an announce. */
  predicate ReadsAs(record: seq<byte>, a: SignedAnnounce) {
    && |record| == 220
    && record[..8] == [87, 71, 82, 68, 65, 78, 78, 67]
    && record[8..12] == [1, 0, 0, 0]
    && record[12..20] == a.publisher
    && NamedBy(record[20..84], a.modName)
    && record[84..92] == LittleEndian(a.version, 8)
    && record[92..124] == a.manifestDigest
    && record[124..156] == a.torrentInfoHash
    && record[156..] == a.signature
  }

  lemma FormatExactly(bytes: seq<byte>)
    requires |bytes| == 4
    ensures FromLittleEndian(bytes) == FORMAT_VERSION <==> bytes == [1, 0, 0, 0]
  {
    FormatBytes();
    FromLittleEndianRoundTrip(bytes);
    assert Power256(4) == 0x1_0000_0000;
    LittleEndianRoundTrip(FORMAT_VERSION, 4);
  }

  /** A record decodes to an announce exactly when its bytes read as that announce. */
  lemma DecodedExactly(record: seq<byte>, a: SignedAnnounce)
    ensures Decoded(record) == Ok(a) <==> ReadsAs(record, a)
  {
    if |record| == 220 {
      FormatExactly(record[8..12]);
      NamedByExactly(record[20..84], a.modName);
      NumberExactly(record[84..92], a.version);
    }
  }

  /** The summary reads the publisher, the name and the version, whatever else the record holds. */
  lemma SummaryExactly(record: seq<byte>, s: AnnounceSummary)
    ensures SummaryOf(record) == Some(s) <==>
      && |record| == 220
      && record[12..20] == s.publisher
      && NamedBy(record[20..84], s.modName)
      && record[84..92] == LittleEndian(s.version, 8)
  {
    if |record| == 220 {
      NamedByExactly(record[20..84], s.modName);
      NumberExactly(record[84..92], s.version);
    }
  }

  predicate EntryReadsAs(entry: seq<byte>, offering: bool, s: AnnounceSummary) {
    && |entry| == (if offering then 80 else 72)
    && entry[..8] == s.publisher
    && NamedBy(entry[8..72], s.modName)
    && if offering then entry[72..] == LittleEndian(s.version, 8) else s.version == 0
  }

  lemma EntryExactly(entry: seq<byte>, offering: bool, s: AnnounceSummary)
    requires |entry| == EntryBytes(offering)
    ensures DecodedEntry(entry, offering) == Some(s) <==> EntryReadsAs(entry, offering, s)
  {
    NamedByExactly(entry[8..72], s.modName);
    if offering {
      NumberExactly(entry[72..], s.version);
    }
  }

  /** Where entry k begins. */
  function EntryAt(offering: bool, k: nat): nat {
    if offering then 80 * k else 72 * k
  }

  predicate EntriesReadAs(body: seq<byte>, offering: bool, summaries: seq<AnnounceSummary>) {
    && |body| == EntryAt(offering, |summaries|)
    && forall k {:trigger summaries[k]} :: 0 <= k < |summaries| ==>
      EntryReadsAs(body[EntryAt(offering, k)..EntryAt(offering, k + 1)], offering, summaries[k])
  }

  lemma {:induction false} EntriesExactly(body: seq<byte>, offering: bool, summaries: seq<AnnounceSummary>)
    requires |body| == |summaries| * EntryBytes(offering)
    ensures DecodedEntries(body, |summaries|, offering) == Some(summaries) <==> EntriesReadAs(body, offering, summaries)
    decreases summaries
  {
    if summaries != [] {
      var size := EntryBytes(offering);
      EntryFits(|summaries|, size, |body|);
      EntryExactly(body[..size], offering, summaries[0]);
      EntriesExactly(body[size..], offering, summaries[1..]);
      DecodedPeel(body, offering, summaries);
      EntriesPeel(body, offering, summaries);
    }
  }

  lemma DecodedPeel(body: seq<byte>, offering: bool, summaries: seq<AnnounceSummary>)
    requires summaries != [] && |body| == |summaries| * EntryBytes(offering)
    ensures
      var size, rest := EntryBytes(offering), |summaries| - 1;
      && size <= |body| && |body[size..]| == rest * size
      && (DecodedEntries(body, |summaries|, offering) == Some(summaries) <==>
          && DecodedEntry(body[..size], offering) == Some(summaries[0])
          && DecodedEntries(body[size..], rest, offering) == Some(summaries[1..]))
  {
    EntryFits(|summaries|, EntryBytes(offering), |body|);
    assert summaries == [summaries[0]] + summaries[1..];
  }

  lemma EntriesPeel(body: seq<byte>, offering: bool, summaries: seq<AnnounceSummary>)
    requires summaries != [] && |body| == EntryAt(offering, |summaries|)
    ensures
      var size := if offering then 80 else 72;
      EntriesReadAs(body, offering, summaries) <==>
        EntryReadsAs(body[..size], offering, summaries[0]) && EntriesReadAs(body[size..], offering, summaries[1..])
  {
    if EntriesReadAs(body, offering, summaries) {
      EntriesBehind(body, offering, summaries);
    }
    var size := if offering then 80 else 72;
    if EntryReadsAs(body[..size], offering, summaries[0]) && EntriesReadAs(body[size..], offering, summaries[1..]) {
      EntriesInFront(body, offering, summaries);
    }
  }

  lemma EntrySlice(body: seq<byte>, offering: bool, count: nat, k: nat)
    requires 0 < k < count && |body| == EntryAt(offering, count)
    ensures body[EntryAt(offering, k)..EntryAt(offering, k + 1)]
         == body[if offering then 80 else 72..][EntryAt(offering, k - 1)..EntryAt(offering, k)]
  {
    if offering {
      SliceBehind(body, 80, 80 * (k - 1), 80 * k);
    } else {
      SliceBehind(body, 72, 72 * (k - 1), 72 * k);
    }
  }

  lemma SliceBehind(body: seq<byte>, size: nat, from: nat, until: nat)
    requires from <= until && size + until <= |body|
    ensures body[size..][from..until] == body[size + from..size + until]
  {
  }

  lemma EntriesBehind(body: seq<byte>, offering: bool, summaries: seq<AnnounceSummary>)
    requires summaries != [] && EntriesReadAs(body, offering, summaries)
    ensures EntryReadsAs(body[..if offering then 80 else 72], offering, summaries[0])
    ensures EntriesReadAs(body[if offering then 80 else 72..], offering, summaries[1..])
  {
    assert EntryReadsAs(body[EntryAt(offering, 0)..EntryAt(offering, 1)], offering, summaries[0]);
    var size := if offering then 80 else 72;
    var rest := body[size..];
    assert |rest| == EntryAt(offering, |summaries| - 1);
    forall k | 0 <= k < |summaries[1..]|
      ensures EntryReadsAs(rest[EntryAt(offering, k)..EntryAt(offering, k + 1)], offering, summaries[1..][k])
    {
      EntrySlice(body, offering, |summaries|, k + 1);
      assert summaries[1..][k] == summaries[k + 1];
    }
  }

  lemma EntriesInFront(body: seq<byte>, offering: bool, summaries: seq<AnnounceSummary>)
    requires summaries != [] && |body| == EntryAt(offering, |summaries|)
    requires
      var size := if offering then 80 else 72;
      EntryReadsAs(body[..size], offering, summaries[0]) && EntriesReadAs(body[size..], offering, summaries[1..])
    ensures EntriesReadAs(body, offering, summaries)
  {
    forall k | 0 <= k < |summaries|
      ensures EntryReadsAs(body[EntryAt(offering, k)..EntryAt(offering, k + 1)], offering, summaries[k])
    {
      if k > 0 {
        EntrySlice(body, offering, |summaries|, k);
        assert summaries[1..][k - 1] == summaries[k];
      }
    }
  }

  /** What an offer or a want says: nothing is read from a message of another shape. */
  predicate ListReadsAs(message: seq<byte>, offering: bool, summaries: seq<AnnounceSummary>) {
    && |summaries| <= 64
    && |message| >= 3
    && message[..3] == [if offering then 1 else 2, |summaries| as byte, 0]
    && EntriesReadAs(message[3..], offering, summaries)
  }

  lemma {:induction false} DecodedCount(body: seq<byte>, count: nat, offering: bool)
    requires |body| == count * EntryBytes(offering)
    ensures
      match DecodedEntries(body, count, offering)
      case None => true
      case Some(summaries) => |summaries| == count
    decreases count
  {
    if count > 0 {
      EntryFits(count, EntryBytes(offering), |body|);
      DecodedCount(body[EntryBytes(offering)..], count - 1, offering);
    }
  }

  lemma CountExactly(message: seq<byte>, count: nat)
    requires |message| >= 3 && count <= 64
    ensures message[1] as nat + 256 * (message[2] as nat) == count <==> message[1] == count as byte && message[2] == 0
  {
  }

  lemma Counted(message: seq<byte>, kind: MessageKind, withVersion: bool)
    requires DecodedList(message, kind, withVersion).Some?
    ensures |message| >= 3 && MessageOf(message) == Some(kind)
    ensures
      var count := message[1] as nat + 256 * (message[2] as nat);
      && count <= 64 && |message[3..]| == count * EntryBytes(withVersion)
      && DecodedList(message, kind, withVersion) == DecodedEntries(message[3..], count, withVersion)
  {
  }

  /** A decoded list has the shape of a list: the counted entries and nothing else. */
  lemma ListShape(message: seq<byte>, offering: bool, summaries: seq<AnnounceSummary>)
    requires DecodedList(message, if offering then Offer else Want, offering) == Some(summaries)
    ensures |summaries| <= 64 && |message| == 3 + |summaries| * EntryBytes(offering)
    ensures message[..3] == [if offering then 1 else 2, |summaries| as byte, 0]
    ensures DecodedEntries(message[3..], |summaries|, offering) == Some(summaries)
  {
    Counted(message, if offering then Offer else Want, offering);
    var count := message[1] as nat + 256 * (message[2] as nat);
    DecodedCount(message[3..], count, offering);
    assert count == |summaries|;
    CountExactly(message, count);
    HeaderExactly(message, if offering then 1 else 2, count);
  }

  lemma HeaderExactly(message: seq<byte>, kind: byte, count: nat)
    requires |message| >= 3 && count <= 64
    requires message[0] == kind && message[1] == count as byte && message[2] == 0
    ensures message[..3] == [kind, count as byte, 0]
  {
  }

  lemma ShapedList(message: seq<byte>, offering: bool, summaries: seq<AnnounceSummary>)
    requires |summaries| <= 64 && |message| == 3 + |summaries| * EntryBytes(offering)
    requires message[..3] == [if offering then 1 else 2, |summaries| as byte, 0]
    ensures DecodedList(message, if offering then Offer else Want, offering) == DecodedEntries(message[3..], |summaries|, offering)
  {
    EntriesFit(|summaries|, offering);
    HeaderBytes(message, if offering then 1 else 2, |summaries|);
    DecodedBehindHeader(message, if offering then Offer else Want, offering, |summaries|, message[3..]);
  }

  lemma HeaderBytes(message: seq<byte>, kind: byte, count: nat)
    requires |message| >= 3 && count <= 64 && message[..3] == [kind, count as byte, 0]
    ensures message[0] == kind && message[1] as nat + 256 * (message[2] as nat) == count
  {
    assert message[0] == message[..3][0] && message[1] == message[..3][1] && message[2] == message[..3][2];
  }

  /** An offer or a want is read as a list exactly when its bytes say that list; no other message is. */
  lemma ListExactly(message: seq<byte>, offering: bool, summaries: seq<AnnounceSummary>)
    ensures DecodedList(message, if offering then Offer else Want, offering) == Some(summaries)
       <==> ListReadsAs(message, offering, summaries)
  {
    if DecodedList(message, if offering then Offer else Want, offering) == Some(summaries) {
      ListShape(message, offering, summaries);
      EntriesExactly(message[3..], offering, summaries);
    }
    if ListReadsAs(message, offering, summaries) {
      ShapedList(message, offering, summaries);
      EntriesExactly(message[3..], offering, summaries);
    }
  }

  /** An offer is 80 bytes an entry, a want 72, and each is read as its list. */
  lemma OfferAndWantExactly(message: seq<byte>, summaries: seq<AnnounceSummary>)
    ensures DecodedOffer(message) == Some(summaries) <==> ListReadsAs(message, true, summaries)
    ensures DecodedWant(message) == Some(summaries) <==> ListReadsAs(message, false, summaries)
  {
    ListExactly(message, true, summaries);
    ListExactly(message, false, summaries);
  }

  /** A record message is the kind and the 220 bytes; nothing is written for a record of another length. */
  lemma RecordMessageExactly(message: seq<byte>, record: seq<byte>)
    ensures DecodedRecord(message) == Some(record) <==> |record| == 220 && message == [3] + record
    ensures EncodedRecord(record) == if |record| == 220 then [3] + record else []
  {
    if DecodedRecord(message) == Some(record) {
      assert message == [message[0]] + message[1..];
    }
  }
}
