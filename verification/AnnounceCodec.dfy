/** Announces, the rule for mod names, and little-endian integers. */
module Announces {
  import opened Bytes

  type uint64 = x: int | 0 <= x < 0x1_0000_0000_0000_0000

  datatype SignedAnnounce = SignedAnnounce(
    publisher: Fingerprint,
    modName: string,
    version: uint64,
    manifestDigest: Digest,
    torrentInfoHash: Digest,
    signature: Signature)

  datatype AnnounceSummary = AnnounceSummary(publisher: Fingerprint, modName: string, version: uint64)

  const MOD_NAME_BYTES: nat := 64

  function Identifier(publisher: Fingerprint, modName: string): string {
    ToHex(publisher) + "/" + modName
  }

  /** An identifier names one publisher and one mod. */
  lemma IdentifierInjective(p: Fingerprint, n: string, q: Fingerprint, m: string)
    requires Identifier(p, n) == Identifier(q, m)
    ensures p == q && n == m
  {
    assert ToHex(p) == Identifier(p, n)[..16] && ToHex(q) == Identifier(q, m)[..16];
    HexInjective(p, q);
    assert n == Identifier(p, n)[17..] && m == Identifier(q, m)[17..];
  }

  predicate AcceptableCharacter(c: char) {
    'A' <= c <= 'Z' || 'a' <= c <= 'z' || '0' <= c <= '9' || c == '_' || c == '-'
  }

  predicate AcceptableName(name: string) {
    0 < |name| <= MOD_NAME_BYTES && forall i :: 0 <= i < |name| ==> AcceptableCharacter(name[i])
  }

  // ---- Names as fixed-width fields

  /** The characters as bytes, cut to the field. */
  function NameBytes(name: string): (r: seq<byte>)
    ensures |r| == if |name| < MOD_NAME_BYTES then |name| else MOD_NAME_BYTES
  {
    var length := if |name| < MOD_NAME_BYTES then |name| else MOD_NAME_BYTES;
    seq(length, i requires 0 <= i < length => (name[i] as int % 256) as byte)
  }

  function ZeroBytes(count: nat): (r: seq<byte>)
    ensures |r| == count
  {
    seq(count, _ => 0)
  }

  function PaddedName(name: string): (r: seq<byte>)
    ensures |r| == MOD_NAME_BYTES
  {
    NameBytes(name) + ZeroBytes(MOD_NAME_BYTES - |NameBytes(name)|)
  }

  /** The name a field holds: everything before its first zero byte. */
  function NameIn(field: seq<byte>): string {
    if field == [] || field[0] == 0 then "" else [field[0] as int as char] + NameIn(field[1..])
  }

  method ReadName(field: seq<byte>) returns (name: string)
    ensures name == NameIn(field)
  {
    name := "";
    for i := 0 to |field|
      invariant NameIn(field) == name + NameIn(field[i..])
    {
      if field[i] == 0 {
        return;
      }
      name := name + [field[i] as int as char];
    }
  }

  lemma {:induction false} NameInPrefix(name: string, from: nat)
    requires AcceptableName(name) && from <= |name|
    ensures NameIn(PaddedName(name)[from..]) == name[from..]
    decreases |name| - from
  {
    var field := PaddedName(name);
    if from < |name| {
      assert AcceptableCharacter(name[from]);
      NameInPrefix(name, from + 1);
      assert field[from..][1..] == field[from + 1..];
    }
  }

  lemma NameRoundTrip(name: string)
    requires AcceptableName(name)
    ensures NameIn(PaddedName(name)) == name
  {
    NameInPrefix(name, 0);
  }

  lemma {:induction false} NameInLength(field: seq<byte>)
    ensures |NameIn(field)| <= |field|
    ensures forall i :: 0 <= i < |NameIn(field)| ==> NameIn(field)[i] as int == field[i] as int
    ensures |NameIn(field)| < |field| ==> field[|NameIn(field)|] == 0
  {
    if field != [] && field[0] != 0 {
      NameInLength(field[1..]);
    }
  }

  /** Only zero bytes follow the name. */
  predicate CleanlyPadded(field: seq<byte>) {
    forall i :: |NameIn(field)| <= i < |field| ==> field[i] == 0
  }

  lemma PaddedNameAt(field: seq<byte>, i: nat)
    requires |field| == MOD_NAME_BYTES && i < MOD_NAME_BYTES
    ensures PaddedName(NameIn(field))[i] == if i < |NameIn(field)| then field[i] else 0
  {
    NameInLength(field);
    var name := NameIn(field);
    if i < |name| {
      assert PaddedName(name)[i] == NameBytes(name)[i];
      assert name[i] as int == field[i] as int;
    }
  }

  /** A field is the canonical one for its own name exactly when nothing follows the first zero byte. */
  lemma PaddedNameIn(field: seq<byte>)
    requires |field| == MOD_NAME_BYTES
    ensures PaddedName(NameIn(field)) == field <==> CleanlyPadded(field)
  {
    forall i | 0 <= i < MOD_NAME_BYTES
      ensures PaddedName(NameIn(field))[i] == if i < |NameIn(field)| then field[i] else 0
    {
      PaddedNameAt(field, i);
    }
  }

  /** Fields that agree up to a zero byte hold the same name. */
  lemma {:induction false} NameBeforeZero(a: seq<byte>, b: seq<byte>, zero: nat)
    requires zero < |a| && zero < |b| && a[zero] == 0 && b[zero] == 0 && forall i :: 0 <= i < zero ==> a[i] == b[i]
    ensures NameIn(a) == NameIn(b)
    decreases zero
  {
    if zero > 0 && a[0] != 0 {
      NameBeforeZero(a[1..], b[1..], zero - 1);
    }
  }

  // ---- Little-endian integers

  function Power256(count: nat): nat {
    if count == 0 then 1 else 256 * Power256(count - 1)
  }

  function LittleEndian(value: nat, count: nat): (r: seq<byte>)
    ensures |r| == count
    decreases count
  {
    if count == 0 then [] else [(value % 256) as byte] + LittleEndian(value / 256, count - 1)
  }

  function FromLittleEndian(bytes: seq<byte>): nat {
    if bytes == [] then 0 else bytes[0] as nat + 256 * FromLittleEndian(bytes[1..])
  }

  lemma {:induction false} LittleEndianRoundTrip(value: nat, count: nat)
    requires value < Power256(count)
    ensures FromLittleEndian(LittleEndian(value, count)) == value
    decreases count
  {
    if count > 0 {
      LittleEndianRoundTrip(value / 256, count - 1);
      assert LittleEndian(value, count)[1..] == LittleEndian(value / 256, count - 1);
    }
  }

  lemma {:induction false} FromLittleEndianRoundTrip(bytes: seq<byte>)
    ensures FromLittleEndian(bytes) < Power256(|bytes|)
    ensures LittleEndian(FromLittleEndian(bytes), |bytes|) == bytes
  {
    if bytes != [] {
      FromLittleEndianRoundTrip(bytes[1..]);
      var rest := FromLittleEndian(bytes[1..]);
      var value := bytes[0] as nat + 256 * rest;
      assert value % 256 == bytes[0] as nat && value / 256 == rest;
    }
  }

  lemma EightBytes()
    ensures Power256(8) == 0x1_0000_0000_0000_0000
  {
    assert Power256(4) == 0x1_0000_0000;
  }

  /** Reading eight bytes gives a 64-bit value, and writing it back the same bytes. */
  lemma Version64(bytes: seq<byte>)
    requires |bytes| == 8
    ensures 0 <= FromLittleEndian(bytes) < 0x1_0000_0000_0000_0000
    ensures LittleEndian(FromLittleEndian(bytes), 8) == bytes
  {
    EightBytes();
    FromLittleEndianRoundTrip(bytes);
  }

  lemma Version64Back(value: uint64)
    ensures FromLittleEndian(LittleEndian(value, 8)) == value
  {
    EightBytes();
    LittleEndianRoundTrip(value, 8);
  }
}

/** The 220-byte signed record. */
module AnnounceCodec {
  import opened Wrappers
  import opened Sequences
  import opened Bytes
  import opened Announces

  datatype DecodeError = WrongLength | BadMagic | UnsupportedVersion | ModNameRejected

  const MAGIC: seq<byte> := [0x57, 0x47, 0x52, 0x44, 0x41, 0x4E, 0x4E, 0x43]
  const FORMAT_VERSION: nat := 1
  const FORMAT_OFFSET: nat := 8
  const FINGERPRINT_OFFSET: nat := 12
  const MOD_NAME_OFFSET: nat := 20
  const VERSION_OFFSET: nat := 84
  const MANIFEST_DIGEST_OFFSET: nat := 92
  const TORRENT_INFO_HASH_OFFSET: nat := 124
  const SIGNED_BYTES: nat := 156
  const SIGNATURE_OFFSET: nat := 156
  const RECORD_BYTES: nat := 220

  /** The part of the record the signature covers. */
  function Signable(a: SignedAnnounce): (r: seq<byte>)
    ensures |r| == SIGNED_BYTES
  {
    MAGIC + LittleEndian(FORMAT_VERSION, 4) + a.publisher + PaddedName(a.modName) + LittleEndian(a.version, 8)
    + a.manifestDigest + a.torrentInfoHash
  }

  function Encoded(a: SignedAnnounce): (r: seq<byte>)
    ensures |r| == RECORD_BYTES
  {
    Signable(a) + a.signature
  }

  function NameField(record: seq<byte>): seq<byte>
    requires |record| == RECORD_BYTES
  {
    record[MOD_NAME_OFFSET..VERSION_OFFSET]
  }

  function VersionField(record: seq<byte>): uint64
    requires |record| == RECORD_BYTES
  {
    Version64(record[VERSION_OFFSET..MANIFEST_DIGEST_OFFSET]);
    FromLittleEndian(record[VERSION_OFFSET..MANIFEST_DIGEST_OFFSET])
  }

  function Decoded(record: seq<byte>): Result<SignedAnnounce, DecodeError> {
    if |record| != RECORD_BYTES then Err(WrongLength)
    else if record[..FORMAT_OFFSET] != MAGIC then Err(BadMagic)
    else if FromLittleEndian(record[FORMAT_OFFSET..FINGERPRINT_OFFSET]) != FORMAT_VERSION then Err(UnsupportedVersion)
    else if !AcceptableName(NameIn(NameField(record))) then Err(ModNameRejected)
    else
      Ok(SignedAnnounce(
        record[FINGERPRINT_OFFSET..MOD_NAME_OFFSET],
        NameIn(NameField(record)),
        VersionField(record),
        record[MANIFEST_DIGEST_OFFSET..TORRENT_INFO_HASH_OFFSET],
        record[TORRENT_INFO_HASH_OFFSET..SIGNATURE_OFFSET],
        record[SIGNATURE_OFFSET..]))
  }

  // ---- Writing into a buffer

  method Put(target: array<byte>, offset: nat, bytes: seq<byte>)
    requires offset + |bytes| <= target.Length
    modifies target
    ensures target[..] == old(target[..offset]) + bytes + old(target[offset + |bytes|..])
  {
    for position := 0 to |bytes|
      invariant target[..] == old(target[..offset]) + bytes[..position] + old(target[offset + position..])
    {
      target[offset + position] := bytes[position];
    }
    assert bytes[..|bytes|] == bytes;
  }

  method LittleEndianBytes(value: nat, width: nat) returns (bytes: seq<byte>)
    ensures bytes == LittleEndian(value, width)
  {
    bytes := [];
    var rest := value;
    assert [] + LittleEndian(value, width) == LittleEndian(value, width);
    for position := 0 to width
      invariant LittleEndian(value, width) == bytes + LittleEndian(rest, width - position)
    {
      var low := (rest % 256) as byte;
      Regroup(bytes, [low], LittleEndian(rest / 256, width - position - 1));
      bytes := bytes + [low];
      rest := rest / 256;
    }
    assert bytes + LittleEndian(rest, 0) == bytes;
  }

  lemma ZeroBytesAdd(a: nat, b: nat)
    ensures ZeroBytes(a + b) == ZeroBytes(a) + ZeroBytes(b)
  {
  }

  /** Fills the next field of a buffer whose remainder is still zero. */
  method PutNext(target: array<byte>, offset: nat, bytes: seq<byte>, ghost done: seq<byte>)
    requires offset == |done| && offset + |bytes| <= target.Length
    requires target[..] == done + ZeroBytes(target.Length - offset)
    modifies target
    ensures target[..] == done + bytes + ZeroBytes(target.Length - offset - |bytes|)
  {
    ghost var before := target[..];
    Put(target, offset, bytes);
    assert before[..offset] == done;
    assert before[offset + |bytes|..] == ZeroBytes(target.Length - offset - |bytes|);
  }

  method EncodeSignable(a: SignedAnnounce) returns (record: array<byte>)
    ensures fresh(record) && record.Length == SIGNED_BYTES && record[..] == Signable(a)
  {
    record := new byte[SIGNED_BYTES](_ => 0);
    ghost var done: seq<byte> := MAGIC;
    assert record[..] == [] + ZeroBytes(SIGNED_BYTES);
    PutNext(record, 0, MAGIC, []);
    assert [] + MAGIC == MAGIC;
    var format := LittleEndianBytes(FORMAT_VERSION, 4);
    PutNext(record, FORMAT_OFFSET, format, done);
    done := done + format;
    PutNext(record, FINGERPRINT_OFFSET, a.publisher, done);
    done := done + a.publisher;
    PutNext(record, MOD_NAME_OFFSET, NameBytes(a.modName), done);
    ghost var gap := MOD_NAME_BYTES - |NameBytes(a.modName)|;
    ZeroBytesAdd(gap, 72);
    assert done + NameBytes(a.modName) + (ZeroBytes(gap) + ZeroBytes(72)) == done + PaddedName(a.modName) + ZeroBytes(72);
    done := done + PaddedName(a.modName);
    var version := LittleEndianBytes(a.version, 8);
    PutNext(record, VERSION_OFFSET, version, done);
    done := done + version;
    PutNext(record, MANIFEST_DIGEST_OFFSET, a.manifestDigest, done);
    done := done + a.manifestDigest;
    PutNext(record, TORRENT_INFO_HASH_OFFSET, a.torrentInfoHash, done);
    done := done + a.torrentInfoHash;
    assert done + ZeroBytes(0) == done;
  }

  method Encode(a: SignedAnnounce) returns (record: array<byte>)
    ensures fresh(record) && record[..] == Encoded(a)
  {
    var signable := EncodeSignable(a);
    ghost var signed := Signable(a);
    record := new byte[RECORD_BYTES](_ => 0);
    Put(record, 0, signable[..]);
    assert record[..SIGNATURE_OFFSET] == signed;
    Put(record, SIGNATURE_OFFSET, a.signature);
    assert record[..] == signed + a.signature;
  }

  method ReadLittleEndian(bytes: seq<byte>) returns (value: nat)
    ensures value == FromLittleEndian(bytes)
  {
    value := 0;
    var position := |bytes|;
    while position > 0
      invariant 0 <= position <= |bytes|
      invariant value == FromLittleEndian(bytes[position..])
    {
      position := position - 1;
      assert bytes[position..][1..] == bytes[position + 1..];
      value := bytes[position] as nat + 256 * value;
    }
    assert bytes[0..] == bytes;
  }

  method Decode(record: seq<byte>) returns (r: Result<SignedAnnounce, DecodeError>)
    ensures r == Decoded(record)
  {
    if |record| != RECORD_BYTES {
      return Err(WrongLength);
    }
    for position := 0 to |MAGIC|
      invariant record[..position] == MAGIC[..position]
    {
      if record[position] != MAGIC[position] {
        assert record[..FORMAT_OFFSET][position] != MAGIC[position];
        return Err(BadMagic);
      }
    }
    assert MAGIC[..|MAGIC|] == MAGIC;
    var format := ReadLittleEndian(record[FORMAT_OFFSET..FINGERPRINT_OFFSET]);
    if format != FORMAT_VERSION {
      return Err(UnsupportedVersion);
    }
    var name := ReadName(NameField(record));
    if !AcceptableName(name) {
      return Err(ModNameRejected);
    }
    var version := ReadLittleEndian(record[VERSION_OFFSET..MANIFEST_DIGEST_OFFSET]);
    assert version == VersionField(record);
    return Ok(SignedAnnounce(
      record[FINGERPRINT_OFFSET..MOD_NAME_OFFSET],
      name,
      version,
      record[MANIFEST_DIGEST_OFFSET..TORRENT_INFO_HASH_OFFSET],
      record[TORRENT_INFO_HASH_OFFSET..SIGNATURE_OFFSET],
      record[SIGNATURE_OFFSET..]));
  }

  // ---- Round trips

  lemma Peel(field: seq<byte>, rest: seq<byte>)
    ensures (field + rest)[..|field|] == field && (field + rest)[|field|..] == rest
  {
  }

  lemma SliceOfDrop(s: seq<byte>, from: nat, middle: nat, until: nat)
    requires from <= middle <= until <= |s|
    ensures s[from..][middle - from..] == s[middle..]
    ensures s[from..][..middle - from] == s[from..middle]
  {
  }

  /** The record, read field by field from the front. */
  function Nested(a: SignedAnnounce): seq<byte> {
    MAGIC + (LittleEndian(FORMAT_VERSION, 4) + (a.publisher + (PaddedName(a.modName) + (LittleEndian(a.version, 8)
    + (a.manifestDigest + (a.torrentInfoHash + a.signature))))))
  }

  lemma EncodedIsNested(a: SignedAnnounce)
    ensures Encoded(a) == Nested(a)
  {
    var f, v := LittleEndian(FORMAT_VERSION, 4), LittleEndian(a.version, 8);
    var n := PaddedName(a.modName);
    var t7 := a.torrentInfoHash + a.signature;
    var t6 := a.manifestDigest + t7;
    var t5 := v + t6;
    var t4 := n + t5;
    var t3 := a.publisher + t4;
    Regroup(MAGIC + f + a.publisher + n + v + a.manifestDigest, a.torrentInfoHash, a.signature);
    Regroup(MAGIC + f + a.publisher + n + v, a.manifestDigest, t7);
    Regroup(MAGIC + f + a.publisher + n, v, t6);
    Regroup(MAGIC + f + a.publisher, n, t5);
    Regroup(MAGIC + f, a.publisher, t4);
    Regroup(MAGIC, f, t3);
  }

  lemma EncodedFields(a: SignedAnnounce)
    ensures
      var r := Encoded(a);
      && r[..FORMAT_OFFSET] == MAGIC
      && r[FORMAT_OFFSET..FINGERPRINT_OFFSET] == LittleEndian(FORMAT_VERSION, 4)
      && r[FINGERPRINT_OFFSET..MOD_NAME_OFFSET] == a.publisher
      && r[MOD_NAME_OFFSET..VERSION_OFFSET] == PaddedName(a.modName)
      && r[VERSION_OFFSET..MANIFEST_DIGEST_OFFSET] == LittleEndian(a.version, 8)
      && r[MANIFEST_DIGEST_OFFSET..TORRENT_INFO_HASH_OFFSET] == a.manifestDigest
      && r[TORRENT_INFO_HASH_OFFSET..SIGNATURE_OFFSET] == a.torrentInfoHash
      && r[SIGNATURE_OFFSET..] == a.signature
  {
    EncodedIsNested(a);
    var r := Nested(a);
    var f, v, n := LittleEndian(FORMAT_VERSION, 4), LittleEndian(a.version, 8), PaddedName(a.modName);
    var t7 := a.torrentInfoHash + a.signature;
    var t6 := a.manifestDigest + t7;
    var t5 := v + t6;
    var t4 := n + t5;
    var t3 := a.publisher + t4;
    var t2 := f + t3;
    Peel(MAGIC, t2);
    assert r[FORMAT_OFFSET..] == t2;
    Peel(f, t3);
    SliceOfDrop(r, FORMAT_OFFSET, FINGERPRINT_OFFSET, RECORD_BYTES);
    assert r[FINGERPRINT_OFFSET..] == t3;
    Peel(a.publisher, t4);
    SliceOfDrop(r, FINGERPRINT_OFFSET, MOD_NAME_OFFSET, RECORD_BYTES);
    assert r[MOD_NAME_OFFSET..] == t4;
    Peel(n, t5);
    SliceOfDrop(r, MOD_NAME_OFFSET, VERSION_OFFSET, RECORD_BYTES);
    assert r[VERSION_OFFSET..] == t5;
    Peel(v, t6);
    SliceOfDrop(r, VERSION_OFFSET, MANIFEST_DIGEST_OFFSET, RECORD_BYTES);
    assert r[MANIFEST_DIGEST_OFFSET..] == t6;
    Peel(a.manifestDigest, t7);
    SliceOfDrop(r, MANIFEST_DIGEST_OFFSET, TORRENT_INFO_HASH_OFFSET, RECORD_BYTES);
    assert r[TORRENT_INFO_HASH_OFFSET..] == t7;
    Peel(a.torrentInfoHash, a.signature);
    SliceOfDrop(r, TORRENT_INFO_HASH_OFFSET, SIGNATURE_OFFSET, RECORD_BYTES);
  }

  /** A record survives encoding and decoding exactly when its mod name is acceptable. */
  lemma AnnounceRoundTrip(a: SignedAnnounce)
    ensures Decoded(Encoded(a)) == Ok(a) <==> AcceptableName(a.modName)
  {
    if AcceptableName(a.modName) {
      EncodedFields(a);
      NameRoundTrip(a.modName);
      Version64Back(a.version);
      assert Power256(4) == 0x1_0000_0000;
      LittleEndianRoundTrip(FORMAT_VERSION, 4);
    }
  }

  lemma RecordFromFields(record: seq<byte>)
    requires |record| == RECORD_BYTES
    ensures record
         == record[..FORMAT_OFFSET] + record[FORMAT_OFFSET..FINGERPRINT_OFFSET] + record[FINGERPRINT_OFFSET..MOD_NAME_OFFSET]
            + record[MOD_NAME_OFFSET..VERSION_OFFSET] + record[VERSION_OFFSET..MANIFEST_DIGEST_OFFSET]
            + record[MANIFEST_DIGEST_OFFSET..TORRENT_INFO_HASH_OFFSET] + record[TORRENT_INFO_HASH_OFFSET..SIGNATURE_OFFSET]
            + record[SIGNATURE_OFFSET..]
  {
  }

  /**
   * Re-encoding an accepted record decodes to the same announce; it is the same record exactly when the
   * bytes after the name's first zero are all zero, which acceptance itself does not check.
   */
  lemma ReencodingIsCanonical(record: seq<byte>)
    requires Decoded(record).Ok?
    ensures Decoded(Encoded(Decoded(record).value)) == Decoded(record)
    ensures Encoded(Decoded(record).value) == record <==> CleanlyPadded(NameField(record))
  {
    var a := Decoded(record).value;
    AnnounceRoundTrip(a);
    EncodedFields(a);
    PaddedNameIn(NameField(record));
    Version64(record[VERSION_OFFSET..MANIFEST_DIGEST_OFFSET]);
    FromLittleEndianRoundTrip(record[FORMAT_OFFSET..FINGERPRINT_OFFSET]);
    if Encoded(a) == record {
      assert NameField(record) == PaddedName(a.modName);
    }
    if CleanlyPadded(NameField(record)) {
      RecordFromFields(record);
      RecordFromFields(Encoded(a));
    }
  }

  /** The record with one byte set in the last place of its name field. */
  function Smudged(record: seq<byte>): (r: seq<byte>)
    requires |record| == RECORD_BYTES
    ensures |r| == RECORD_BYTES
  {
    record[VERSION_OFFSET - 1 := 1]
  }

  lemma SmudgedElsewhere(record: seq<byte>, from: nat, until: nat)
    requires |record| == RECORD_BYTES && from <= until <= RECORD_BYTES && (until < VERSION_OFFSET || VERSION_OFFSET <= from)
    ensures Smudged(record)[from..until] == record[from..until]
  {
  }

  /** Any announce whose name leaves two bytes free has a second accepted record, which re-encoding does not give back. */
  lemma SmudgedIsAccepted(a: SignedAnnounce)
    requires AcceptableName(a.modName) && |a.modName| < MOD_NAME_BYTES - 1
    ensures Decoded(Smudged(Encoded(a))) == Ok(a)
    ensures Encoded(a) != Smudged(Encoded(a))
  {
    var record := Encoded(a);
    AnnounceRoundTrip(a);
    EncodedFields(a);
    var n := |a.modName|;
    assert NameField(record) == PaddedName(a.modName);
    assert NameField(record)[n] == 0 && NameField(record)[MOD_NAME_BYTES - 1] == 0;
    assert NameField(Smudged(record))[MOD_NAME_BYTES - 1] == 1;
    assert forall i :: 0 <= i < MOD_NAME_BYTES - 1 ==> NameField(Smudged(record))[i] == NameField(record)[i];
    NameBeforeZero(NameField(Smudged(record)), NameField(record), n);
    SmudgedFields(record);
  }

  lemma SmudgedFields(record: seq<byte>)
    requires |record| == RECORD_BYTES && NameIn(NameField(Smudged(record))) == NameIn(NameField(record))
    ensures Decoded(Smudged(record)) == Decoded(record)
  {
    SmudgedElsewhere(record, 0, FORMAT_OFFSET);
    SmudgedElsewhere(record, FORMAT_OFFSET, FINGERPRINT_OFFSET);
    SmudgedElsewhere(record, FINGERPRINT_OFFSET, MOD_NAME_OFFSET);
    SmudgedElsewhere(record, VERSION_OFFSET, MANIFEST_DIGEST_OFFSET);
    SmudgedElsewhere(record, MANIFEST_DIGEST_OFFSET, TORRENT_INFO_HASH_OFFSET);
    SmudgedElsewhere(record, TORRENT_INFO_HASH_OFFSET, SIGNATURE_OFFSET);
    SmudgedElsewhere(record, SIGNATURE_OFFSET, RECORD_BYTES);
  }
}
