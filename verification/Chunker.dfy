/** Content-defined chunking: spans, their size limits and their locality. */
module Chunker {
  import opened Bytes
  import opened Content

  const WORD: nat := 0x1_0000_0000_0000_0000

  /**
   * A mask of k low bits is kept as its period, two to the k: a word has those bits clear exactly
   * when the period divides it.
   */
  datatype ChunkSizes = ChunkSizes(minimum: nat, average: nat, maximum: nat, smallPeriod: nat, largePeriod: nat) {
    predicate Valid() {
      0 < minimum < average < maximum && 0 < smallPeriod && 0 < largePeriod
    }
  }

  const DEFAULT_SIZES: ChunkSizes := ChunkSizes(0x10_0000, 0x40_0000, 0x100_0000, 0x100_0000, 0x10_0000)

  type GearTable = t: seq<nat> | |t| == 256 witness seq(256, _ => 0)

  datatype Settings = Settings(sizes: ChunkSizes, gear: GearTable)

  /** One 64-bit step of the rolling fingerprint. */
  function Roll(s: Settings, fingerprint: nat, value: byte): nat {
    (fingerprint / 2 + s.gear[value as int]) % WORD
  }

  /** The mask in force at this position clears the fingerprint. */
  predicate Cleared(s: Settings, fingerprint: nat, position: nat)
    requires s.sizes.Valid()
  {
    fingerprint % (if position < s.sizes.average then s.sizes.smallPeriod else s.sizes.largePeriod) == 0
  }

  // ---- What a boundary is

  /** Fingerprint of the bytes from the minimum size up to, not including, `stop`. */
  function Fingerprint(s: Settings, data: seq<byte>, stop: nat): nat
    requires stop <= |data|
  {
    if stop <= s.sizes.minimum then 0 else Roll(s, Fingerprint(s, data, stop - 1), data[stop - 1])
  }

  /** The masked fingerprint vanishes on the byte at this position. */
  predicate Fires(s: Settings, data: seq<byte>, position: nat)
    requires s.sizes.Valid() && position < |data|
  {
    Cleared(s, Fingerprint(s, data, position + 1), position)
  }

  function Limit(s: Settings, data: seq<byte>): nat {
    if |data| < s.sizes.maximum then |data| else s.sizes.maximum
  }

  /** Cut just after the first firing position at or past the minimum, or at the limit when none fires. */
  ghost predicate IsBoundary(s: Settings, data: seq<byte>, length: nat)
    requires s.sizes.Valid()
  {
    if |data| <= s.sizes.minimum then length == |data|
    else
      && s.sizes.minimum < length <= Limit(s, data)
      && (forall p :: s.sizes.minimum <= p < length - 1 ==> !Fires(s, data, p))
      && (length < Limit(s, data) ==> Fires(s, data, length - 1))
  }

  // ---- The boundary as the scan computes it

  function Scan(s: Settings, data: seq<byte>, fingerprint: nat, position: nat, limit: nat): nat
    requires s.sizes.Valid() && position <= limit <= |data|
    decreases limit - position
  {
    if position == limit then limit
    else
      var rolled := Roll(s, fingerprint, data[position]);
      if Cleared(s, rolled, position) then position + 1
      else Scan(s, data, rolled, position + 1, limit)
  }

  function Boundary(s: Settings, data: seq<byte>): nat
    requires s.sizes.Valid()
  {
    if |data| <= s.sizes.minimum then |data|
    else Scan(s, data, 0, s.sizes.minimum, Limit(s, data))
  }

  lemma {:induction false} ScanFindsFirst(s: Settings, data: seq<byte>, position: nat, limit: nat)
    requires s.sizes.Valid() && s.sizes.minimum <= position <= limit <= |data|
    requires s.sizes.minimum < limit
    requires forall p :: s.sizes.minimum <= p < position ==> !Fires(s, data, p)
    ensures
      var length := Scan(s, data, Fingerprint(s, data, position), position, limit);
      && s.sizes.minimum < length <= limit
      && (forall p :: s.sizes.minimum <= p < length - 1 ==> !Fires(s, data, p))
      && (length < limit ==> Fires(s, data, length - 1))
    decreases limit - position
  {
    if position < limit && !Fires(s, data, position) {
      ScanFindsFirst(s, data, position + 1, limit);
    }
  }

  lemma BoundaryMeets(s: Settings, data: seq<byte>)
    requires s.sizes.Valid()
    ensures IsBoundary(s, data, Boundary(s, data))
  {
    if |data| > s.sizes.minimum {
      ScanFindsFirst(s, data, s.sizes.minimum, Limit(s, data));
    }
  }

  lemma BoundaryUnique(s: Settings, data: seq<byte>, a: nat, b: nat)
    requires s.sizes.Valid() && IsBoundary(s, data, a) && IsBoundary(s, data, b)
    ensures a == b
  {
  }

  // ---- The cut, with every fingerprint written out

  /** The period in force for the byte at this position: the small mask's below the average, the large mask's from there on. */
  function PeriodAt(s: Settings, position: nat): nat {
    if position < s.sizes.average then s.sizes.smallPeriod else s.sizes.largePeriod
  }

  /** Half the fingerprint before plus the byte's gear, in 64 bits. */
  predicate Rolled(s: Settings, data: seq<byte>, fingerprints: seq<nat>, i: nat)
    requires i < |fingerprints| && s.sizes.minimum + |fingerprints| <= |data|
  {
    var before := if i == 0 then 0 else fingerprints[i - 1];
    fingerprints[i] == (before / 2 + s.gear[data[s.sizes.minimum + i] as int]) % 0x1_0000_0000_0000_0000
  }

  /** One fingerprint for each byte from the minimum on. */
  ghost predicate Trace(s: Settings, data: seq<byte>, fingerprints: seq<nat>) {
    && s.sizes.minimum + |fingerprints| <= |data|
    && forall i :: 0 <= i < |fingerprints| ==> Rolled(s, data, fingerprints, i)
  }

  ghost predicate CutBy(s: Settings, data: seq<byte>, length: nat, fingerprints: seq<nat>)
    requires s.sizes.Valid()
  {
    && |fingerprints| == length - s.sizes.minimum > 0
    && Trace(s, data, fingerprints)
    && (forall i :: 0 <= i < |fingerprints| - 1 ==> fingerprints[i] % PeriodAt(s, s.sizes.minimum + i) != 0)
    && length <= s.sizes.maximum
    && (length == |data| || length == s.sizes.maximum || fingerprints[|fingerprints| - 1] % PeriodAt(s, length - 1) == 0)
  }

  lemma {:induction false} TraceIsFingerprint(s: Settings, data: seq<byte>, fingerprints: seq<nat>, i: nat)
    requires Trace(s, data, fingerprints) && i < |fingerprints|
    ensures fingerprints[i] == Fingerprint(s, data, s.sizes.minimum + i + 1)
  {
    assert Rolled(s, data, fingerprints, i);
    if i == 0 {
      assert Fingerprint(s, data, s.sizes.minimum) == 0;
    } else {
      TraceIsFingerprint(s, data, fingerprints, i - 1);
    }
  }

  lemma TraceTo(s: Settings, data: seq<byte>, length: nat) returns (fingerprints: seq<nat>)
    requires s.sizes.minimum <= length <= |data|
    ensures Trace(s, data, fingerprints) && |fingerprints| == length - s.sizes.minimum
  {
    fingerprints := [];
    for stop := s.sizes.minimum to length
      invariant Trace(s, data, fingerprints) && |fingerprints| == stop - s.sizes.minimum
    {
      var before := if fingerprints == [] then 0 else fingerprints[|fingerprints| - 1];
      var next := (before / 2 + s.gear[data[stop] as int]) % 0x1_0000_0000_0000_0000;
      TraceLonger(s, data, fingerprints, next);
      fingerprints := fingerprints + [next];
    }
  }

  lemma TraceLonger(s: Settings, data: seq<byte>, fingerprints: seq<nat>, next: nat)
    requires Trace(s, data, fingerprints) && s.sizes.minimum + |fingerprints| < |data|
    requires Rolled(s, data, fingerprints + [next], |fingerprints|)
    ensures Trace(s, data, fingerprints + [next])
  {
    forall i | 0 <= i < |fingerprints| + 1
      ensures Rolled(s, data, fingerprints + [next], i)
    {
      if i < |fingerprints| {
        assert Rolled(s, data, fingerprints, i);
      }
    }
  }

  lemma FiresAt(s: Settings, data: seq<byte>, fingerprints: seq<nat>)
    requires s.sizes.Valid() && Trace(s, data, fingerprints)
    ensures forall i :: 0 <= i < |fingerprints| ==>
      (Fires(s, data, s.sizes.minimum + i) <==> fingerprints[i] % PeriodAt(s, s.sizes.minimum + i) == 0)
  {
    forall i | 0 <= i < |fingerprints|
      ensures Fires(s, data, s.sizes.minimum + i) <==> fingerprints[i] % PeriodAt(s, s.sizes.minimum + i) == 0
    {
      TraceIsFingerprint(s, data, fingerprints, i);
    }
  }

  lemma CutIsBoundary(s: Settings, data: seq<byte>, length: nat, fingerprints: seq<nat>)
    requires s.sizes.Valid() && |data| > s.sizes.minimum && CutBy(s, data, length, fingerprints)
    ensures IsBoundary(s, data, length)
  {
    FiresAt(s, data, fingerprints);
    forall p | s.sizes.minimum <= p < length - 1
      ensures !Fires(s, data, p)
    {
      assert fingerprints[p - s.sizes.minimum] % PeriodAt(s, p) != 0;
    }
  }

  lemma BoundaryIsCut(s: Settings, data: seq<byte>, length: nat) returns (fingerprints: seq<nat>)
    requires s.sizes.Valid() && |data| > s.sizes.minimum && IsBoundary(s, data, length)
    ensures CutBy(s, data, length, fingerprints)
  {
    fingerprints := TraceTo(s, data, length);
    FiresAt(s, data, fingerprints);
  }

  /** A longer input is cut after `length` bytes exactly when its fingerprints say so; a shorter one is a single chunk. */
  lemma CutExactly(s: Settings, data: seq<byte>, length: nat)
    requires s.sizes.Valid()
    ensures Boundary(s, data) == length <==>
      if |data| <= s.sizes.minimum then length == |data|
      else exists fingerprints :: CutBy(s, data, length, fingerprints)
  {
    BoundaryMeets(s, data);
    if |data| > s.sizes.minimum {
      if Boundary(s, data) == length {
        var fingerprints := BoundaryIsCut(s, data, length);
      }
      if fingerprints :| CutBy(s, data, length, fingerprints) {
        CutIsBoundary(s, data, length, fingerprints);
        BoundaryUnique(s, data, length, Boundary(s, data));
      }
    }
  }

  /** By default chunks are of 1 to 16 MiB, and the masks have two bits more and two bits less than the average of 4 MiB. */
  lemma DefaultPeriods()
    ensures
      var sizes := DEFAULT_SIZES;
      && sizes.Valid()
      && sizes.minimum == 1024 * 1024 && sizes.average == 4 * sizes.minimum && sizes.maximum == 4 * sizes.average
      && sizes.smallPeriod == 4 * sizes.average && 4 * sizes.largePeriod == sizes.average
  {
  }

  // ---- Splitting

  function SplitFrom(s: Settings, data: seq<byte>, offset: nat): seq<ChunkSpan>
    requires s.sizes.Valid() && offset <= |data|
    decreases |data| - offset
  {
    if offset == |data| then []
    else
      BoundaryMeets(s, data[offset..]);
      var length := Boundary(s, data[offset..]);
      [ChunkSpan(offset, length)] + SplitFrom(s, data, offset + length)
  }

  function Spans(s: Settings, data: seq<byte>): seq<ChunkSpan>
    requires s.sizes.Valid()
  {
    SplitFrom(s, data, 0)
  }

  class FastCdcChunker {
    const settings: Settings

    constructor (settings: Settings)
      requires settings.sizes.Valid()
      ensures this.settings == settings
    {
      this.settings := settings;
    }

    method NextBoundary(data: seq<byte>) returns (length: nat)
      requires settings.sizes.Valid()
      ensures IsBoundary(settings, data, length)
      ensures length == Boundary(settings, data)
    {
      BoundaryMeets(settings, data);
      var sizes := settings.sizes;
      if |data| <= sizes.minimum {
        return |data|;
      }
      var limit := if |data| < sizes.maximum then |data| else sizes.maximum;
      var normalPoint := if limit < sizes.average then limit else sizes.average;
      var fingerprint: nat := 0;
      var position := sizes.minimum;
      while position < normalPoint
        invariant sizes.minimum <= position <= normalPoint
        invariant Boundary(settings, data) == Scan(settings, data, fingerprint, position, limit)
      {
        fingerprint := (fingerprint / 2 + settings.gear[data[position] as int]) % WORD;
        if fingerprint % sizes.smallPeriod == 0 {
          return position + 1;
        }
        position := position + 1;
      }
      while position < limit
        invariant normalPoint <= position <= limit
        invariant Boundary(settings, data) == Scan(settings, data, fingerprint, position, limit)
      {
        fingerprint := (fingerprint / 2 + settings.gear[data[position] as int]) % WORD;
        if fingerprint % sizes.largePeriod == 0 {
          return position + 1;
        }
        position := position + 1;
      }
      return limit;
    }

    method Split(data: seq<byte>) returns (spans: seq<ChunkSpan>)
      requires settings.sizes.Valid()
      ensures spans == Spans(settings, data)
    {
      spans := [];
      var offset := 0;
      while offset < |data|
        invariant offset <= |data|
        invariant Spans(settings, data) == spans + SplitFrom(settings, data, offset)
      {
        var length := NextBoundary(data[offset..]);
        spans := spans + [ChunkSpan(offset, length)];
        offset := offset + length;
      }
    }
  }

  // ---- Size limits and coverage

  /** Spans lie end to end from `start` to `stop`. */
  ghost predicate Tiles(spans: seq<ChunkSpan>, start: nat, stop: nat) {
    if spans == [] then start == stop
    else spans[0].offset == start && spans[0].length > 0 && Tiles(spans[1..], start + spans[0].length, stop)
  }

  lemma {:induction false} SplitFromTiles(s: Settings, data: seq<byte>, offset: nat)
    requires s.sizes.Valid() && offset <= |data|
    ensures
      var spans := SplitFrom(s, data, offset);
      && Tiles(spans, offset, |data|)
      && (forall k :: 0 <= k < |spans| ==> 0 < spans[k].length <= s.sizes.maximum)
      && (forall k :: 0 <= k < |spans| - 1 ==> s.sizes.minimum < spans[k].length)
    decreases |data| - offset
  {
    if offset < |data| {
      BoundaryMeets(s, data[offset..]);
      var spans := SplitFrom(s, data, offset);
      SplitFromTiles(s, data, offset + spans[0].length);
      assert spans[1..] == SplitFrom(s, data, offset + spans[0].length);
    }
  }

  /** Splitting loses no byte and repeats none, and only the last span may be short. */
  lemma SplitTiles(s: Settings, data: seq<byte>)
    requires s.sizes.Valid()
    ensures
      var spans := Spans(s, data);
      && Tiles(spans, 0, |data|)
      && (forall k :: 0 <= k < |spans| ==> 0 < spans[k].length <= s.sizes.maximum)
      && (forall k :: 0 <= k < |spans| - 1 ==> s.sizes.minimum < spans[k].length)
  {
    SplitFromTiles(s, data, 0);
  }

  // ---- Locality

  lemma {:induction false} FingerprintPrefix(s: Settings, data: seq<byte>, more: seq<byte>, stop: nat)
    requires stop <= |data|
    ensures Fingerprint(s, data + more, stop) == Fingerprint(s, data, stop)
  {
    if stop > s.sizes.minimum {
      FingerprintPrefix(s, data, more, stop - 1);
    }
  }

  lemma BoundaryPrefix(s: Settings, data: seq<byte>, more: seq<byte>)
    requires s.sizes.Valid() && Boundary(s, data) < |data|
    ensures Boundary(s, data + more) == Boundary(s, data)
  {
    var length := Boundary(s, data);
    BoundaryMeets(s, data);
    forall p | 0 <= p < |data|
      ensures Fires(s, data + more, p) == Fires(s, data, p)
    {
      FingerprintPrefix(s, data, more, p + 1);
    }
    assert IsBoundary(s, data + more, length);
    BoundaryMeets(s, data + more);
    BoundaryUnique(s, data + more, length, Boundary(s, data + more));
  }

  lemma {:induction false} SplitPrefixFrom(s: Settings, data: seq<byte>, more: seq<byte>, offset: nat)
    requires s.sizes.Valid() && offset < |data|
    ensures
      var spans := SplitFrom(s, data, offset);
      spans != [] && spans[..|spans| - 1] <= SplitFrom(s, data + more, offset)
    decreases |data| - offset
  {
    BoundaryMeets(s, data[offset..]);
    var length := Boundary(s, data[offset..]);
    if offset + length < |data| {
      assert (data + more)[offset..] == data[offset..] + more;
      BoundaryPrefix(s, data[offset..], more);
      SplitPrefixFrom(s, data, more, offset + length);
      PrefixInFront(ChunkSpan(offset, length), SplitFrom(s, data, offset + length), SplitFrom(s, data + more, offset + length));
    }
  }

  lemma PrefixInFront(first: ChunkSpan, rest: seq<ChunkSpan>, longer: seq<ChunkSpan>)
    requires rest != [] && rest[..|rest| - 1] <= longer
    ensures ([first] + rest)[..|rest|] <= [first] + longer
  {
    assert ([first] + rest)[..|rest|] == [first] + rest[..|rest| - 1];
  }

  /** Appending to a file keeps every span but the last one. */
  lemma SplitPrefix(s: Settings, data: seq<byte>, more: seq<byte>)
    requires s.sizes.Valid() && data != []
    ensures
      var spans := Spans(s, data);
      spans != [] && spans[..|spans| - 1] <= Spans(s, data + more)
  {
    SplitPrefixFrom(s, data, more, 0);
  }

  function Shifted(spans: seq<ChunkSpan>, distance: nat): seq<ChunkSpan> {
    seq(|spans|, k requires 0 <= k < |spans| => ChunkSpan(spans[k].offset + distance, spans[k].length))
  }

  lemma {:induction false} SplitSuffixFrom(s: Settings, before: seq<byte>, suffix: seq<byte>, offset: nat)
    requires s.sizes.Valid() && offset <= |suffix|
    ensures SplitFrom(s, before + suffix, |before| + offset) == Shifted(SplitFrom(s, suffix, offset), |before|)
    decreases |suffix| - offset
  {
    if offset < |suffix| {
      assert (before + suffix)[|before| + offset..] == suffix[offset..];
      BoundaryMeets(s, suffix[offset..]);
      SplitSuffixFrom(s, before, suffix, offset + Boundary(s, suffix[offset..]));
    }
  }

  /** Dropping the first spans of a split leaves the split from the next start. */
  lemma {:induction false} SplitDrop(s: Settings, data: seq<byte>, offset: nat, index: nat)
    requires s.sizes.Valid() && offset <= |data| && index < |SplitFrom(s, data, offset)|
    ensures
      var spans := SplitFrom(s, data, offset);
      spans[index].offset <= |data| && spans[index..] == SplitFrom(s, data, spans[index].offset)
    decreases index
  {
    BoundaryMeets(s, data[offset..]);
    if index > 0 {
      var spans := SplitFrom(s, data, offset);
      var length := Boundary(s, data[offset..]);
      SplitDrop(s, data, offset + length, index - 1);
      assert spans[1..][index - 1..] == spans[index..];
    }
  }

  /** Two inputs that end alike and both cut where the common ending starts agree, shifted, from there on. */
  lemma SplitResynchronises(
    s: Settings, left: seq<byte>, right: seq<byte>, suffix: seq<byte>, i: nat, j: nat)
    requires s.sizes.Valid()
    requires i < |Spans(s, left + suffix)| && Spans(s, left + suffix)[i].offset == |left|
    requires j < |Spans(s, right + suffix)| && Spans(s, right + suffix)[j].offset == |right|
    ensures Spans(s, left + suffix)[i..] == Shifted(Spans(s, suffix), |left|)
    ensures Spans(s, right + suffix)[j..] == Shifted(Spans(s, suffix), |right|)
  {
    SplitDrop(s, left + suffix, 0, i);
    SplitDrop(s, right + suffix, 0, j);
    SplitSuffixFrom(s, left, suffix, 0);
    SplitSuffixFrom(s, right, suffix, 0);
  }
}
