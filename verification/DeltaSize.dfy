/** Describing files by their chunks, and how little of a changed file an update has to download. */
module DeltaSize {
  import opened Bytes
  import opened FileStore
  import opened Content
  import opened InstallPlans
  import opened Chunker
  import opened Differ
  import opened Update

  const UINT32: nat := 0x1_0000_0000

  function SpanBytes(data: seq<byte>, span: ChunkSpan): seq<byte>
    requires span.offset + span.length <= |data|
  {
    data[span.offset..span.offset + span.length]
  }

  ghost predicate SpansInside(spans: seq<ChunkSpan>, data: seq<byte>) {
    forall k :: 0 <= k < |spans| ==> spans[k].offset + spans[k].length <= |data|
  }

  function DescribeSpans(hash: Hasher, data: seq<byte>, spans: seq<ChunkSpan>): (r: seq<ManifestChunk>)
    requires SpansInside(spans, data)
    ensures |r| == |spans|
  {
    seq(|spans|, k requires 0 <= k < |spans| =>
      ManifestChunk(hash(SpanBytes(data, spans[k])), spans[k].offset, spans[k].length % UINT32))
  }

  lemma {:induction false} TilesInside(spans: seq<ChunkSpan>, start: nat, stop: nat)
    requires Chunker.Tiles(spans, start, stop)
    ensures start <= stop
    ensures forall k :: 0 <= k < |spans| ==> start <= spans[k].offset && spans[k].offset + spans[k].length <= stop
  {
    if spans != [] {
      TilesInside(spans[1..], start + spans[0].length, stop);
    }
  }

  lemma SpansAreInside(s: Settings, data: seq<byte>)
    requires s.sizes.Valid()
    ensures SpansInside(Spans(s, data), data)
  {
    SplitTiles(s, data);
    TilesInside(Spans(s, data), 0, |data|);
  }

  function Described(hash: Hasher, s: Settings, path: string, data: seq<byte>): ManifestFile
    requires s.sizes.Valid()
  {
    SpansAreInside(s, data);
    ManifestFile(path, |data|, DescribeSpans(hash, data, Spans(s, data)))
  }

  method Describe(chunker: FastCdcChunker, hash: Hasher, path: string, data: seq<byte>) returns (file: ManifestFile)
    requires chunker.settings.sizes.Valid()
    ensures file == Described(hash, chunker.settings, path, data)
  {
    SpansAreInside(chunker.settings, data);
    var spans := chunker.Split(data);
    var chunks: seq<ManifestChunk> := [];
    for k := 0 to |spans|
      invariant chunks == DescribeSpans(hash, data, spans)[..k]
    {
      var slice := data[spans[k].offset..spans[k].offset + spans[k].length];
      assert slice == SpanBytes(data, spans[k]);
      chunks := chunks + [ManifestChunk(hash(slice), spans[k].offset, spans[k].length % UINT32)];
    }
    file := ManifestFile(path, |data|, chunks);
  }

  // ---- A description is sound and truthful

  /** Every length fits the 32 bits a manifest gives it. */
  ghost predicate Short(spans: seq<ChunkSpan>) {
    forall k :: 0 <= k < |spans| ==> spans[k].length < 0x1_0000_0000
  }

  lemma {:induction false} DescribedTiles(hash: Hasher, data: seq<byte>, spans: seq<ChunkSpan>, start: nat, stop: nat)
    requires Chunker.Tiles(spans, start, stop) && SpansInside(spans, data)
    ensures ChunksTile(DescribeSpans(hash, data, spans), start, stop) <==> Short(spans)
    decreases spans
  {
    if spans != [] {
      var rest := spans[1..];
      assert SpansInside(rest, data);
      var chunks := DescribeSpans(hash, data, spans);
      assert chunks[1..] == DescribeSpans(hash, data, rest);
      assert Short(spans) <==> spans[0].length < 0x1_0000_0000 && Short(rest) by {
        assert forall k :: 0 <= k < |rest| ==> rest[k] == spans[k + 1];
        assert Short(rest) && spans[0].length < 0x1_0000_0000 ==> forall k :: 0 <= k < |spans| ==> k == 0 || spans[k] == rest[k - 1];
      }
      if spans[0].length < 0x1_0000_0000 {
        DescribedTiles(hash, data, rest, start + spans[0].length, stop);
      } else {
        CutShortMisses(hash, data, spans, start, stop);
      }
    }
  }

  /** After a length that lost its upper bits the chunks no longer meet. */
  lemma CutShortMisses(hash: Hasher, data: seq<byte>, spans: seq<ChunkSpan>, start: nat, stop: nat)
    requires Chunker.Tiles(spans, start, stop) && SpansInside(spans, data)
    requires spans != [] && spans[0].length >= 0x1_0000_0000
    ensures !ChunksTile(DescribeSpans(hash, data, spans), start, stop)
  {
    var rest := spans[1..];
    var chunks := DescribeSpans(hash, data, spans);
    assert chunks[0].length < spans[0].length;
    if rest != [] {
      assert chunks[1..][0].offset == rest[0].offset;
    }
  }

  lemma DescribedChunk(hash: Hasher, s: Settings, path: string, data: seq<byte>, k: nat)
    requires s.sizes.Valid() && k < |Spans(s, data)|
    ensures SpansInside(Spans(s, data), data)
    ensures
      var span := Spans(s, data)[k];
      Described(hash, s, path, data).chunks[k] == ManifestChunk(hash(SpanBytes(data, span)), span.offset, span.length % 0x1_0000_0000)
  {
    SpansAreInside(s, data);
  }

  /** A description is sound and truthful exactly when no chunk is 2^32 bytes long or longer. */
  lemma DescribedSound(hash: Hasher, s: Settings, path: string, data: seq<byte>)
    requires s.sizes.Valid()
    ensures
      var file := Described(hash, s, path, data);
      ChunksTile(file.chunks, 0, file.size) && Matches(hash, data, file) <==> Short(Spans(s, data))
  {
    SpansAreInside(s, data);
    SplitTiles(s, data);
    DescribedTiles(hash, data, Spans(s, data), 0, |data|);
    var file := Described(hash, s, path, data);
    if Short(Spans(s, data)) {
      forall k | 0 <= k < |file.chunks|
        ensures MatchesChunk(hash, data, file.chunks[k])
      {
        DescribedChunk(hash, s, path, data, k);
      }
    }
  }

  /** A maximum below 2^32 is enough, whatever the bytes. */
  lemma SmallMaximumIsShort(s: Settings, data: seq<byte>)
    requires s.sizes.Valid() && s.sizes.maximum < 0x1_0000_0000
    ensures Short(Spans(s, data))
  {
    SplitTiles(s, data);
  }

  /** Under a minimum of 2^32 or more, bytes of that length up to the minimum are one chunk whose length is lost. */
  lemma WideChunkIsUnsound(hash: Hasher, s: Settings, path: string, data: seq<byte>)
    requires s.sizes.Valid() && 0x1_0000_0000 <= |data| <= s.sizes.minimum
    ensures
      var file := Described(hash, s, path, data);
      !(ChunksTile(file.chunks, 0, file.size) && Matches(hash, data, file))
  {
    var spans := Spans(s, data);
    SplitTiles(s, data);
    TilesInside(spans, 0, |data|);
    assert spans != [] && spans[0].offset == 0;
    if |spans| == 1 {
      LastSpanEnds(spans, 0, |data|);
    }
    assert spans[0].length >= 0x1_0000_0000;
    DescribedSound(hash, s, path, data);
  }

  /** Such sizes are valid, and zeros will do. */
  lemma WideExample(hash: Hasher, gear: GearTable, path: string, size: nat)
    requires size == 0x1_0000_0000
    ensures
      var s := Settings(ChunkSizes(size, size + 1, size + 2, 2, 2), gear);
      && s.sizes.Valid()
      && var file := Described(hash, s, path, Zeros(size));
         !(ChunksTile(file.chunks, 0, file.size) && Matches(hash, Zeros(size), file))
  {
    WideChunkIsUnsound(hash, Settings(ChunkSizes(size, size + 1, size + 2, 2, 2), gear), path, Zeros(size));
  }

  // ---- Remote bytes of a file whose chunks are partly held

  lemma {:induction false} RemoteBytesBound(placements: seq<ChunkPlacement>, start: nat, stop: nat)
    requires InstallPlans.Tiles(placements, start, stop)
    ensures start <= stop && PlacementBytes(placements, Remote) <= stop - start
  {
    TiledBytes(placements, start, stop);
  }

  lemma {:induction false} HeldPrefix(placements: seq<ChunkPlacement>, count: nat, start: nat, stop: nat)
    requires InstallPlans.Tiles(placements, start, stop) && count <= |placements|
    requires forall k :: 0 <= k < count ==> placements[k].source == Held
    ensures
      var from := if count < |placements| then placements[count].targetOffset else stop;
      from <= stop && PlacementBytes(placements, Remote) <= stop - from
  {
    if count == 0 {
      RemoteBytesBound(placements, start, stop);
    } else {
      HeldPrefix(placements[1..], count - 1, start + placements[0].length, stop);
      if count < |placements| {
        assert placements[1..][count - 1] == placements[count];
      }
    }
  }

  lemma {:induction false} HeldSuffix(placements: seq<ChunkPlacement>, from: nat, start: nat, stop: nat)
    requires InstallPlans.Tiles(placements, start, stop) && from < |placements|
    requires forall k :: from <= k < |placements| ==> placements[k].source == Held
    ensures start <= placements[from].targetOffset
    ensures PlacementBytes(placements, Remote) <= placements[from].targetOffset - start
  {
    if from == 0 {
      AllHeld(placements);
    } else {
      HeldSuffix(placements[1..], from - 1, start + placements[0].length, stop);
      assert placements[1..][from - 1] == placements[from];
    }
  }

  lemma {:induction false} AllHeld(placements: seq<ChunkPlacement>)
    requires forall k :: 0 <= k < |placements| ==> placements[k].source == Held
    ensures PlacementBytes(placements, Remote) == 0
  {
    if placements != [] {
      AllHeld(placements[1..]);
    }
  }

  /** A chunk whose digest some held file lists is planned from disk. */
  lemma SharedChunkIsHeld(
    held: ModManifest, root: Path, catalogue: Catalogue, file: ManifestFile, k: nat, other: ManifestFile, j: nat)
    requires k < |file.chunks| && j < |other.chunks| && other in held.files
    requires other.chunks[j].digest == file.chunks[k].digest
    ensures PlanFile(file, IndexFiles(map[], root, held.files), catalogue).placements[k].source == Held
  {
    IndexFilesEntries(map[], root, held.files);
    var i :| 0 <= i < |held.files| && held.files[i] == other;
    assert held.files[i].chunks[j].digest in IndexFiles(map[], root, held.files);
  }

  lemma AppendKeepsChunk(
    hash: Hasher, s: Settings, oldPath: string, newPath: string, data: seq<byte>, more: seq<byte>, k: nat)
    requires s.sizes.Valid() && k + 1 < |Spans(s, data)|
    ensures k < |Spans(s, data + more)|
    ensures Described(hash, s, newPath, data + more).chunks[k].digest == Described(hash, s, oldPath, data).chunks[k].digest
  {
    var spans, grown := Spans(s, data), Spans(s, data + more);
    SplitPrefix(s, data, more);
    assert grown[k] == spans[..|spans| - 1][k];
    DescribedChunk(hash, s, oldPath, data, k);
    DescribedChunk(hash, s, newPath, data + more, k);
    assert SpanBytes(data + more, grown[k]) == SpanBytes(data, spans[k]);
  }

  lemma PlannedTiles(
    hash: Hasher, s: Settings, path: string, data: seq<byte>, index: HeldIndex, catalogue: Catalogue)
    requires s.sizes.Valid() && Short(Spans(s, data))
    ensures
      var placements := PlanFile(Described(hash, s, path, data), index, catalogue).placements;
      && |placements| == |Spans(s, data)|
      && InstallPlans.Tiles(placements, 0, |data|)
      && forall k :: 0 <= k < |placements| ==> placements[k].targetOffset == Spans(s, data)[k].offset
  {
    SpansAreInside(s, data);
    DescribedSound(hash, s, path, data);
    PlacementsTile(Described(hash, s, path, data).chunks, index, catalogue, 0, |data|);
  }

  /** Where the last chunk of the bytes begins. */
  function LastCut(s: Settings, data: seq<byte>): (r: nat)
    requires s.sizes.Valid()
    ensures r <= |data| && |data| - r <= s.sizes.maximum
    ensures data != [] ==> |Spans(s, data)| > 0 && r == Spans(s, data)[|Spans(s, data)| - 1].offset
  {
    SplitTiles(s, data);
    if data == [] then 0
    else
      LastSpanEnds(Spans(s, data), 0, |data|);
      Spans(s, data)[|Spans(s, data)| - 1].offset
  }

  /** Appending to a held file costs at most what follows its last cut: the appended bytes and one old chunk. */
  lemma AppendDownloadsOnlyTheTail(
    hash: Hasher, s: Settings, held: ModManifest, root: Path, catalogue: Catalogue,
    oldPath: string, newPath: string, data: seq<byte>, more: seq<byte>)
    requires s.sizes.Valid() && Short(Spans(s, data + more))
    requires Described(hash, s, oldPath, data) in held.files
    ensures
      var plan := PlanFile(Described(hash, s, newPath, data + more), IndexFiles(map[], root, held.files), catalogue);
      PlacementBytes(plan.placements, Remote) <= |data + more| - LastCut(s, data)
  {
    var index := IndexFiles(map[], root, held.files);
    var updated := Described(hash, s, newPath, data + more);
    var placements := PlanFile(updated, index, catalogue).placements;
    PlannedTiles(hash, s, newPath, data + more, index, catalogue);
    if data == [] {
      RemoteBytesBound(placements, 0, |data + more|);
    } else {
      SplitPrefix(s, data, more);
      SplitTiles(s, data);
      SplitTiles(s, data + more);
      var count := |Spans(s, data)| - 1;
      forall k | 0 <= k < count
        ensures placements[k].source == Held
      {
        AppendKeepsChunk(hash, s, oldPath, newPath, data, more, k);
        SharedChunkIsHeld(held, root, catalogue, updated, k, Described(hash, s, oldPath, data), k);
      }
      HeldPrefix(placements, count, 0, |data + more|);
      SpansMeet(Spans(s, data), Spans(s, data + more), count, |data|, |data + more|);
    }
  }

  lemma {:induction false} LastSpanEnds(spans: seq<ChunkSpan>, start: nat, stop: nat)
    requires Chunker.Tiles(spans, start, stop) && spans != []
    ensures spans[|spans| - 1].offset + spans[|spans| - 1].length == stop
  {
    if |spans| > 1 {
      LastSpanEnds(spans[1..], start + spans[0].length, stop);
    }
  }

  lemma {:induction false} TileStart(spans: seq<ChunkSpan>, count: nat, start: nat, stop: nat)
    requires Chunker.Tiles(spans, start, stop) && count < |spans|
    ensures spans[count].offset == if count == 0 then start else spans[count - 1].offset + spans[count - 1].length
  {
    if count > 0 {
      TileStart(spans[1..], count - 1, start + spans[0].length, stop);
    }
  }

  /** After a common prefix two tilings go on from the same offset. */
  lemma SpansMeet(a: seq<ChunkSpan>, b: seq<ChunkSpan>, count: nat, stopA: nat, stopB: nat)
    requires Chunker.Tiles(a, 0, stopA) && Chunker.Tiles(b, 0, stopB)
    requires count < |a| && a[..count] <= b && stopA <= stopB && stopA > 0
    ensures count < |b| ==> b[count].offset == a[count].offset
    ensures count == |b| ==> stopB == a[count].offset
  {
    TileStart(a, count, 0, stopA);
    if count > 0 {
      assert a[..count][count - 1] == b[count - 1];
    }
    if count < |b| {
      TileStart(b, count, 0, stopB);
    } else if count > 0 {
      LastSpanEnds(b, 0, stopB);
    }
  }

  lemma ShiftedBytes(front: seq<byte>, ending: seq<byte>, span: ChunkSpan, shared: ChunkSpan)
    requires span == ChunkSpan(|front| + shared.offset, shared.length) && shared.offset + shared.length <= |ending|
    ensures SpanBytes(front + ending, span) == SpanBytes(ending, shared)
  {
  }

  lemma SharedEndingChunk(
    hash: Hasher, s: Settings, oldPath: string, newPath: string,
    before: seq<byte>, after: seq<byte>, ending: seq<byte>, i: nat, j: nat, n: nat)
    requires s.sizes.Valid()
    requires i < |Spans(s, before + ending)| && Spans(s, before + ending)[i].offset == |before|
    requires j < |Spans(s, after + ending)| && Spans(s, after + ending)[j].offset == |after|
    requires j + n < |Spans(s, after + ending)|
    ensures i + n < |Spans(s, before + ending)|
    ensures Described(hash, s, newPath, after + ending).chunks[j + n].digest
         == Described(hash, s, oldPath, before + ending).chunks[i + n].digest
  {
    var a, b, shared := Spans(s, before + ending), Spans(s, after + ending), Spans(s, ending);
    SplitResynchronises(s, before, after, ending, i, j);
    SpansAreInside(s, ending);
    assert b[j..][n] == Shifted(shared, |after|)[n] && a[i..][n] == Shifted(shared, |before|)[n];
    DescribedChunk(hash, s, oldPath, before + ending, i + n);
    DescribedChunk(hash, s, newPath, after + ending, j + n);
    ShiftedBytes(after, ending, b[j + n], shared[n]);
    ShiftedBytes(before, ending, a[i + n], shared[n]);
  }

  /** When old and new file cut at the start of a common ending, only what precedes it is downloaded. */
  lemma SharedEndingIsNotDownloaded(
    hash: Hasher, s: Settings, held: ModManifest, root: Path, catalogue: Catalogue,
    oldPath: string, newPath: string, before: seq<byte>, after: seq<byte>, ending: seq<byte>, i: nat, j: nat)
    requires s.sizes.Valid() && Short(Spans(s, after + ending))
    requires Described(hash, s, oldPath, before + ending) in held.files
    requires i < |Spans(s, before + ending)| && Spans(s, before + ending)[i].offset == |before|
    requires j < |Spans(s, after + ending)| && Spans(s, after + ending)[j].offset == |after|
    ensures
      var plan := PlanFile(Described(hash, s, newPath, after + ending), IndexFiles(map[], root, held.files), catalogue);
      PlacementBytes(plan.placements, Remote) <= |after|
  {
    var index := IndexFiles(map[], root, held.files);
    var updated := Described(hash, s, newPath, after + ending);
    var placements := PlanFile(updated, index, catalogue).placements;
    PlannedTiles(hash, s, newPath, after + ending, index, catalogue);
    forall k | j <= k < |placements|
      ensures placements[k].source == Held
    {
      SharedEndingChunk(hash, s, oldPath, newPath, before, after, ending, i, j, k - j);
      SharedChunkIsHeld(held, root, catalogue, updated, k, Described(hash, s, oldPath, before + ending), i + (k - j));
    }
    HeldSuffix(placements, j, 0, |after + ending|);
  }
}
