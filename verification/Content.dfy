/** Manifests and install plans. */
module Content {
  import opened Bytes
  import opened FileStore

  type Hasher = seq<byte> -> Digest

  datatype ManifestChunk = ManifestChunk(digest: Digest, offset: nat, length: nat)

  datatype ManifestFile = ManifestFile(path: string, size: nat, chunks: seq<ManifestChunk>)

  datatype ModManifest = ModManifest(
    publisher: Fingerprint,
    modName: string,
    version: nat,
    files: seq<ManifestFile>,
    description: string)

  datatype HeldLocation = HeldLocation(file: Path, offset: nat, length: nat)

  datatype SourceKind = Held | Remote

  datatype ChunkPlacement = ChunkPlacement(
    digest: Digest,
    targetOffset: nat,
    length: nat,
    source: SourceKind,
    heldFile: Path,
    heldOffset: nat)

  datatype FilePlan = FilePlan(path: string, size: nat, placements: seq<ChunkPlacement>)

  datatype InstallPlan = InstallPlan(files: seq<FilePlan>, removals: seq<string>)

  datatype ChunkSpan = ChunkSpan(offset: nat, length: nat)

  /** Chunks lie end to end from `start` to `stop`, none empty. */
  ghost predicate ChunksTile(chunks: seq<ManifestChunk>, start: nat, stop: nat) {
    if chunks == [] then start == stop
    else chunks[0].offset == start && chunks[0].length > 0 && ChunksTile(chunks[1..], start + chunks[0].length, stop)
  }
}

/** Byte totals and layout of an install plan. */
module InstallPlans {
  import opened Content

  function PlacementBytes(placements: seq<ChunkPlacement>, kind: SourceKind): nat {
    if placements == [] then 0
    else (if placements[0].source == kind then placements[0].length else 0) + PlacementBytes(placements[1..], kind)
  }

  function PlanBytes(files: seq<FilePlan>, kind: SourceKind): nat {
    if files == [] then 0 else PlacementBytes(files[0].placements, kind) + PlanBytes(files[1..], kind)
  }

  method CountBytes(files: seq<FilePlan>, kind: SourceKind) returns (total: nat)
    ensures total == PlanBytes(files, kind)
  {
    total := 0;
    for i := 0 to |files|
      invariant PlanBytes(files, kind) == total + PlanBytes(files[i..], kind)
    {
      var placements := files[i].placements;
      ghost var start := total;
      for j := 0 to |placements|
        invariant start + PlacementBytes(placements, kind) == total + PlacementBytes(placements[j..], kind)
      {
        if placements[j].source == kind {
          total := total + placements[j].length;
        }
      }
    }
  }

  /** Placements lie end to end from `start` to `stop`, none empty. */
  ghost predicate Tiles(placements: seq<ChunkPlacement>, start: nat, stop: nat) {
    if placements == [] then start == stop
    else
      && placements[0].targetOffset == start
      && placements[0].length > 0
      && Tiles(placements[1..], start + placements[0].length, stop)
  }

  lemma {:induction false} TilesRange(placements: seq<ChunkPlacement>, start: nat, stop: nat)
    requires Tiles(placements, start, stop)
    ensures start <= stop
    ensures forall k :: 0 <= k < |placements| ==>
      start <= placements[k].targetOffset && 0 < placements[k].length && placements[k].targetOffset + placements[k].length <= stop
    ensures forall j, k :: 0 <= j < k < |placements| ==>
      placements[j].targetOffset + placements[j].length <= placements[k].targetOffset
  {
    if placements != [] {
      TilesRange(placements[1..], start + placements[0].length, stop);
    }
  }

  /** Held and remote bytes of a tiled file add up to its size. */
  lemma {:induction false} TiledBytes(placements: seq<ChunkPlacement>, start: nat, stop: nat)
    requires Tiles(placements, start, stop)
    ensures start + PlacementBytes(placements, Held) + PlacementBytes(placements, Remote) == stop
  {
    if placements != [] {
      TiledBytes(placements[1..], start + placements[0].length, stop);
    }
  }
}
