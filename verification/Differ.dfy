/** Planning an update from what is already held. */
module Differ {
  import opened Sequences
  import opened Wrappers
  import opened Bytes
  import opened FileStore
  import opened Content

  type HeldIndex = map<Digest, HeldLocation>
  type Catalogue = Digest -> Option<HeldLocation>

  // ---- Index of held chunks

  function IndexChunks(index: HeldIndex, file: Path, chunks: seq<ManifestChunk>): HeldIndex
    decreases chunks
  {
    if chunks == [] then index
    else
      var chunk := chunks[0];
      var next := if chunk.digest in index then index else index[chunk.digest := HeldLocation(file, chunk.offset, chunk.length)];
      IndexChunks(next, file, chunks[1..])
  }

  function IndexFiles(index: HeldIndex, root: Path, files: seq<ManifestFile>): HeldIndex
    decreases files
  {
    if files == [] then index
    else IndexFiles(IndexChunks(index, Join(root, files[0].path), files[0].chunks), root, files[1..])
  }

  method IndexHeldChunks(held: ModManifest, root: Path) returns (index: HeldIndex)
    ensures index == IndexFiles(map[], root, held.files)
  {
    index := map[];
    for i := 0 to |held.files|
      invariant IndexFiles(map[], root, held.files) == IndexFiles(index, root, held.files[i..])
    {
      var file := held.files[i];
      ghost var start := index;
      for j := 0 to |file.chunks|
        invariant IndexChunks(start, Join(root, file.path), file.chunks)
               == IndexChunks(index, Join(root, file.path), file.chunks[j..])
      {
        var chunk := file.chunks[j];
        if chunk.digest !in index {
          index := index[chunk.digest := HeldLocation(Join(root, file.path), chunk.offset, chunk.length)];
        }
      }
    }
  }

  /** The location is a chunk of one of the files, under the digest it is filed by. */
  ghost predicate HoldsChunk(root: Path, files: seq<ManifestFile>, digest: Digest, location: HeldLocation) {
    exists i, j ::
      && 0 <= i < |files|
      && 0 <= j < |files[i].chunks|
      && files[i].chunks[j] == ManifestChunk(digest, location.offset, location.length)
      && location.file == Join(root, files[i].path)
  }

  lemma {:induction false} IndexChunksEntries(index: HeldIndex, file: Path, chunks: seq<ManifestChunk>)
    ensures
      var r := IndexChunks(index, file, chunks);
      && (forall d :: d in index ==> d in r && r[d] == index[d])
      && (forall k :: 0 <= k < |chunks| ==> chunks[k].digest in r)
      && (forall d :: d in r && d !in index ==>
            exists k :: 0 <= k < |chunks| && chunks[k] == ManifestChunk(d, r[d].offset, r[d].length) && r[d].file == file)
    decreases chunks
  {
    if chunks != [] {
      var chunk := chunks[0];
      var next := if chunk.digest in index then index else index[chunk.digest := HeldLocation(file, chunk.offset, chunk.length)];
      IndexChunksEntries(next, file, chunks[1..]);
      var r := IndexChunks(index, file, chunks);
      forall d | d in r && d !in index
        ensures exists k :: 0 <= k < |chunks| && chunks[k] == ManifestChunk(d, r[d].offset, r[d].length) && r[d].file == file
      {
        if d in next {
          assert chunks[0] == ManifestChunk(d, r[d].offset, r[d].length);
        } else {
          var k :| 0 <= k < |chunks[1..]| && chunks[1..][k] == ManifestChunk(d, r[d].offset, r[d].length);
          assert chunks[k + 1] == ManifestChunk(d, r[d].offset, r[d].length);
        }
      }
    }
  }

  /** The index files exactly the digests of held chunks, each under a chunk that carries it. */
  lemma {:induction false} IndexFilesEntries(index: HeldIndex, root: Path, files: seq<ManifestFile>)
    ensures
      var r := IndexFiles(index, root, files);
      && (forall d :: d in index ==> d in r && r[d] == index[d])
      && (forall i, j :: 0 <= i < |files| && 0 <= j < |files[i].chunks| ==> files[i].chunks[j].digest in r)
      && (forall d :: d in r && d !in index ==> HoldsChunk(root, files, d, r[d]))
    decreases files
  {
    if files != [] {
      var file := Join(root, files[0].path);
      var next := IndexChunks(index, file, files[0].chunks);
      IndexChunksEntries(index, file, files[0].chunks);
      IndexFilesEntries(next, root, files[1..]);
      var r := IndexFiles(index, root, files);
      forall d | d in r && d !in index
        ensures HoldsChunk(root, files, d, r[d])
      {
        if d in next {
          var k :| 0 <= k < |files[0].chunks| && files[0].chunks[k] == ManifestChunk(d, r[d].offset, r[d].length);
          assert files[0].chunks[k] == ManifestChunk(d, r[d].offset, r[d].length);
        } else {
          var i, j :| 0 <= i < |files[1..]| && 0 <= j < |files[1..][i].chunks|
            && files[1..][i].chunks[j] == ManifestChunk(d, r[d].offset, r[d].length)
            && r[d].file == Join(root, files[1..][i].path);
          assert files[i + 1].chunks[j] == ManifestChunk(d, r[d].offset, r[d].length);
        }
      }
      forall i, j | 0 <= i < |files| && 0 <= j < |files[i].chunks|
        ensures files[i].chunks[j].digest in r
      {
        if i > 0 {
          assert files[1..][i - 1].chunks[j].digest in r;
        }
      }
    }
  }

  // ---- Placing chunks

  function FindFile(files: seq<ManifestFile>, path: string): (r: Option<ManifestFile>)
    ensures r.Some? ==> r.value in files && r.value.path == path
    ensures r.None? ==> forall i :: 0 <= i < |files| ==> files[i].path != path
  {
    if files == [] then None
    else if files[0].path == path then Some(files[0])
    else FindFile(files[1..], path)
  }

  predicate FileUnchanged(held: ModManifest, file: ManifestFile) {
    FindFile(held.files, file.path) == Some(file)
  }

  predicate Listed(files: seq<ManifestFile>, path: string) {
    FindFile(files, path).Some?
  }

  function Place(chunk: ManifestChunk, index: HeldIndex, catalogue: Catalogue): (p: ChunkPlacement)
    ensures p.digest == chunk.digest && p.targetOffset == chunk.offset && p.length == chunk.length
  {
    if chunk.digest in index then
      ChunkPlacement(chunk.digest, chunk.offset, chunk.length, Held, index[chunk.digest].file, index[chunk.digest].offset)
    else
      match catalogue(chunk.digest)
      case Some(location) =>
        if location.length == chunk.length then
          ChunkPlacement(chunk.digest, chunk.offset, chunk.length, Held, location.file, location.offset)
        else
          ChunkPlacement(chunk.digest, chunk.offset, chunk.length, Remote, "", 0)
      case None =>
        ChunkPlacement(chunk.digest, chunk.offset, chunk.length, Remote, "", 0)
  }

  function PlaceAll(chunks: seq<ManifestChunk>, index: HeldIndex, catalogue: Catalogue): (r: seq<ChunkPlacement>)
    ensures |r| == |chunks|
  {
    seq(|chunks|, k requires 0 <= k < |chunks| => Place(chunks[k], index, catalogue))
  }

  function PlanFile(file: ManifestFile, index: HeldIndex, catalogue: Catalogue): FilePlan {
    FilePlan(file.path, file.size, PlaceAll(file.chunks, index, catalogue))
  }

  function PlanFiles(held: ModManifest, files: seq<ManifestFile>, index: HeldIndex, catalogue: Catalogue): seq<FilePlan> {
    if files == [] then []
    else if FileUnchanged(held, files[0]) then PlanFiles(held, files[1..], index, catalogue)
    else [PlanFile(files[0], index, catalogue)] + PlanFiles(held, files[1..], index, catalogue)
  }

  function Removals(files: seq<ManifestFile>, target: seq<ManifestFile>): seq<string> {
    if files == [] then []
    else (if Listed(target, files[0].path) then [] else [files[0].path]) + Removals(files[1..], target)
  }

  function DiffPlan(held: ModManifest, heldRoot: Path, target: ModManifest, catalogue: Catalogue): InstallPlan {
    InstallPlan(
      PlanFiles(held, target.files, IndexFiles(map[], heldRoot, held.files), catalogue),
      Removals(held.files, target.files))
  }

  method PlaceChunksOf(file: ManifestFile, index: HeldIndex, catalogue: Catalogue) returns (placements: seq<ChunkPlacement>)
    ensures placements == PlaceAll(file.chunks, index, catalogue)
  {
    placements := [];
    for j := 0 to |file.chunks|
      invariant placements == PlaceAll(file.chunks, index, catalogue)[..j]
    {
      placements := placements + [Place(file.chunks[j], index, catalogue)];
    }
  }

  lemma RemovalsStep(files: seq<ManifestFile>, target: seq<ManifestFile>, i: nat, removals: seq<string>)
    requires i < |files|
    ensures removals + Removals(files[i..], target)
         == removals + (if Listed(target, files[i].path) then [] else [files[i].path]) + Removals(files[i + 1..], target)
  {
    assert files[i..][0] == files[i] && files[i..][1..] == files[i + 1..];
    Regroup(removals, if Listed(target, files[i].path) then [] else [files[i].path], Removals(files[i + 1..], target));
  }

  lemma PlanFilesStep(
    held: ModManifest, files: seq<ManifestFile>, i: nat, index: HeldIndex, catalogue: Catalogue, planned: seq<FilePlan>)
    requires i < |files|
    ensures planned + PlanFiles(held, files[i..], index, catalogue)
         == planned + (if FileUnchanged(held, files[i]) then [] else [PlanFile(files[i], index, catalogue)])
            + PlanFiles(held, files[i + 1..], index, catalogue)
  {
    assert files[i..][0] == files[i] && files[i..][1..] == files[i + 1..];
    Regroup(planned, if FileUnchanged(held, files[i]) then [] else [PlanFile(files[i], index, catalogue)],
            PlanFiles(held, files[i + 1..], index, catalogue));
  }

  /** The changed and new files, in the target's order. */
  method PlanChanged(held: ModManifest, target: ModManifest, index: HeldIndex, catalogue: Catalogue) returns (files: seq<FilePlan>)
    ensures files == PlanFiles(held, target.files, index, catalogue)
  {
    files := [];
    for i := 0 to |target.files|
      invariant PlanFiles(held, target.files, index, catalogue) == files + PlanFiles(held, target.files[i..], index, catalogue)
    {
      var file := target.files[i];
      PlanFilesStep(held, target.files, i, index, catalogue, files);
      if FileUnchanged(held, file) {
        assert files + [] == files;
        continue;
      }
      var placements := PlaceChunksOf(file, index, catalogue);
      files := files + [FilePlan(file.path, file.size, placements)];
    }
  }

  /** The held paths the target lacks. */
  method ListRemovals(held: ModManifest, target: ModManifest) returns (removals: seq<string>)
    ensures removals == Removals(held.files, target.files)
  {
    removals := [];
    for i := 0 to |held.files|
      invariant Removals(held.files, target.files) == removals + Removals(held.files[i..], target.files)
    {
      RemovalsStep(held.files, target.files, i, removals);
      if !Listed(target.files, held.files[i].path) {
        removals := removals + [held.files[i].path];
      } else {
        assert removals + [] == removals;
      }
    }
  }

  method Diff(held: ModManifest, heldRoot: Path, target: ModManifest, catalogue: Catalogue) returns (plan: InstallPlan)
    ensures plan == DiffPlan(held, heldRoot, target, catalogue)
  {
    var index := IndexHeldChunks(held, heldRoot);
    var files := PlanChanged(held, target, index, catalogue);
    var removals := ListRemovals(held, target);
    plan := InstallPlan(files, removals);
  }

  // ---- What a plan covers

  /** The changed target file a planned file comes from. */
  lemma PlanComesFrom(held: ModManifest, files: seq<ManifestFile>, index: HeldIndex, catalogue: Catalogue, p: FilePlan) returns (f: ManifestFile)
    requires p in PlanFiles(held, files, index, catalogue)
    ensures f in files && !FileUnchanged(held, f) && p == PlanFile(f, index, catalogue)
    decreases files
  {
    if !FileUnchanged(held, files[0]) && p == PlanFile(files[0], index, catalogue) {
      f := files[0];
    } else {
      f := PlanComesFrom(held, files[1..], index, catalogue, p);
    }
  }

  lemma ChangedIsPlanned(held: ModManifest, files: seq<ManifestFile>, index: HeldIndex, catalogue: Catalogue, f: ManifestFile)
    requires f in files && !FileUnchanged(held, f)
    ensures PlanFile(f, index, catalogue) in PlanFiles(held, files, index, catalogue)
    decreases files
  {
    if f != files[0] {
      ChangedIsPlanned(held, files[1..], index, catalogue, f);
    }
  }

  /** Each planned file is a changed target file, placed chunk by chunk; every changed file is planned. */
  lemma PlanFilesCover(held: ModManifest, files: seq<ManifestFile>, index: HeldIndex, catalogue: Catalogue)
    ensures
      var plans := PlanFiles(held, files, index, catalogue);
      && (forall p :: p in plans ==> exists f :: f in files && !FileUnchanged(held, f) && p == PlanFile(f, index, catalogue))
      && (forall f :: f in files && !FileUnchanged(held, f) ==> PlanFile(f, index, catalogue) in plans)
  {
    forall p | p in PlanFiles(held, files, index, catalogue)
      ensures exists f :: f in files && !FileUnchanged(held, f) && p == PlanFile(f, index, catalogue)
    {
      var f := PlanComesFrom(held, files, index, catalogue, p);
    }
    forall f | f in files && !FileUnchanged(held, f)
      ensures PlanFile(f, index, catalogue) in PlanFiles(held, files, index, catalogue)
    {
      ChangedIsPlanned(held, files, index, catalogue, f);
    }
  }

  lemma {:induction false} RemovalsCover(files: seq<ManifestFile>, target: seq<ManifestFile>)
    ensures forall path :: path in Removals(files, target) <==> Listed(files, path) && !Listed(target, path)
  {
    if files != [] {
      RemovalsCover(files[1..], target);
    }
  }

  ghost predicate DistinctFiles(files: seq<ManifestFile>) {
    forall i, j :: 0 <= i < j < |files| ==> files[i].path != files[j].path
  }

  ghost predicate DistinctPlans(plans: seq<FilePlan>) {
    forall i, j :: 0 <= i < j < |plans| ==> plans[i].path != plans[j].path
  }

  // ---- What counts as unchanged

  /** The first held file of that path is this very file. */
  ghost predicate HeldFirst(files: seq<ManifestFile>, file: ManifestFile) {
    exists i :: 0 <= i < |files| && files[i] == file && forall k :: 0 <= k < i ==> files[k].path != file.path
  }

  lemma {:induction false} FoundExactly(files: seq<ManifestFile>, file: ManifestFile)
    ensures FindFile(files, file.path) == Some(file) <==> HeldFirst(files, file)
  {
    if files != [] {
      FoundExactly(files[1..], file);
      if HeldFirst(files[1..], file) && files[0].path != file.path {
        var i :| 0 <= i < |files[1..]| && files[1..][i] == file && forall k :: 0 <= k < i ==> files[1..][k].path != file.path;
        assert files[i + 1] == file;
        forall k | 0 <= k < i + 1
          ensures files[k].path != file.path
        {
          assert k > 0 ==> files[k] == files[1..][k - 1];
        }
      }
      if HeldFirst(files, file) && files[0].path != file.path {
        var i :| 0 <= i < |files| && files[i] == file && forall k :: 0 <= k < i ==> files[k].path != file.path;
        assert files[1..][i - 1] == file;
        assert forall k :: 0 <= k < i - 1 ==> files[1..][k] == files[k + 1];
      }
    }
  }

  /** With distinct held paths a file is unchanged exactly when it is among the held files. */
  lemma UnchangedExactly(held: ModManifest, file: ManifestFile)
    requires DistinctFiles(held.files)
    ensures FileUnchanged(held, file) <==> file in held.files
  {
    FoundExactly(held.files, file);
  }

  /** The paths an update touches: those of target files that are not held as they are. */
  lemma PlannedExactly(held: ModManifest, root: Path, target: ModManifest, catalogue: Catalogue, path: string)
    requires DistinctFiles(held.files)
    ensures (exists p :: p in DiffPlan(held, root, target, catalogue).files && p.path == path) <==>
      (exists f :: f in target.files && f.path == path && f !in held.files)
  {
    var index := IndexFiles(map[], root, held.files);
    var plans := PlanFiles(held, target.files, index, catalogue);
    if p :| p in plans && p.path == path {
      var f := PlanComesFrom(held, target.files, index, catalogue, p);
      UnchangedExactly(held, f);
    }
    if f :| f in target.files && f.path == path && f !in held.files {
      UnchangedExactly(held, f);
      ChangedIsPlanned(held, target.files, index, catalogue, f);
    }
  }

  lemma {:induction false} NothingRemoved(files: seq<ManifestFile>, target: seq<ManifestFile>)
    ensures Removals(files, target) == [] <==> forall f :: f in files ==> exists g :: g in target && g.path == f.path
  {
    if files != [] {
      NothingRemoved(files[1..], target);
      assert files[0] in files;
      assert Listed(target, files[0].path) <==> exists g :: g in target && g.path == files[0].path;
    }
  }

  lemma {:induction false} NothingPlanned(held: ModManifest, files: seq<ManifestFile>, index: HeldIndex, catalogue: Catalogue)
    requires DistinctFiles(held.files)
    ensures PlanFiles(held, files, index, catalogue) == [] <==> forall f :: f in files ==> f in held.files
  {
    if files != [] {
      UnchangedExactly(held, files[0]);
      NothingPlanned(held, files[1..], index, catalogue);
      assert files[0] in files;
    }
  }

  /** There is nothing to do exactly when every target file is held as it is and no held path is missing from the target. */
  lemma UpToDateExactly(held: ModManifest, root: Path, target: ModManifest, catalogue: Catalogue)
    requires DistinctFiles(held.files)
    ensures DiffPlan(held, root, target, catalogue) == InstallPlan([], []) <==>
      && (forall f :: f in target.files ==> f in held.files)
      && (forall f :: f in held.files ==> exists g :: g in target.files && g.path == f.path)
  {
    NothingPlanned(held, target.files, IndexFiles(map[], root, held.files), catalogue);
    NothingRemoved(held.files, target.files);
  }

  /** A mod compared with itself is up to date. */
  lemma SameIsUpToDate(m: ModManifest, root: Path, catalogue: Catalogue)
    requires DistinctFiles(m.files)
    ensures DiffPlan(m, root, m, catalogue) == InstallPlan([], [])
  {
    UpToDateExactly(m, root, m, catalogue);
  }

  lemma {:induction false} PlanFilesDistinct(
    held: ModManifest, files: seq<ManifestFile>, index: HeldIndex, catalogue: Catalogue)
    requires DistinctFiles(files)
    ensures DistinctPlans(PlanFiles(held, files, index, catalogue))
  {
    if files != [] {
      var rest := PlanFiles(held, files[1..], index, catalogue);
      PlanFilesDistinct(held, files[1..], index, catalogue);
      PlanFilesCover(held, files[1..], index, catalogue);
      forall k | 0 <= k < |rest|
        ensures rest[k].path != files[0].path
      {
        assert rest[k] in rest;
      }
    }
  }

  // ---- Where each chunk of a planned file comes from

  /** The first chunk with the digest, file by file and chunk by chunk. */
  ghost predicate FirstHolder(files: seq<ManifestFile>, digest: Digest, i: nat, j: nat) {
    && i < |files| && j < |files[i].chunks|
    && files[i].chunks[j].digest == digest
    && (forall b :: 0 <= b < j ==> files[i].chunks[b].digest != digest)
    && forall a, b :: 0 <= a < i && 0 <= b < |files[a].chunks| ==> files[a].chunks[b].digest != digest
  }

  ghost predicate NoHolder(files: seq<ManifestFile>, digest: Digest) {
    forall a, b :: 0 <= a < |files| && 0 <= b < |files[a].chunks| ==> files[a].chunks[b].digest != digest
  }

  lemma {:induction false} FirstOfChunks(index: HeldIndex, file: Path, chunks: seq<ManifestChunk>, j: nat)
    requires j < |chunks| && chunks[j].digest !in index
    requires forall b :: 0 <= b < j ==> chunks[b].digest != chunks[j].digest
    ensures
      var r := IndexChunks(index, file, chunks);
      chunks[j].digest in r && r[chunks[j].digest] == HeldLocation(file, chunks[j].offset, chunks[j].length)
    decreases j
  {
    var chunk := chunks[0];
    var next := if chunk.digest in index then index else index[chunk.digest := HeldLocation(file, chunk.offset, chunk.length)];
    if j == 0 {
      IndexChunksEntries(next, file, chunks[1..]);
    } else {
      assert chunks[1..][j - 1] == chunks[j];
      FirstOfChunks(next, file, chunks[1..], j - 1);
    }
  }

  lemma {:induction false} FirstOfFiles(index: HeldIndex, root: Path, files: seq<ManifestFile>, digest: Digest, i: nat, j: nat)
    requires FirstHolder(files, digest, i, j) && digest !in index
    ensures
      var r := IndexFiles(index, root, files);
      var chunk := files[i].chunks[j];
      digest in r && r[digest] == HeldLocation(Join(root, files[i].path), chunk.offset, chunk.length)
    decreases i
  {
    var file := Join(root, files[0].path);
    var next := IndexChunks(index, file, files[0].chunks);
    if i == 0 {
      FirstOfChunks(index, file, files[0].chunks, j);
      IndexFilesEntries(next, root, files[1..]);
    } else {
      IndexChunksEntries(index, file, files[0].chunks);
      assert files[1..][i - 1] == files[i];
      assert forall a :: 0 <= a < i - 1 ==> files[1..][a] == files[a + 1];
      FirstOfFiles(next, root, files[1..], digest, i - 1, j);
    }
  }

  lemma NotIndexed(root: Path, files: seq<ManifestFile>, digest: Digest)
    requires NoHolder(files, digest)
    ensures digest !in IndexFiles(map[], root, files)
  {
    IndexFilesEntries(map[], root, files);
  }

  /**
   * Taken from the first held chunk with the digest; without one, from the place the catalogue gives, when that is as
   * long; and from a peer otherwise.
   */
  ghost predicate TakenFrom(held: ModManifest, root: Path, catalogue: Catalogue, chunk: ManifestChunk, p: ChunkPlacement) {
    && (forall i: nat, j: nat :: FirstHolder(held.files, chunk.digest, i, j) ==>
      p == ChunkPlacement(
        chunk.digest, chunk.offset, chunk.length, Held, root + "/" + held.files[i].path, held.files[i].chunks[j].offset))
    && (NoHolder(held.files, chunk.digest) ==>
      match catalogue(chunk.digest)
      case Some(l) =>
        if l.length == chunk.length then p == ChunkPlacement(chunk.digest, chunk.offset, chunk.length, Held, l.file, l.offset)
        else p == ChunkPlacement(chunk.digest, chunk.offset, chunk.length, Remote, "", 0)
      case None => p == ChunkPlacement(chunk.digest, chunk.offset, chunk.length, Remote, "", 0))
  }

  lemma PlacedFrom(held: ModManifest, root: Path, catalogue: Catalogue, chunk: ManifestChunk)
    ensures TakenFrom(held, root, catalogue, chunk, Place(chunk, IndexFiles(map[], root, held.files), catalogue))
  {
    forall i: nat, j: nat | FirstHolder(held.files, chunk.digest, i, j)
      ensures
        var index := IndexFiles(map[], root, held.files);
        chunk.digest in index
        && index[chunk.digest] == HeldLocation(
          root + "/" + held.files[i].path, held.files[i].chunks[j].offset, held.files[i].chunks[j].length)
    {
      FirstOfFiles(map[], root, held.files, chunk.digest, i, j);
    }
    if NoHolder(held.files, chunk.digest) {
      NotIndexed(root, held.files, chunk.digest);
    }
  }

  /** A planned file is the plan of a target file: same size, and every chunk in its place, taken from where it should be. */
  ghost predicate PlansFile(held: ModManifest, root: Path, catalogue: Catalogue, f: ManifestFile, p: FilePlan) {
    && p.path == f.path && p.size == f.size && |p.placements| == |f.chunks|
    && forall k :: 0 <= k < |f.chunks| ==> TakenFrom(held, root, catalogue, f.chunks[k], p.placements[k])
  }

  lemma PlacedExactly(held: ModManifest, root: Path, target: ModManifest, catalogue: Catalogue, p: FilePlan)
    requires p in DiffPlan(held, root, target, catalogue).files
    ensures exists f :: f in target.files && PlansFile(held, root, catalogue, f, p)
  {
    var index := IndexFiles(map[], root, held.files);
    var f := PlanComesFrom(held, target.files, index, catalogue, p);
    forall k | 0 <= k < |f.chunks|
      ensures TakenFrom(held, root, catalogue, f.chunks[k], p.placements[k])
    {
      PlacedFrom(held, root, catalogue, f.chunks[k]);
    }
  }
}
