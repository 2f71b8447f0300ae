/** The whole way of an update: compare, stage, fetch in place, finish. */
module FetchedUpdate {
  import opened Wrappers
  import opened Bytes
  import opened FileStore
  import opened Content
  import opened Installer
  import opened Differ
  import opened Assembly
  import opened Update
  import opened ChunkLocator
  import opened FetchRun
  import opened PlacedInstall

  // ---- The fast form asks no source

  function From(env: Env, source: ChunkSource): Env {
    env.(source := source)
  }

  lemma PlaceNeedsNoSource(env: Env, source: ChunkSource, target: Path, p: ChunkPlacement, s: Progress)
    ensures PlaceChunk(env, target, p, true, s) == PlaceChunk(From(env, source), target, p, true, s)
  {
  }

  lemma {:induction false} PlacingNeedsNoSource(env: Env, source: ChunkSource, target: Path, placements: seq<ChunkPlacement>, s: Progress)
    ensures PlaceChunks(env, target, placements, true, s) == PlaceChunks(From(env, source), target, placements, true, s)
    decreases placements
  {
    if placements != [] && s.error.None? {
      PlaceNeedsNoSource(env, source, target, placements[0], s);
      PlacingNeedsNoSource(env, source, target, placements[1..], PlaceChunk(env, target, placements[0], true, s));
    }
  }

  lemma {:induction false} StagingNeedsNoSource(env: Env, source: ChunkSource, root: Path, plans: seq<FilePlan>, s: Progress)
    ensures StageFiles(env, root, plans, true, s) == StageFiles(From(env, source), root, plans, true, s)
    decreases plans
  {
    if plans != [] && s.error.None? {
      PlacingNeedsNoSource(env, source, TargetOf(root, plans[0]), plans[0].placements,
        s.(files := OpenStaged(s.files, TargetOf(root, plans[0]), plans[0].size)));
      StagingNeedsNoSource(env, source, root, plans[1..], StageFile(env, root, plans[0], true, s));
    }
  }

  /** Finishing a placed install is the same whatever the chunk source: it is never asked. */
  lemma PlacedNeedsNoSource(env: Env, source: ChunkSource, plan: InstallPlan, root: Path, files: Files)
    ensures Materialised(env, plan, root, true, files) == Materialised(From(env, source), plan, root, true, files)
  {
    StagingNeedsNoSource(env, source, root, plan.files, Progress(files, EMPTY_REPORT, None));
  }

  // ---- What was written, taken as a source

  ghost predicate InStore(store: Store, name: string, length: nat) {
    forall o :: 0 <= o < length ==> (name, o) in store
  }

  ghost function StoredChunk(store: Store, digest: Digest, length: nat): Option<seq<byte>> {
    var name := FileNameFor(digest);
    if InStore(store, name, length) then
      Some(seq(length, o requires 0 <= o < length && InStore(store, name, length) => store[(name, o)]))
    else None
  }

  /** Every wanted chunk was written in full and its bytes hash to its digest. */
  ghost predicate WrittenIntact(hash: Hasher, plans: seq<FilePlan>, store: Store) {
    forall i, k :: 0 <= i < |plans| && 0 <= k < |plans[i].placements| && plans[i].placements[k].source == Remote ==>
      ChunkIntact(hash, plans[i].placements[k], store)
  }

  ghost predicate ChunkIntact(hash: Hasher, p: ChunkPlacement, store: Store) {
    var stored := StoredChunk(store, p.digest, p.length);
    stored.Some? && hash(stored.value) == p.digest
  }

  ghost function StoreSource(store: Store): ChunkSource {
    (digest: Digest, length: nat) => StoredChunk(store, digest, length)
  }

  lemma IntactIsServed(env: Env, p: ChunkPlacement, store: Store, files: Files)
    requires env.source == StoreSource(store) && p.source == Remote && ChunkIntact(env.hash, p, store)
    ensures DeliveredChunk(env, p, store) && ResolveChunk(env, files, p).Ok?
  {
    assert env.source(p.digest, p.length) == StoredChunk(store, p.digest, p.length);
  }

  lemma IntactIsDelivered(env: Env, plans: seq<FilePlan>, store: Store)
    requires env.source == StoreSource(store) && WrittenIntact(env.hash, plans, store)
    ensures Delivered(env, plans, store)
  {
    forall i, k | 0 <= i < |plans| && 0 <= k < |plans[i].placements| && plans[i].placements[k].source == Remote
      ensures DeliveredChunk(env, plans[i].placements[k], store)
    {
      assert ChunkIntact(env.hash, plans[i].placements[k], store);
      IntactIsServed(env, plans[i].placements[k], store, map[]);
    }
  }

  // ---- The whole way

  /** The torrent's own folder holds nothing either manifest names. */
  ghost predicate FilesApart(manifest: ModManifest, root: Path, savePath: Path) {
    forall i :: 0 <= i < |manifest.files| ==> !Under(Join(root, manifest.files[i].path), savePath)
  }

  /** Held chunks whose length the held manifest gives differently are there nevertheless. */
  ghost predicate OddLengthsThere(env: Env, held: ModManifest, root: Path, files: Files, plans: seq<FilePlan>) {
    forall f, p :: f in plans && p in f.placements && p.source == Held && Unbacked(held, root, p) ==> ResolveChunk(env, files, p).Ok?
  }

  lemma StoreServesUnbacked(env: Env, held: ModManifest, root: Path, files: Files, plans: seq<FilePlan>, store: Store)
    requires env.source == StoreSource(store) && WrittenIntact(env.hash, plans, store)
    requires OddLengthsThere(env, held, root, files, plans)
    ensures forall f :: f in plans ==> UnbackedServed(env, held, root, files, f)
  {
    forall f, p | f in plans && p in f.placements && Unbacked(held, root, p)
      ensures ResolveChunk(env, files, p).Ok?
    {
      if p.source == Remote {
        var i :| 0 <= i < |plans| && plans[i] == f;
        var k :| 0 <= k < |plans[i].placements| && plans[i].placements[k] == p;
        assert ChunkIntact(env.hash, plans[i].placements[k], store);
        IntactIsServed(env, p, store, files);
      }
    }
  }

  /** Held places are truthful and the rest is served intact, so nothing taken on trust is wrong. */
  lemma NothingToDoubt(
    env: Env, held: ModManifest, target: ModManifest, catalogue: Catalogue, root: Path, files: Files)
    requires Truthful(env.hash, files, root, held) && CatalogueTruthful(env.hash, files, catalogue)
    requires forall f :: f in DiffPlan(held, root, target, catalogue).files ==> UnbackedServed(env, held, root, files, f)
    ensures SkippedResolve(env, files, root, DiffPlan(held, root, target, catalogue).files)
  {
    var plans := DiffPlan(held, root, target, catalogue).files;
    forall i, k | 0 <= i < |plans| && 0 <= k < |plans[i].placements|
      ensures ResolveChunk(env, files, plans[i].placements[k]).Ok?
    {
      assert plans[i] in plans && plans[i].placements[k] in plans[i].placements;
      PlannedFileNeedsUnbacked(env, held, target, catalogue, root, files, i);
      AssembleOk(env, files, plans[i].placements);
    }
  }

  /** Equal files match the same manifest. */
  lemma TruthfulAlike(hash: Hasher, a: Files, b: Files, root: Path, savePath: Path, manifest: ModManifest)
    requires Truthful(hash, a, root, manifest) && FilesApart(manifest, root, savePath)
    requires forall q :: !Under(q, savePath) ==> Same(b, a, q)
    ensures Truthful(hash, b, root, manifest)
  {
    forall i | 0 <= i < |manifest.files|
      ensures Installed(hash, b, root, manifest.files[i])
    {
      assert Installed(hash, a, root, manifest.files[i]);
      assert Same(b, a, Join(root, manifest.files[i].path));
    }
  }

  /** What the fast form leaves, carried over from a plain install with what was written as its source. */
  lemma CarriedOver(
    env: Env, held: ModManifest, target: ModManifest, catalogue: Catalogue, root: Path, savePath: Path, before: Files, fast: Files, plain: Files)
    requires FilesApart(held, root, savePath) && FilesApart(target, root, savePath)
    requires forall q :: !Under(q, savePath) ==> Same(fast, plain, q)
    requires Truthful(env.hash, plain, root, target)
    requires forall path :: Listed(held.files, path) && !Listed(target.files, path) ==> Join(root, path) !in plain
    requires forall q :: !IsStagedOf(root, DiffPlan(held, root, target, catalogue).files, q) && Unlisted(root, held, target, q) ==> Same(plain, before, q)
    ensures Truthful(env.hash, fast, root, target)
    ensures forall path :: Listed(held.files, path) && !Listed(target.files, path) ==> Join(root, path) !in fast
    ensures forall q ::
      !IsStagedOf(root, DiffPlan(held, root, target, catalogue).files, q) && Unlisted(root, held, target, q) && !Under(q, savePath) ==>
        Same(fast, before, q)
  {
    TruthfulAlike(env.hash, plain, fast, root, savePath, target);
    forall path | Listed(held.files, path) && !Listed(target.files, path)
      ensures Join(root, path) !in fast
    {
      ListedAt(held.files, path);
      var i :| 0 <= i < |held.files| && held.files[i].path == path;
      assert Same(fast, plain, Join(root, path));
    }
    forall q | !IsStagedOf(root, DiffPlan(held, root, target, catalogue).files, q) && Unlisted(root, held, target, q) && !Under(q, savePath)
      ensures Same(fast, before, q)
    {
      assert Same(fast, plain, q) && Same(plain, before, q);
    }
  }

  lemma {:induction false} ListedAt(files: seq<ManifestFile>, path: string)
    requires Listed(files, path)
    ensures exists i :: 0 <= i < |files| && files[i].path == path
    decreases files
  {
    if files[0].path == path {
      assert files[0].path == path;
    } else {
      ListedAt(files[1..], path);
      var i :| 0 <= i < |files[1..]| && files[1..][i].path == path;
      assert files[i + 1].path == path;
    }
  }

  /**
   * Comparing, staging afresh, writing every wanted chunk with bytes of its digest, and finishing without hashing
   * the placed chunks again: nothing but a refused extension can stop it, and otherwise the target folder results,
   * files only held are gone, and every other file outside the torrent's own folder is as it was. No chunk source
   * takes part.
   */
  lemma FetchedUpdateInstallsTarget(
    env: Env, held: ModManifest, target: ModManifest, catalogue: Catalogue, root: Path, savePath: Path,
    before: Files, blocks: seq<Block>, after: Files)
    requires SoundManifest(held) && SoundManifest(target) && CatalogueApart(catalogue)
    requires Truthful(env.hash, before, root, held) && CatalogueTruthful(env.hash, before, catalogue)
    requires FilesApart(held, root, savePath) && FilesApart(target, root, savePath)
    requires
      var plan := DiffPlan(held, root, target, catalogue);
      && Filled(env.hash, plan, root, savePath, before, blocks, after)
      && WrittenIntact(env.hash, plan.files, StoreOf(env.hash, plan, root, before, blocks))
      && OddLengthsThere(env, held, root, before, plan.files)
    ensures
      var plan := DiffPlan(held, root, target, catalogue);
      var fast := Materialised(env, plan, root, true, after);
      && (fast.error.None? || fast.error == Some(ExtensionRejected))
      && (fast.error.None? ==>
            && Truthful(env.hash, fast.files, root, target)
            && (forall path :: Listed(held.files, path) && !Listed(target.files, path) ==> Join(root, path) !in fast.files)
            && (forall q :: !IsStagedOf(root, plan.files, q) && Unlisted(root, held, target, q) && !Under(q, savePath) ==>
                  Same(fast.files, before, q))
            && fast.report == PlanReport(plan, root, before))
  {
    var plan := DiffPlan(held, root, target, catalogue);
    var store := StoreOf(env.hash, plan, root, before, blocks);
    var served := From(env, StoreSource(store));
    PlacedNeedsNoSource(env, StoreSource(store), plan, root, after);
    IntactIsDelivered(served, plan.files, store);
    assert OddLengthsThere(served, held, root, before, plan.files) by {
      OddLengthsAlike(env, StoreSource(store), held, root, before, plan.files);
    }
    StoreServesUnbacked(served, held, root, before, plan.files, store);
    NothingToDoubt(served, held, target, catalogue, root, before);
    UpdateNeedsOnlyUnbackedChunks(served, held, target, catalogue, root, before);
    PlacedInstallRefinesApply(served, plan, root, savePath, before, blocks, after);
    UpdateInstallsTarget(served, held, target, catalogue, root, before);
    var fast := Materialised(env, plan, root, true, after);
    if fast.error.None? {
      CarriedOver(env, held, target, catalogue, root, savePath, before, fast.files, Materialised(served, plan, root, false, before).files);
    }
  }

  lemma OddLengthsAlike(env: Env, source: ChunkSource, held: ModManifest, root: Path, files: Files, plans: seq<FilePlan>)
    requires OddLengthsThere(env, held, root, files, plans)
    ensures OddLengthsThere(From(env, source), held, root, files, plans)
  {
    forall f, p | f in plans && p in f.placements && p.source == Held && Unbacked(held, root, p)
      ensures ResolveChunk(From(env, source), files, p).Ok?
    {
      assert ResolveChunk(env, files, p).Ok?;
    }
  }
}
