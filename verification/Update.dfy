/** A planned update, once applied, leaves exactly the target folder. */
module Update {
  import opened Wrappers
  import opened Bytes
  import opened FileStore
  import opened Content
  import opened InstallPlans
  import opened PayloadPath
  import opened Differ
  import opened Installer
  import opened Assembly
  import opened VerifiedStaging

  /** Distinct payload paths to write, and other payload paths to remove. */
  ghost predicate TidyPlan(plan: InstallPlan) {
    && TidyPlans(plan.files)
    && (forall path :: path in plan.removals ==> IsPayloadPath(path))
    && (forall i :: 0 <= i < |plan.files| ==> plan.files[i].path !in plan.removals)
  }

  /** Moreover every file is tiled, and nothing is read from a staging file. */
  ghost predicate SoundPlan(plan: InstallPlan) {
    TidyPlan(plan) && SoundPlans(plan.files)
  }

  predicate IsRemovalOf(root: Path, plan: InstallPlan, path: Path) {
    exists k :: 0 <= k < |plan.removals| && path == Join(root, plan.removals[k])
  }

  /** The disk after a successful install, path by path. */
  ghost predicate Finished(env: Env, plan: InstallPlan, root: Path, base: Files, before: Files, after: Files) {
    && (forall i :: 0 <= i < |plan.files| ==>
          && TargetOf(root, plan.files[i]) in after
          && after[TargetOf(root, plan.files[i])] == Assembled(env, base, plan.files[i])
          && StagedOf(root, plan.files[i]) !in after)
    && (forall path :: path in plan.removals ==> Join(root, path) !in after)
    && (forall q :: !IsStagedOf(root, plan.files, q) && !IsTargetOf(root, plan.files, q) && !IsRemovalOf(root, plan, q) ==>
          Same(after, before, q))
  }

  function PlanReport(plan: InstallPlan, root: Path, files: Files): InstallReport {
    InstallReport(
      PlanBytes(plan.files, Held),
      PlanBytes(plan.files, Remote),
      |plan.files|,
      PresentRemovals(root, plan.removals, files))
  }

  lemma {:induction false} PresentRemovalsAgree(root: Path, removals: seq<string>, a: Files, b: Files)
    requires forall path :: path in removals ==> (Join(root, path) in a <==> Join(root, path) in b)
    ensures PresentRemovals(root, removals, a) == PresentRemovals(root, removals, b)
    decreases removals
  {
    if removals != [] {
      assert removals[0] in removals;
      var path := Join(root, removals[0]);
      PresentRemovalsAgree(root, removals[1..], a - {path}, b - {path});
    }
  }

  /** A removal is neither a target nor a staging file of the same plan. */
  lemma RemovalApart(plan: InstallPlan, root: Path, path: string)
    requires TidyPlan(plan) && path in plan.removals
    ensures !IsStagedOf(root, plan.files, Join(root, path)) && !IsTargetOf(root, plan.files, Join(root, path))
  {
    PayloadTargetIsNotStaging(root, path);
    forall i | 0 <= i < |plan.files|
      ensures Join(root, path) != StagedOf(root, plan.files[i]) && Join(root, path) != TargetOf(root, plan.files[i])
    {
      assert IsStagingName(StagedOf(root, plan.files[i]));
      if Join(root, path) == TargetOf(root, plan.files[i]) {
        JoinInjective(root, path, plan.files[i].path);
      }
    }
  }

  /** Every path the plan does not speak of is as it was. */
  ghost predicate Elsewhere(plan: InstallPlan, root: Path, before: Files, after: Files) {
    forall q :: !IsStagedOf(root, plan.files, q) && !IsTargetOf(root, plan.files, q) && !IsRemovalOf(root, plan, q) ==>
      Same(after, before, q)
  }

  /** Staging files became targets, removals are gone, everything else is as it was. */
  ghost predicate Moved(plan: InstallPlan, root: Path, staged: Files, after: Files) {
    && (forall i :: 0 <= i < |plan.files| ==>
          && StagedOf(root, plan.files[i]) in staged
          && TargetOf(root, plan.files[i]) in after
          && after[TargetOf(root, plan.files[i])] == staged[StagedOf(root, plan.files[i])]
          && StagedOf(root, plan.files[i]) !in after)
    && (forall path :: path in plan.removals ==> Join(root, path) !in after)
    && Elsewhere(plan, root, staged, after)
  }

  lemma MovedByRemoval(plan: InstallPlan, root: Path, staged: Files, swapped: Files, after: Files)
    requires TidyPlan(plan) && Swapped(root, plan.files, staged, swapped)
    requires forall path :: path in plan.removals ==> Join(root, path) !in after
    requires forall q :: !IsRemovalOf(root, plan, q) ==> Same(after, swapped, q)
    requires after.Keys <= swapped.Keys
    ensures Moved(plan, root, staged, after)
  {
    forall i | 0 <= i < |plan.files|
      ensures StagedOf(root, plan.files[i]) in staged
      ensures TargetOf(root, plan.files[i]) in after
      ensures after[TargetOf(root, plan.files[i])] == staged[StagedOf(root, plan.files[i])]
      ensures StagedOf(root, plan.files[i]) !in after
    {
      var target := TargetOf(root, plan.files[i]);
      assert StagedOf(root, plan.files[i]) !in swapped;
      if IsRemovalOf(root, plan, target) {
        var k :| 0 <= k < |plan.removals| && target == Join(root, plan.removals[k]);
        JoinInjective(root, plan.files[i].path, plan.removals[k]);
      }
      assert Same(after, swapped, target);
    }
    forall q | !IsStagedOf(root, plan.files, q) && !IsTargetOf(root, plan.files, q) && !IsRemovalOf(root, plan, q)
      ensures Same(after, staged, q)
    {
      assert Same(after, swapped, q) && Same(swapped, staged, q);
    }
  }

  /** Swapping and removing after all files were staged cannot fail. */
  lemma SwapAndRemove(plan: InstallPlan, root: Path, files: Files, staged: Progress)
    requires TidyPlan(plan) && staged.error.None? && Staged(root, plan.files, staged.files)
    requires forall q :: !IsStagedOf(root, plan.files, q) ==> Same(staged.files, files, q)
    ensures
      var swapped := SwapFiles(root, plan.files, staged);
      var r := RemoveFiles(root, plan.removals, swapped);
      && swapped.error.None?
      && r.error.None?
      && r.report == staged.report.(filesWritten := staged.report.filesWritten + |plan.files|,
                                    filesRemoved := staged.report.filesRemoved + PresentRemovals(root, plan.removals, files))
      && Moved(plan, root, staged.files, r.files)
  {
    SwapFilesAt(root, plan.files, staged);
    var swapped := SwapFiles(root, plan.files, staged);
    RemoveFilesAt(root, plan.removals, swapped);
    var r := RemoveFiles(root, plan.removals, swapped);
    forall path | path in plan.removals
      ensures Join(root, path) in swapped.files <==> Join(root, path) in files
    {
      RemovalApart(plan, root, path);
      assert Same(swapped.files, staged.files, Join(root, path));
      assert Same(staged.files, files, Join(root, path));
    }
    PresentRemovalsAgree(root, plan.removals, swapped.files, files);
    RemovalsByIndex(root, plan, swapped.files, r.files);
    MovedByRemoval(plan, root, staged.files, swapped.files, r.files);
  }

  lemma FinishedByMoving(env: Env, plan: InstallPlan, root: Path, base: Files, before: Files, after: Files)
    requires TidyPlan(plan) && Moved(plan, root, WithStaged(env, root, base, before, plan.files), after)
    ensures Finished(env, plan, root, base, before, after)
  {
    var staged := WithStaged(env, root, base, before, plan.files);
    WithStagedAt(env, root, base, before, plan.files);
    forall q | !IsStagedOf(root, plan.files, q) && !IsTargetOf(root, plan.files, q) && !IsRemovalOf(root, plan, q)
      ensures Same(after, before, q)
    {
      assert Same(after, staged, q) && Same(staged, before, q);
    }
  }

  lemma AssembledInstall(env: Env, plan: InstallPlan, root: Path, files: Files, base: Files, staged: Progress)
    requires TidyPlan(plan)
    requires staged == Progress(WithStaged(env, root, base, files, plan.files), CreditPlans(EMPTY_REPORT, plan.files), None)
    ensures
      var r := RemoveFiles(root, plan.removals, SwapFiles(root, plan.files, staged));
      && SwapFiles(root, plan.files, staged).error.None? && r.error.None?
      && r.report == PlanReport(plan, root, files) && Finished(env, plan, root, base, files, r.files)
  {
    WithStagedAt(env, root, base, files, plan.files);
    CreditPlansTotals(EMPTY_REPORT, plan.files);
    SwapAndRemove(plan, root, files, staged);
    FinishedByMoving(env, plan, root, base, files, RemoveFiles(root, plan.removals, SwapFiles(root, plan.files, staged)).files);
  }

  /** An install that fails, in either form and for whatever reason, leaves every path but its own staging files as it was. */
  lemma FailureLeavesFiles(env: Env, plan: InstallPlan, root: Path, skipPlaced: bool, files: Files)
    requires TidyPlan(plan)
    ensures
      var r := Materialised(env, plan, root, skipPlaced, files);
      && r.error != Some(SwapFailed)
      && (r.error.Some? ==> forall q :: !IsStagedOf(root, plan.files, q) ==> Same(r.files, files, q))
  {
    var start := Progress(files, EMPTY_REPORT, None);
    var staged := StageFiles(env, root, plan.files, skipPlaced, start);
    forall q | !IsStagedOf(root, plan.files, q)
      ensures Same(staged.files, files, q)
    {
      StagingElsewhere(env, root, plan.files, skipPlaced, start, q);
    }
    StagingNeverSwaps(env, root, plan.files, skipPlaced, start);
    if staged.error.None? {
      StagingLeavesAll(env, root, plan.files, skipPlaced, start);
      SwapAndRemove(plan, root, files, staged);
    }
  }

  lemma {:induction false} PlacingRemovesNothing(env: Env, target: Path, placements: seq<ChunkPlacement>, skipPlaced: bool, s: Progress)
    ensures PlaceChunks(env, target, placements, skipPlaced, s).report.filesRemoved == s.report.filesRemoved
    decreases placements
  {
    if placements != [] && s.error.None? {
      PlacingRemovesNothing(env, target, placements[1..], skipPlaced, PlaceChunk(env, target, placements[0], skipPlaced, s));
    }
  }

  lemma {:induction false} StagingRemovesNothing(env: Env, root: Path, plans: seq<FilePlan>, skipPlaced: bool, s: Progress)
    ensures StageFiles(env, root, plans, skipPlaced, s).report.filesRemoved == s.report.filesRemoved
    decreases plans
  {
    if plans != [] && s.error.None? {
      var target := Join(root, plans[0].path);
      PlacingRemovesNothing(env, target, plans[0].placements, skipPlaced, s.(files := OpenStaged(s.files, target, plans[0].size)));
      StagingRemovesNothing(env, root, plans[1..], skipPlaced, StageFile(env, root, plans[0], skipPlaced, s));
    }
  }

  lemma {:induction false} SwappingElsewhere(root: Path, plans: seq<FilePlan>, s: Progress, q: Path)
    requires !IsStagedOf(root, plans, q) && !IsTargetOf(root, plans, q)
    ensures Same(SwapFiles(root, plans, s).files, s.files, q)
    decreases plans
  {
    if plans != [] && s.error.None? && StagedPath(Join(root, plans[0].path)) in s.files {
      var target := TargetOf(root, plans[0]);
      assert q != StagedOf(root, plans[0]) && q != target;
      forall i | 0 <= i < |plans[1..]|
        ensures q != StagedOf(root, plans[1..][i]) && q != TargetOf(root, plans[1..][i])
      {
        assert plans[1..][i] == plans[i + 1];
      }
      var next := Progress(SwapOne(s.files, target), s.report.(filesWritten := s.report.filesWritten + 1), None);
      SwappingElsewhere(root, plans[1..], next, q);
    }
  }

  lemma {:induction false} RemovingSucceeds(root: Path, removals: seq<string>, s: Progress)
    ensures RemoveFiles(root, removals, s).error == s.error
    decreases removals
  {
    if removals != [] {
      var path := Join(root, removals[0]);
      var report := if path in s.files then s.report.(filesRemoved := s.report.filesRemoved + 1) else s.report;
      RemovingSucceeds(root, removals[1..], s.(files := s.files - {path}, report := report));
    }
  }

  /** Whatever the plan, one that names a file twice included, an install that fails has removed nothing and touched no other file. */
  lemma FailureRemovesNothing(env: Env, plan: InstallPlan, root: Path, skipPlaced: bool, files: Files)
    requires Materialised(env, plan, root, skipPlaced, files).error.Some?
    ensures
      var r := Materialised(env, plan, root, skipPlaced, files);
      && r.report.filesRemoved == 0
      && forall q :: !IsStagedOf(root, plan.files, q) && !IsTargetOf(root, plan.files, q) ==> Same(r.files, files, q)
  {
    var start := Progress(files, EMPTY_REPORT, None);
    var staged := StageFiles(env, root, plan.files, skipPlaced, start);
    StagingRemovesNothing(env, root, plan.files, skipPlaced, start);
    forall q | !IsStagedOf(root, plan.files, q) && !IsTargetOf(root, plan.files, q)
      ensures Same(staged.files, files, q)
      ensures Same(SwapFiles(root, plan.files, staged).files, files, q)
    {
      StagingElsewhere(env, root, plan.files, skipPlaced, start, q);
      SwappingElsewhere(root, plan.files, staged, q);
    }
    SwappingRemovesNothing(root, plan.files, staged);
    RemovingSucceeds(root, plan.removals, SwapFiles(root, plan.files, staged));
  }

  lemma {:induction false} SwappingRemovesNothing(root: Path, plans: seq<FilePlan>, s: Progress)
    ensures SwapFiles(root, plans, s).report.filesRemoved == s.report.filesRemoved
    decreases plans
  {
    if plans != [] && s.error.None? && StagedPath(Join(root, plans[0].path)) in s.files {
      var next := Progress(
        SwapOne(s.files, TargetOf(root, plans[0])), s.report.(filesWritten := s.report.filesWritten + 1), None);
      SwappingRemovesNothing(root, plans[1..], next);
    }
  }

  lemma {:induction false} PlacingNeverSwaps(env: Env, target: Path, placements: seq<ChunkPlacement>, skipPlaced: bool, s: Progress)
    requires s.error != Some(SwapFailed)
    ensures PlaceChunks(env, target, placements, skipPlaced, s).error != Some(SwapFailed)
    decreases placements
  {
    if placements != [] && s.error.None? {
      PlacingNeverSwaps(env, target, placements[1..], skipPlaced, PlaceChunk(env, target, placements[0], skipPlaced, s));
    }
  }

  lemma {:induction false} StagingNeverSwaps(env: Env, root: Path, plans: seq<FilePlan>, skipPlaced: bool, s: Progress)
    requires s.error != Some(SwapFailed)
    ensures StageFiles(env, root, plans, skipPlaced, s).error != Some(SwapFailed)
    decreases plans
  {
    if plans != [] && s.error.None? {
      PlacingNeverSwaps(env, TargetOf(root, plans[0]), plans[0].placements, skipPlaced,
        s.(files := OpenStaged(s.files, TargetOf(root, plans[0]), plans[0].size)));
      StagingNeverSwaps(env, root, plans[1..], skipPlaced, StageFile(env, root, plans[0], skipPlaced, s));
    }
  }

  /**
   * Both forms of the installer, on a disk where what the fast form skips is already in place. Whatever the
   * error, only the plan's own staging files were touched.
   */
  lemma MaterialisedAt(env: Env, plan: InstallPlan, root: Path, skipPlaced: bool, files: Files, base: Files)
    requires SoundPlan(plan) && AgreeOffStaging(files, base)
    requires PreparedPlans(env, base, files, root, plan.files, skipPlaced)
    ensures
      var r := Materialised(env, plan, root, skipPlaced, files);
      match FirstError(env, base, plan.files)
      case Some(e) => r.error == Some(e)
      case None =>
        if !ExtensionApproved(env, plan, root, WithStaged(env, root, base, files, plan.files)) then
          r.error == Some(ExtensionRejected)
        else
          r.error.None? && r.report == PlanReport(plan, root, files) && Finished(env, plan, root, base, files, r.files)
    ensures
      var r := Materialised(env, plan, root, skipPlaced, files);
      r.error.Some? ==> forall q :: !IsStagedOf(root, plan.files, q) ==> Same(r.files, files, q)
  {
    var start := Progress(files, EMPTY_REPORT, None);
    StageFilesAssemble(env, root, plan.files, skipPlaced, start, base);
    if FirstError(env, base, plan.files).None? {
      AssembledInstall(env, plan, root, files, base, StageFiles(env, root, plan.files, skipPlaced, start));
    }
    FailureLeavesFiles(env, plan, root, skipPlaced, files);
  }

  // ---- The plain form, wherever its chunks come from

  /** The disk after a successful hash-checked install, path by path. */
  ghost predicate FinishedVerified(hash: Hasher, plan: InstallPlan, root: Path, before: Files, after: Files) {
    && (forall i :: 0 <= i < |plan.files| ==>
          && TargetOf(root, plan.files[i]) in after
          && Verified(hash, after[TargetOf(root, plan.files[i])], plan.files[i])
          && StagedOf(root, plan.files[i]) !in after)
    && (forall path :: path in plan.removals ==> Join(root, path) !in after)
    && Elsewhere(plan, root, before, after)
  }

  lemma VerifiedByMoving(hash: Hasher, plan: InstallPlan, root: Path, before: Files, staged: Files, after: Files)
    requires Moved(plan, root, staged, after) && AllVerified(hash, root, plan.files, staged)
    requires forall q :: !IsStagedOf(root, plan.files, q) ==> Same(staged, before, q)
    ensures FinishedVerified(hash, plan, root, before, after)
  {
    forall q | !IsStagedOf(root, plan.files, q) && !IsTargetOf(root, plan.files, q) && !IsRemovalOf(root, plan, q)
      ensures Same(after, before, q)
    {
      assert Same(after, staged, q) && Same(staged, before, q);
    }
    forall i | 0 <= i < |plan.files|
      ensures TargetOf(root, plan.files[i]) in after && Verified(hash, after[TargetOf(root, plan.files[i])], plan.files[i])
    {
      assert StagedOf(root, plan.files[i]) in staged;
    }
  }

  /** Once every staging file is verified, swapping and removing finish the install. */
  lemma VerifiedInstallFinishes(hash: Hasher, plan: InstallPlan, root: Path, files: Files, staged: Progress)
    requires TidyPlan(plan) && staged.error.None? && Staged(root, plan.files, staged.files)
    requires AllVerified(hash, root, plan.files, staged.files) && staged.report == CreditPlans(EMPTY_REPORT, plan.files)
    requires forall q :: !IsStagedOf(root, plan.files, q) ==> Same(staged.files, files, q)
    ensures
      var r := RemoveFiles(root, plan.removals, SwapFiles(root, plan.files, staged));
      r.report == PlanReport(plan, root, files) && FinishedVerified(hash, plan, root, files, r.files)
  {
    SwapAndRemove(plan, root, files, staged);
    CreditPlansTotals(EMPTY_REPORT, plan.files);
    VerifiedByMoving(hash, plan, root, files, staged.files,
      RemoveFiles(root, plan.removals, SwapFiles(root, plan.files, staged)).files);
  }

  /**
   * An install that succeeds, in either form, leaves targets whose every range hashes to its digest, whatever its
   * sources were, if the ranges taken on trust have theirs in the staging files.
   */
  lemma InstallVerifies(env: Env, plan: InstallPlan, root: Path, skipPlaced: bool, files: Files)
    requires TidyPlan(plan) && TiledPlans(plan.files) && TrustedPlans(env.hash, root, plan.files, files, skipPlaced)
    ensures
      var r := Materialised(env, plan, root, skipPlaced, files);
      r.error.None? ==> r.report == PlanReport(plan, root, files) && FinishedVerified(env.hash, plan, root, files, r.files)
  {
    var start := Progress(files, EMPTY_REPORT, None);
    var staged := StageFiles(env, root, plan.files, skipPlaced, start);
    if staged.error.None? {
      StagingAllVerifies(env, root, plan.files, skipPlaced, start);
      StagingLeavesAll(env, root, plan.files, skipPlaced, start);
      forall q | !IsStagedOf(root, plan.files, q)
        ensures Same(staged.files, files, q)
      {
        StagingElsewhere(env, root, plan.files, skipPlaced, start, q);
      }
      SwapAndRemove(plan, root, files, staged);
      VerifiedInstallFinishes(env.hash, plan, root, files, staged);
    }
  }

  /** The plain form takes nothing on trust. */
  lemma PlainInstallVerifies(env: Env, plan: InstallPlan, root: Path, files: Files)
    requires TidyPlan(plan) && TiledPlans(plan.files)
    ensures
      var r := Materialised(env, plan, root, false, files);
      r.error.None? ==> r.report == PlanReport(plan, root, files) && FinishedVerified(env.hash, plan, root, files, r.files)
  {
    PlainTrustsNothing(env.hash, root, plan.files, files);
    InstallVerifies(env, plan, root, false, files);
  }

  lemma RemovalsByIndex(root: Path, plan: InstallPlan, before: Files, after: Files)
    requires forall k :: 0 <= k < |plan.removals| ==> Join(root, plan.removals[k]) !in after
    requires forall q :: (forall k :: 0 <= k < |plan.removals| ==> q != Join(root, plan.removals[k])) ==> Same(after, before, q)
    ensures forall path :: path in plan.removals ==> Join(root, path) !in after
    ensures forall q :: !IsRemovalOf(root, plan, q) ==> Same(after, before, q)
  {
    forall q | !IsRemovalOf(root, plan, q)
      ensures Same(after, before, q)
    {
      assert forall k :: 0 <= k < |plan.removals| ==> q != Join(root, plan.removals[k]);
    }
  }

  // ---- From manifests to plans

  /** Distinct payload paths, each file tiled by its chunks. */
  ghost predicate SoundManifest(manifest: ModManifest) {
    && DistinctFiles(manifest.files)
    && forall i :: 0 <= i < |manifest.files| ==>
         IsPayloadPath(manifest.files[i].path) && ChunksTile(manifest.files[i].chunks, 0, manifest.files[i].size)
  }

  /** A file's bytes carry the digests its manifest entry promises, chunk by chunk. */
  ghost predicate Matches(hash: Hasher, content: seq<byte>, file: ManifestFile) {
    && |content| == file.size
    && forall k :: 0 <= k < |file.chunks| ==> MatchesChunk(hash, content, file.chunks[k])
  }

  ghost predicate MatchesChunk(hash: Hasher, content: seq<byte>, chunk: ManifestChunk) {
    Slice(content, chunk.offset, chunk.length).Some? && hash(Slice(content, chunk.offset, chunk.length).value) == chunk.digest
  }

  ghost predicate Installed(hash: Hasher, files: Files, root: Path, file: ManifestFile) {
    Join(root, file.path) in files && Matches(hash, files[Join(root, file.path)], file)
  }

  ghost predicate Truthful(hash: Hasher, files: Files, root: Path, manifest: ModManifest) {
    forall i :: 0 <= i < |manifest.files| ==> Installed(hash, files, root, manifest.files[i])
  }

  ghost predicate CatalogueApart(catalogue: Catalogue) {
    forall d: Digest :: catalogue(d).Some? ==> !IsStagingName(catalogue(d).value.file)
  }

  lemma {:induction false} PlacementsTile(
    chunks: seq<ManifestChunk>, index: HeldIndex, catalogue: Catalogue, start: nat, stop: nat)
    requires ChunksTile(chunks, start, stop)
    ensures Tiles(PlaceAll(chunks, index, catalogue), start, stop)
    decreases chunks
  {
    if chunks != [] {
      assert PlaceAll(chunks, index, catalogue)[1..] == PlaceAll(chunks[1..], index, catalogue);
      PlacementsTile(chunks[1..], index, catalogue, start + chunks[0].length, stop);
    }
  }

  lemma PlacedSourcesSound(held: ModManifest, root: Path, catalogue: Catalogue, chunks: seq<ManifestChunk>)
    requires SoundManifest(held) && CatalogueApart(catalogue)
    ensures SoundSources(PlaceAll(chunks, IndexFiles(map[], root, held.files), catalogue))
  {
    var index := IndexFiles(map[], root, held.files);
    IndexFilesEntries(map[], root, held.files);
    forall p | p in PlaceAll(chunks, index, catalogue) && p.source == Held
      ensures !IsStagingName(p.heldFile)
    {
      var k :| 0 <= k < |chunks| && p == Place(chunks[k], index, catalogue);
      if chunks[k].digest in index {
        assert HoldsChunk(root, held.files, chunks[k].digest, index[chunks[k].digest]);
        var i, j :| 0 <= i < |held.files| && 0 <= j < |held.files[i].chunks|
          && index[chunks[k].digest].file == Join(root, held.files[i].path);
        PayloadTargetIsNotStaging(root, held.files[i].path);
      }
    }
  }

  /** The target file a planned file comes from. */
  lemma PlannedFrom(held: ModManifest, root: Path, target: ModManifest, catalogue: Catalogue, i: nat) returns (f: ManifestFile)
    requires i < |DiffPlan(held, root, target, catalogue).files|
    ensures f in target.files && !FileUnchanged(held, f)
    ensures DiffPlan(held, root, target, catalogue).files[i] == PlanFile(f, IndexFiles(map[], root, held.files), catalogue)
  {
    var index := IndexFiles(map[], root, held.files);
    var plans := PlanFiles(held, target.files, index, catalogue);
    PlanFilesCover(held, target.files, index, catalogue);
    assert plans[i] in plans;
    f :| f in target.files && !FileUnchanged(held, f) && plans[i] == PlanFile(f, index, catalogue);
  }

  lemma PlannedFileTiled(held: ModManifest, root: Path, target: ModManifest, catalogue: Catalogue, i: nat)
    requires SoundManifest(target) && i < |DiffPlan(held, root, target, catalogue).files|
    ensures
      var f := DiffPlan(held, root, target, catalogue).files[i];
      IsPayloadPath(f.path) && Tiles(f.placements, 0, f.size) && Listed(target.files, f.path)
  {
    var f := PlannedFrom(held, root, target, catalogue, i);
    PlacementsTile(f.chunks, IndexFiles(map[], root, held.files), catalogue, 0, f.size);
  }

  /** Whatever the catalogue, a plan writes distinct payload paths, tiled by their chunks, and removes other ones. */
  lemma DiffIsTidy(held: ModManifest, root: Path, target: ModManifest, catalogue: Catalogue)
    requires SoundManifest(held) && SoundManifest(target)
    ensures TidyPlan(DiffPlan(held, root, target, catalogue)) && TiledPlans(DiffPlan(held, root, target, catalogue).files)
  {
    var plan := DiffPlan(held, root, target, catalogue);
    PlanFilesDistinct(held, target.files, IndexFiles(map[], root, held.files), catalogue);
    RemovalsCover(held.files, target.files);
    forall i | 0 <= i < |plan.files|
      ensures IsPayloadPath(plan.files[i].path) && Tiles(plan.files[i].placements, 0, plan.files[i].size)
      ensures plan.files[i].path !in plan.removals
    {
      PlannedFileTiled(held, root, target, catalogue, i);
    }
    forall path | path in plan.removals
      ensures IsPayloadPath(path)
    {
      assert FindFile(held.files, path).Some?;
    }
  }

  /** With a catalogue that names no staging file the plan reads from none either. */
  lemma DiffIsSound(held: ModManifest, root: Path, target: ModManifest, catalogue: Catalogue)
    requires SoundManifest(held) && SoundManifest(target) && CatalogueApart(catalogue)
    ensures SoundPlan(DiffPlan(held, root, target, catalogue))
  {
    var plan := DiffPlan(held, root, target, catalogue);
    DiffIsTidy(held, root, target, catalogue);
    forall i | 0 <= i < |plan.files|
      ensures SoundFile(plan.files[i])
    {
      PlannedFileTiled(held, root, target, catalogue, i);
      var f := PlannedFrom(held, root, target, catalogue, i);
      PlacedSourcesSound(held, root, catalogue, f.chunks);
    }
  }

  /** A verified target matches the manifest entry it was planned from. */
  lemma VerifiedMatches(hash: Hasher, content: seq<byte>, file: ManifestFile, index: HeldIndex, catalogue: Catalogue)
    requires Verified(hash, content, PlanFile(file, index, catalogue))
    ensures Matches(hash, content, file)
  {
    var placements := PlaceAll(file.chunks, index, catalogue);
    forall k | 0 <= k < |file.chunks|
      ensures MatchesChunk(hash, content, file.chunks[k])
    {
      assert HasDigest(hash, content, placements[k]);
    }
  }

  lemma {:induction false} NoFirstError(env: Env, base: Files, plans: seq<FilePlan>)
    ensures FirstError(env, base, plans).None? <==> forall p :: p in plans ==> Assemble(env, base, p.placements).Ok?
  {
    if plans != [] {
      NoFirstError(env, base, plans[1..]);
    }
  }

  /** The path is no file of either manifest. */
  ghost predicate Unlisted(root: Path, held: ModManifest, target: ModManifest, q: Path) {
    forall path :: q == Join(root, path) ==> !Listed(held.files, path) && !Listed(target.files, path)
  }

  /** What a successful update leaves of a target folder and its surroundings. */
  ghost predicate InstallsTarget(
    hash: Hasher, held: ModManifest, target: ModManifest, catalogue: Catalogue, root: Path, before: Files, r: Progress) {
    var plan := DiffPlan(held, root, target, catalogue);
    && Truthful(hash, r.files, root, target)
    && (forall path :: Listed(held.files, path) && !Listed(target.files, path) ==> Join(root, path) !in r.files)
    && (forall q :: !IsStagedOf(root, plan.files, q) && Unlisted(root, held, target, q) ==> Same(r.files, before, q))
    && (forall i :: 0 <= i < |plan.files| ==> StagedOf(root, plan.files[i]) !in r.files)
    && r.report == PlanReport(plan, root, before)
  }

  lemma VerifiedInstallsTarget(
    env: Env, held: ModManifest, target: ModManifest, catalogue: Catalogue, root: Path, skipPlaced: bool, files: Files)
    requires SoundManifest(held) && SoundManifest(target) && Truthful(env.hash, files, root, held)
    requires TrustedPlans(env.hash, root, DiffPlan(held, root, target, catalogue).files, files, skipPlaced)
    ensures
      var r := Materialised(env, DiffPlan(held, root, target, catalogue), root, skipPlaced, files);
      r.error.None? ==> InstallsTarget(env.hash, held, target, catalogue, root, files, r)
  {
    var plan := DiffPlan(held, root, target, catalogue);
    var r := Materialised(env, plan, root, skipPlaced, files);
    DiffIsTidy(held, root, target, catalogue);
    InstallVerifies(env, plan, root, skipPlaced, files);
    if r.error.None? {
      RemovalsCover(held.files, target.files);
      forall i | 0 <= i < |target.files|
        ensures Installed(env.hash, r.files, root, target.files[i])
      {
        TargetFileInstalled(env.hash, held, target, catalogue, root, files, r.files, i);
      }
      forall q | !IsStagedOf(root, plan.files, q) && Unlisted(root, held, target, q)
        ensures Same(r.files, files, q)
      {
        UnlistedIsUntouched(held, target, catalogue, root, q);
      }
    }
  }

  /**
   * Whenever an update succeeds, every target file matches its manifest entry, files only held are gone,
   * every other file is untouched, and the report carries the plan's own totals.
   */
  lemma UpdateInstallsTarget(
    env: Env, held: ModManifest, target: ModManifest, catalogue: Catalogue, root: Path, files: Files)
    requires SoundManifest(held) && SoundManifest(target)
    requires Truthful(env.hash, files, root, held)
    ensures
      var r := Materialised(env, DiffPlan(held, root, target, catalogue), root, false, files);
      r.error.None? ==> InstallsTarget(env.hash, held, target, catalogue, root, files, r)
  {
    PlainTrustsNothing(env.hash, root, DiffPlan(held, root, target, catalogue).files, files);
    VerifiedInstallsTarget(env, held, target, catalogue, root, false, files);
  }

  lemma UnlistedIsUntouched(held: ModManifest, target: ModManifest, catalogue: Catalogue, root: Path, q: Path)
    requires Unlisted(root, held, target, q)
    ensures
      var plan := DiffPlan(held, root, target, catalogue);
      !IsTargetOf(root, plan.files, q) && !IsRemovalOf(root, plan, q)
  {
    var plan := DiffPlan(held, root, target, catalogue);
    RemovalsCover(held.files, target.files);
    forall i | 0 <= i < |plan.files|
      ensures q != TargetOf(root, plan.files[i])
    {
      var f := PlannedFrom(held, root, target, catalogue, i);
    }
  }

  lemma UnchangedFileKept(
    held: ModManifest, target: ModManifest, catalogue: Catalogue, root: Path, files: Files, after: Files, f: ManifestFile)
    requires SoundManifest(held) && SoundManifest(target)
    requires f in target.files && FileUnchanged(held, f)
    requires Elsewhere(DiffPlan(held, root, target, catalogue), root, files, after)
    ensures Same(after, files, Join(root, f.path))
  {
    var plan := DiffPlan(held, root, target, catalogue);
    var at := Join(root, f.path);
    PayloadTargetIsNotStaging(root, f.path);
    forall k | 0 <= k < |plan.files|
      ensures at != StagedOf(root, plan.files[k]) && at != TargetOf(root, plan.files[k])
    {
      assert IsStagingName(StagedOf(root, plan.files[k]));
      var g := PlannedFrom(held, root, target, catalogue, k);
      if at == TargetOf(root, plan.files[k]) {
        JoinInjective(root, f.path, g.path);
      }
    }
    RemovalsCover(held.files, target.files);
    forall k | 0 <= k < |plan.removals|
      ensures at != Join(root, plan.removals[k])
    {
      assert plan.removals[k] in plan.removals;
      if at == Join(root, plan.removals[k]) {
        JoinInjective(root, f.path, plan.removals[k]);
      }
    }
  }

  lemma ChangedFileInstalled(
    hash: Hasher, held: ModManifest, target: ModManifest, catalogue: Catalogue, root: Path, files: Files, after: Files, f: ManifestFile)
    requires f in target.files && !FileUnchanged(held, f)
    requires FinishedVerified(hash, DiffPlan(held, root, target, catalogue), root, files, after)
    ensures Installed(hash, after, root, f)
  {
    var index := IndexFiles(map[], root, held.files);
    var plan := DiffPlan(held, root, target, catalogue);
    var p := PlanFile(f, index, catalogue);
    PlanFilesCover(held, target.files, index, catalogue);
    assert p in plan.files;
    var k :| 0 <= k < |plan.files| && plan.files[k] == p;
    assert TargetOf(root, plan.files[k]) in after;
    VerifiedMatches(hash, after[TargetOf(root, p)], f, index, catalogue);
  }

  lemma TargetFileInstalled(
    hash: Hasher, held: ModManifest, target: ModManifest, catalogue: Catalogue, root: Path, files: Files, after: Files, i: nat)
    requires SoundManifest(held) && SoundManifest(target)
    requires Truthful(hash, files, root, held) && i < |target.files|
    requires FinishedVerified(hash, DiffPlan(held, root, target, catalogue), root, files, after)
    ensures Installed(hash, after, root, target.files[i])
  {
    var f := target.files[i];
    if FileUnchanged(held, f) {
      UnchangedFileKept(held, target, catalogue, root, files, after, f);
      var k :| 0 <= k < |held.files| && held.files[k] == f;
      assert Installed(hash, files, root, held.files[k]);
    } else {
      ChangedFileInstalled(hash, held, target, catalogue, root, files, after, f);
    }
  }

  // ---- When an update succeeds

  ghost predicate CatalogueTruthful(hash: Hasher, files: Files, catalogue: Catalogue) {
    forall d: Digest :: catalogue(d).Some? ==>
      var location := catalogue(d).value;
      && location.file in files
      && Slice(files[location.file], location.offset, location.length).Some?
      && hash(Slice(files[location.file], location.offset, location.length).value) == d
  }

  /** Nothing yet vouches for this chunk: it is remote, or the held manifest knows its digest under another length. */
  predicate Unbacked(held: ModManifest, root: Path, p: ChunkPlacement) {
    var index := IndexFiles(map[], root, held.files);
    p.source == Remote || (p.digest in index && index[p.digest].length != p.length)
  }

  /** An indexed location still holds bytes of its digest. */
  lemma HeldChunkOnDisk(hash: Hasher, held: ModManifest, root: Path, files: Files, digest: Digest, location: HeldLocation)
    requires Truthful(hash, files, root, held) && HoldsChunk(root, held.files, digest, location)
    ensures location.file in files
    ensures
      var slice := Slice(files[location.file], location.offset, location.length);
      slice.Some? && hash(slice.value) == digest
  {
    var i, j :| 0 <= i < |held.files| && 0 <= j < |held.files[i].chunks|
      && held.files[i].chunks[j] == ManifestChunk(digest, location.offset, location.length)
      && location.file == Join(root, held.files[i].path);
    assert Installed(hash, files, root, held.files[i]);
    assert MatchesChunk(hash, files[location.file], held.files[i].chunks[j]);
  }

  lemma BackedPlacementResolves(
    env: Env, held: ModManifest, catalogue: Catalogue, root: Path, files: Files, chunk: ManifestChunk)
    requires Truthful(env.hash, files, root, held) && CatalogueTruthful(env.hash, files, catalogue)
    ensures
      var p := Place(chunk, IndexFiles(map[], root, held.files), catalogue);
      !Unbacked(held, root, p) ==> ResolveChunk(env, files, p).Ok?
  {
    var index := IndexFiles(map[], root, held.files);
    IndexFilesEntries(map[], root, held.files);
    if chunk.digest in index {
      HeldChunkOnDisk(env.hash, held, root, files, chunk.digest, index[chunk.digest]);
    }
  }

  lemma {:induction false} AssembleOk(env: Env, files: Files, placements: seq<ChunkPlacement>)
    ensures Assemble(env, files, placements).Ok? <==> forall p :: p in placements ==> ResolveChunk(env, files, p).Ok?
  {
    if placements != [] {
      AssembleOk(env, files, placements[1..]);
    }
  }

  /** Every chunk of the file that nothing vouches for is there, with the right length and digest. */
  ghost predicate UnbackedServed(env: Env, held: ModManifest, root: Path, files: Files, plan: FilePlan) {
    forall p :: p in plan.placements && Unbacked(held, root, p) ==> ResolveChunk(env, files, p).Ok?
  }

  lemma PlannedFileNeedsUnbacked(
    env: Env, held: ModManifest, target: ModManifest, catalogue: Catalogue, root: Path, files: Files, i: nat)
    requires Truthful(env.hash, files, root, held) && CatalogueTruthful(env.hash, files, catalogue)
    requires i < |DiffPlan(held, root, target, catalogue).files|
    ensures
      var f := DiffPlan(held, root, target, catalogue).files[i];
      Assemble(env, files, f.placements).Ok? <==> UnbackedServed(env, held, root, files, f)
  {
    var f := DiffPlan(held, root, target, catalogue).files[i];
    var file := PlannedFrom(held, root, target, catalogue, i);
    AssembleOk(env, files, f.placements);
    forall p | p in f.placements && !Unbacked(held, root, p)
      ensures ResolveChunk(env, files, p).Ok?
    {
      var k :| 0 <= k < |f.placements| && f.placements[k] == p;
      BackedPlacementResolves(env, held, catalogue, root, files, file.chunks[k]);
    }
  }

  lemma PlannedFilesNeedUnbacked(
    env: Env, held: ModManifest, target: ModManifest, catalogue: Catalogue, root: Path, files: Files)
    requires Truthful(env.hash, files, root, held) && CatalogueTruthful(env.hash, files, catalogue)
    ensures forall f :: f in DiffPlan(held, root, target, catalogue).files ==>
      (Assemble(env, files, f.placements).Ok? <==> UnbackedServed(env, held, root, files, f))
  {
    var plans := DiffPlan(held, root, target, catalogue).files;
    forall f | f in plans
      ensures Assemble(env, files, f.placements).Ok? <==> UnbackedServed(env, held, root, files, f)
    {
      var i :| 0 <= i < |plans| && plans[i] == f;
      PlannedFileNeedsUnbacked(env, held, target, catalogue, root, files, i);
    }
  }

  /**
   * With truthful sources an update gets past staging exactly when every chunk nothing vouches for is served
   * intact: the remote ones, and any whose length the held manifest gives differently.
   */
  lemma UpdateNeedsOnlyUnbackedChunks(
    env: Env, held: ModManifest, target: ModManifest, catalogue: Catalogue, root: Path, files: Files)
    requires SoundManifest(held) && SoundManifest(target) && CatalogueApart(catalogue)
    requires Truthful(env.hash, files, root, held) && CatalogueTruthful(env.hash, files, catalogue)
    ensures
      var plan := DiffPlan(held, root, target, catalogue);
      var r := Materialised(env, plan, root, false, files);
      (r.error.None? || r.error == Some(ExtensionRejected)) <==>
        forall f :: f in plan.files ==> UnbackedServed(env, held, root, files, f)
  {
    var plan := DiffPlan(held, root, target, catalogue);
    DiffIsSound(held, root, target, catalogue);
    MaterialisedAt(env, plan, root, false, files, files);
    NoFirstError(env, files, plan.files);
    FirstErrorIsChunkError(env, files, plan.files);
    PlannedFilesNeedUnbacked(env, held, target, catalogue, root, files);
  }

  lemma {:induction false} FirstErrorIsChunkError(env: Env, base: Files, plans: seq<FilePlan>)
    ensures FirstError(env, base, plans) != Some(ExtensionRejected)
  {
    if plans != [] {
      FirstErrorIsChunkError(env, base, plans[1..]);
      AssembleErrorIsChunkError(env, base, plans[0].placements);
    }
  }

  lemma {:induction false} AssembleErrorIsChunkError(env: Env, files: Files, placements: seq<ChunkPlacement>)
    ensures Assemble(env, files, placements) != Err(ExtensionRejected)
  {
    if placements != [] {
      AssembleErrorIsChunkError(env, files, placements[1..]);
    }
  }
}
