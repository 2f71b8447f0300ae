/** Staging over whatever an interrupted update left: what is kept, and why the fast install may trust it. */
module ResumedStaging {
  import opened Wrappers
  import opened Bytes
  import opened FileStore
  import opened Content
  import opened InstallPlans
  import opened Differ
  import opened Installer
  import opened Assembly
  import opened VerifiedStaging
  import opened Update
  import opened Staging
  import opened FetchedUpdate

  // ---- When a staging file is kept

  /** Every range the plan takes from the same place of the original lies inside these bytes and has its digest. */
  ghost predicate HoldsInPlace(hash: Hasher, content: seq<byte>, original: Path, placements: seq<ChunkPlacement>) {
    forall p :: p in placements && p.source == Held && p.heldFile == original && p.heldOffset == p.targetOffset ==>
      p.targetOffset + p.length <= |content| && hash(content[p.targetOffset..p.targetOffset + p.length]) == p.digest
  }

  lemma {:induction false} StagedMatchesExactly(hash: Hasher, content: seq<byte>, original: Path, placements: seq<ChunkPlacement>)
    ensures StagedMatches(hash, content, original, placements) <==> HoldsInPlace(hash, content, original, placements)
  {
    if placements != [] {
      StagedMatchesExactly(hash, content, original, placements[1..]);
      assert placements[0] in placements;
      assert forall p :: p in placements <==> p == placements[0] || p in placements[1..];
    }
  }

  /** A staging file is kept exactly when it is there and every range held in place has its digest in it. */
  lemma ResumesExactly(hash: Hasher, files: Files, original: Path, plan: FilePlan)
    ensures Resumes(hash, files, original, plan) <==>
      StagedPath(original) in files && HoldsInPlace(hash, files[StagedPath(original)], original, plan.placements)
  {
    if StagedPath(original) in files {
      StagedMatchesExactly(hash, files[StagedPath(original)], original, plan.placements);
    }
  }

  // ---- One staging file

  lemma ResizedHolds(hash: Hasher, content: seq<byte>, original: Path, placements: seq<ChunkPlacement>, size: nat)
    requires HoldsInPlace(hash, content, original, placements) && Tiles(placements, 0, size)
    ensures HoldsInPlace(hash, Resized(content, size), original, placements)
  {
    TilesRange(placements, 0, size);
    var resized := Resized(content, size);
    forall p | p in placements && p.source == Held && p.heldFile == original && p.heldOffset == p.targetOffset
      ensures p.targetOffset + p.length <= |resized| && hash(resized[p.targetOffset..p.targetOffset + p.length]) == p.digest
    {
      var k :| 0 <= k < |placements| && placements[k] == p;
      assert resized[p.targetOffset..p.targetOffset + p.length] == content[p.targetOffset..p.targetOffset + p.length];
    }
  }

  /**
   * Seeding over any earlier disk: a staging file that holds what is held in place is kept, cut or grown to size; any
   * other is the original cut or grown to size. Nothing else is written, and with a truthful original every range
   * held in place has its digest in it either way.
   */
  lemma SeededMeaning(hash: Hasher, files: Files, original: Path, plan: FilePlan)
    ensures
      var staged := StagedPath(original);
      var after := Seeded(hash, files, original, plan);
      && staged in after && |after[staged]| == plan.size
      && (staged in files && HoldsInPlace(hash, files[staged], original, plan.placements) ==> after[staged] == Resized(files[staged], plan.size))
      && (!(staged in files && HoldsInPlace(hash, files[staged], original, plan.placements)) ==>
            after[staged] == Resized(ContentAt(files, original), plan.size))
      && (forall q :: q != staged ==> Same(after, files, q))
      && (Tiles(plan.placements, 0, plan.size) && HoldsInPlace(hash, ContentAt(files, original), original, plan.placements) ==>
            HoldsInPlace(hash, after[staged], original, plan.placements))
  {
    ResumesExactly(hash, files, original, plan);
    if Tiles(plan.placements, 0, plan.size) && HoldsInPlace(hash, ContentAt(files, original), original, plan.placements) {
      ResizedHolds(hash, if Resumes(hash, files, original, plan) then files[StagedPath(original)] else ContentAt(files, original),
                   original, plan.placements, plan.size);
    }
  }

  // ---- A whole stage

  lemma SeededDepends(hash: Hasher, a: Files, b: Files, original: Path, plan: FilePlan)
    requires Same(a, b, original) && Same(a, b, StagedPath(original))
    ensures Seeded(hash, a, original, plan)[StagedPath(original)] == Seeded(hash, b, original, plan)[StagedPath(original)]
    ensures Resumes(hash, a, original, plan) <==> Resumes(hash, b, original, plan)
  {
  }

  /** What a stage leaves, staging file by staging file, over any earlier disk. */
  ghost predicate StagedOver(hash: Hasher, root: Path, plans: seq<FilePlan>, before: Files, after: Files) {
    && (forall i :: 0 <= i < |plans| ==> StagedAs(hash, root, plans[i], before, after))
    && (forall q :: !IsStagedOf(root, plans, q) ==> Same(after, before, q))
  }

  ghost predicate SomeResumes(hash: Hasher, root: Path, plans: seq<FilePlan>, files: Files) {
    exists i :: 0 <= i < |plans| && Resumes(hash, files, TargetOf(root, plans[i]), plans[i])
  }

  lemma StageOneIs(hash: Hasher, root: Path, plan: FilePlan, s: StageState)
    ensures
      var r := StageOne(hash, root, plan, s);
      && r.files == Seeded(hash, s.files, TargetOf(root, plan), plan)
      && r.request.resumed == (s.request.resumed || Resumes(hash, s.files, TargetOf(root, plan), plan))
  {
    var original := TargetOf(root, plan);
    var resumed := s.request.resumed || Resumes(hash, s.files, original, plan);
    CollectedKeepsFiles(StagedPath(original), plan.placements,
      s.(files := Seeded(hash, s.files, original, plan), request := s.request.(resumed := resumed)));
  }

  /** Later files of the plan are seeded as if the first had not been. */
  lemma LaterUnmoved(hash: Hasher, root: Path, plans: seq<FilePlan>, before: Files, next: Files, i: nat)
    requires plans != [] && SoundPlans(plans) && i < |plans[1..]|
    requires forall q :: q != StagedOf(root, plans[0]) ==> Same(next, before, q)
    ensures
      var plan := plans[1..][i];
      && Seeded(hash, next, TargetOf(root, plan), plan)[StagedOf(root, plan)] == Seeded(hash, before, TargetOf(root, plan), plan)[StagedOf(root, plan)]
      && (Resumes(hash, next, TargetOf(root, plan), plan) <==> Resumes(hash, before, TargetOf(root, plan), plan))
  {
    var plan := plans[1..][i];
    assert plan == plans[i + 1] && SoundFile(plans[i + 1]);
    StagingNamesApart(root, plans[0], plan);
    SeededDepends(hash, next, before, TargetOf(root, plan), plan);
  }

  /** The plan's first staging file, and each later one, as the stage leaves them. */
  ghost predicate StagedAs(hash: Hasher, root: Path, plan: FilePlan, before: Files, after: Files) {
    && StagedOf(root, plan) in after
    && after[StagedOf(root, plan)] == Seeded(hash, before, TargetOf(root, plan), plan)[StagedOf(root, plan)]
  }

  lemma OthersSame(root: Path, plans: seq<FilePlan>, before: Files, next: Files, after: Files, q: Path)
    requires plans != [] && !IsStagedOf(root, plans, q)
    requires forall p :: p != StagedOf(root, plans[0]) ==> Same(next, before, p)
    requires forall p :: !IsStagedOf(root, plans[1..], p) ==> Same(after, next, p)
    ensures Same(after, before, q)
  {
    forall i | 0 <= i < |plans[1..]|
      ensures q != StagedOf(root, plans[1..][i])
    {
      assert plans[1..][i] == plans[i + 1];
    }
    assert q != StagedOf(root, plans[0]) && Same(after, next, q) && Same(next, before, q);
  }

  /** The first file staged, then the others over what that left. */
  ghost predicate FirstThenOthers(hash: Hasher, root: Path, plans: seq<FilePlan>, before: Files, next: Files, after: Files) {
    && plans != [] && SoundPlans(plans) && next == Seeded(hash, before, TargetOf(root, plans[0]), plans[0])
    && StagedOver(hash, root, plans[1..], next, after)
  }

  lemma FirstStagedAs(hash: Hasher, root: Path, plans: seq<FilePlan>, before: Files, next: Files, after: Files)
    requires plans != []
    ensures FirstThenOthers(hash, root, plans, before, next, after) ==> StagedAs(hash, root, plans[0], before, after)
  {
    if FirstThenOthers(hash, root, plans, before, next, after) {
      SoundIsTidy(plans);
      NamesApart(root, plans);
      assert Same(after, next, StagedOf(root, plans[0]));
    }
  }

  lemma LaterStagedAs(hash: Hasher, root: Path, plans: seq<FilePlan>, before: Files, next: Files, after: Files, i: nat)
    requires plans != [] && i < |plans[1..]|
    ensures FirstThenOthers(hash, root, plans, before, next, after) ==> StagedAs(hash, root, plans[1..][i], before, after)
  {
    if FirstThenOthers(hash, root, plans, before, next, after) {
      assert StagedAs(hash, root, plans[1..][i], next, after);
      LaterUnmoved(hash, root, plans, before, next, i);
    }
  }

  lemma FirstAndLater(plans: seq<FilePlan>, good: FilePlan -> bool)
    requires plans != [] && good(plans[0]) && forall i :: 0 <= i < |plans[1..]| ==> good(plans[1..][i])
    ensures forall i :: 0 <= i < |plans| ==> good(plans[i])
  {
    forall i | 0 <= i < |plans|
      ensures good(plans[i])
    {
      if i > 0 {
        assert plans[i] == plans[1..][i - 1];
      }
    }
  }

  lemma AllOthersSame(hash: Hasher, root: Path, plans: seq<FilePlan>, before: Files, next: Files, after: Files, q: Path)
    requires FirstThenOthers(hash, root, plans, before, next, after)
    ensures !IsStagedOf(root, plans, q) ==> Same(after, before, q)
  {
    if !IsStagedOf(root, plans, q) {
      OthersSame(root, plans, before, next, after, q);
    }
  }

  lemma StagedOverCons(hash: Hasher, root: Path, plans: seq<FilePlan>, before: Files, next: Files, after: Files)
    requires FirstThenOthers(hash, root, plans, before, next, after)
    ensures StagedOver(hash, root, plans, before, after)
  {
    var good := (plan: FilePlan) => StagedAs(hash, root, plan, before, after);
    FirstStagedAs(hash, root, plans, before, next, after);
    forall i | 0 <= i < |plans[1..]|
      ensures good(plans[1..][i])
    {
      LaterStagedAs(hash, root, plans, before, next, after, i);
    }
    FirstAndLater(plans, good);
    forall q
      ensures !IsStagedOf(root, plans, q) ==> Same(after, before, q)
    {
      AllOthersSame(hash, root, plans, before, next, after, q);
    }
  }

  lemma SomeResumesCons(hash: Hasher, root: Path, plans: seq<FilePlan>, before: Files, next: Files)
    requires plans != [] && SoundPlans(plans) && next == Seeded(hash, before, TargetOf(root, plans[0]), plans[0])
    ensures SomeResumes(hash, root, plans, before) <==>
      Resumes(hash, before, TargetOf(root, plans[0]), plans[0]) || SomeResumes(hash, root, plans[1..], next)
  {
    forall i | 0 <= i < |plans[1..]|
      ensures plans[1..][i] == plans[i + 1]
      ensures Resumes(hash, next, TargetOf(root, plans[1..][i]), plans[1..][i]) <==> Resumes(hash, before, TargetOf(root, plans[i + 1]), plans[i + 1])
    {
      LaterUnmoved(hash, root, plans, before, next, i);
    }
    if i :| 0 <= i < |plans| && Resumes(hash, before, TargetOf(root, plans[i]), plans[i]) {
      assert i > 0 ==> plans[1..][i - 1] == plans[i];
    }
  }

  /** Staging over any earlier disk: every file seeded on its own, nothing else written, and resumed exactly when one was kept. */
  lemma {:induction false} StageAllSeeds(hash: Hasher, root: Path, plans: seq<FilePlan>, s: StageState)
    requires SoundPlans(plans)
    ensures StagedOver(hash, root, plans, s.files, StageAll(hash, root, plans, s).files)
    ensures StageAll(hash, root, plans, s).request.resumed <==> s.request.resumed || SomeResumes(hash, root, plans, s.files)
    decreases plans
  {
    if plans != [] {
      var next := StageOne(hash, root, plans[0], s);
      StageOneIs(hash, root, plans[0], s);
      SoundPlansTail(plans);
      StageAllSeeds(hash, root, plans[1..], next);
      StagedOverCons(hash, root, plans, s.files, next.files, StageAll(hash, root, plans[1..], next).files);
      SomeResumesCons(hash, root, plans, s.files, next.files);
    }
  }

  /** The originals still hold what the plan takes from their own places. */
  ghost predicate OriginalsHold(hash: Hasher, root: Path, plans: seq<FilePlan>, files: Files) {
    forall i :: 0 <= i < |plans| ==> HoldsInPlace(hash, ContentAt(files, TargetOf(root, plans[i])), TargetOf(root, plans[i]), plans[i].placements)
  }

  /** After staging over any earlier disk every range held in place has its digest in its staging file. */
  lemma StagedRangesHold(hash: Hasher, root: Path, plan: InstallPlan, files: Files, i: nat)
    requires SoundPlans(plan.files) && OriginalsHold(hash, root, plan.files, files) && i < |plan.files|
    ensures
      var after := StageFrom(hash, root, plan, files).files;
      && StagedOf(root, plan.files[i]) in after
      && |after[StagedOf(root, plan.files[i])]| == plan.files[i].size
      && HoldsInPlace(hash, after[StagedOf(root, plan.files[i])], TargetOf(root, plan.files[i]), plan.files[i].placements)
  {
    StageAllSeeds(hash, root, plan.files, StageState(files, Request([], [], false), {}));
    assert SoundFile(plan.files[i]) && StagedAs(hash, root, plan.files[i], files, StageFrom(hash, root, plan, files).files);
    SeededMeaning(hash, files, TargetOf(root, plan.files[i]), plan.files[i]);
  }

  // ---- Finishing an update that was interrupted

  /** Held places resolve, so the originals hold what the plan takes from their own places. */
  lemma BackedOriginalsHold(
    env: Env, held: ModManifest, target: ModManifest, catalogue: Catalogue, root: Path, files: Files)
    requires Truthful(env.hash, files, root, held) && CatalogueTruthful(env.hash, files, catalogue)
    requires OddLengthsThere(env, held, root, files, DiffPlan(held, root, target, catalogue).files)
    ensures OriginalsHold(env.hash, root, DiffPlan(held, root, target, catalogue).files, files)
  {
    var plans := DiffPlan(held, root, target, catalogue).files;
    forall i | 0 <= i < |plans|
      ensures HoldsInPlace(env.hash, ContentAt(files, TargetOf(root, plans[i])), TargetOf(root, plans[i]), plans[i].placements)
    {
      forall p | p in plans[i].placements && p.source == Held && p.heldFile == TargetOf(root, plans[i]) && p.heldOffset == p.targetOffset
        ensures ResolveChunk(env, files, p).Ok?
      {
        HeldResolves(env, held, target, catalogue, root, files, i, p);
      }
    }
  }

  lemma HeldResolves(
    env: Env, held: ModManifest, target: ModManifest, catalogue: Catalogue, root: Path, files: Files, i: nat, p: ChunkPlacement)
    requires Truthful(env.hash, files, root, held) && CatalogueTruthful(env.hash, files, catalogue)
    requires OddLengthsThere(env, held, root, files, DiffPlan(held, root, target, catalogue).files)
    requires i < |DiffPlan(held, root, target, catalogue).files| && p in DiffPlan(held, root, target, catalogue).files[i].placements
    requires p.source == Held
    ensures ResolveChunk(env, files, p).Ok?
  {
    var plans := DiffPlan(held, root, target, catalogue).files;
    assert plans[i] in plans;
    if !Unbacked(held, root, p) {
      var file := PlannedFrom(held, root, target, catalogue, i);
      var k :| 0 <= k < |plans[i].placements| && plans[i].placements[k] == p;
      BackedPlacementResolves(env, held, catalogue, root, files, file.chunks[k]);
    }
  }

  /**
   * The staging files once the download is done: what was held in place is as staged, every fetched range has its
   * digest, as the torrent has checked it, and no other file has changed.
   */
  ghost predicate Downloaded(hash: Hasher, root: Path, plans: seq<FilePlan>, staged: Files, after: Files) {
    && (forall q :: !IsStagedOf(root, plans, q) ==> Same(after, staged, q))
    && forall i :: 0 <= i < |plans| ==>
         && StagedOf(root, plans[i]) in staged && StagedOf(root, plans[i]) in after
         && DownloadedFile(hash, TargetOf(root, plans[i]), plans[i], staged[StagedOf(root, plans[i])], after[StagedOf(root, plans[i])])
  }

  ghost predicate DownloadedFile(hash: Hasher, target: Path, plan: FilePlan, staged: seq<byte>, after: seq<byte>) {
    && |after| == plan.size
    && forall p :: p in plan.placements ==>
         && (AlreadySeeded(target, p) ==> Slice(after, p.targetOffset, p.length) == Slice(staged, p.targetOffset, p.length))
         && (p.source == Remote ==> HasDigest(hash, after, p))
  }

  lemma DownloadedIsTrusted(hash: Hasher, target: Path, plan: FilePlan, staged: seq<byte>, after: seq<byte>)
    requires DownloadedFile(hash, target, plan, staged, after) && HoldsInPlace(hash, staged, target, plan.placements)
    ensures Trusted(hash, target, after, plan.placements, true)
  {
    forall k | 0 <= k < |plan.placements| && Skipped(true, target, plan.placements[k])
      ensures HasDigest(hash, after, plan.placements[k])
    {
      assert plan.placements[k] in plan.placements;
    }
  }

  lemma StageIsTrusted(hash: Hasher, root: Path, plan: InstallPlan, before: Files, after: Files)
    requires SoundPlans(plan.files) && OriginalsHold(hash, root, plan.files, before)
    requires Downloaded(hash, root, plan.files, StageFrom(hash, root, plan, before).files, after)
    ensures TrustedPlans(hash, root, plan.files, after, true)
  {
    var staged := StageFrom(hash, root, plan, before).files;
    forall i | 0 <= i < |plan.files|
      ensures TrustedFile(hash, root, plan.files[i], after, true)
    {
      var file := StagedOf(root, plan.files[i]);
      StagedRangesHold(hash, root, plan, before, i);
      DownloadedIsTrusted(hash, TargetOf(root, plan.files[i]), plan.files[i], staged[file], after[file]);
      assert Resized(after[file], plan.files[i].size) == after[file];
    }
  }

  // ---- It gets through

  lemma {:induction false} PlacingSucceeds(env: Env, target: Path, placements: seq<ChunkPlacement>, skipPlaced: bool, s: Progress, base: Files)
    requires s.error.None? && AgreeOffStaging(s.files, base) && SoundSources(placements)
    requires forall p :: p in placements && !Skipped(skipPlaced, target, p) ==> ResolveChunk(env, base, p).Ok?
    ensures
      var r := PlaceChunks(env, target, placements, skipPlaced, s);
      r.error.None? && AgreeOffStaging(r.files, base)
    decreases placements
  {
    if placements != [] {
      var p := placements[0];
      assert p in placements;
      var next := PlaceChunk(env, target, p, skipPlaced, s);
      assert p.source == Held ==> Same(s.files, base, p.heldFile);
      assert AgreeOffStaging(next.files, base) by {
        assert IsStagingName(StagedPath(target));
      }
      PlacingSucceeds(env, target, placements[1..], skipPlaced, next, base);
    }
  }

  ghost predicate OthersResolve(env: Env, root: Path, plans: seq<FilePlan>, skipPlaced: bool, base: Files) {
    forall i, p :: 0 <= i < |plans| && p in plans[i].placements && !Skipped(skipPlaced, TargetOf(root, plans[i]), p) ==>
      ResolveChunk(env, base, p).Ok?
  }

  lemma {:induction false} StagingSucceeds(env: Env, root: Path, plans: seq<FilePlan>, skipPlaced: bool, s: Progress, base: Files)
    requires s.error.None? && AgreeOffStaging(s.files, base) && SoundPlans(plans) && OthersResolve(env, root, plans, skipPlaced, base)
    ensures StageFiles(env, root, plans, skipPlaced, s).error.None?
    decreases plans
  {
    if plans != [] {
      var plan := plans[0];
      assert SoundFile(plan);
      var ready := s.(files := OpenStaged(s.files, TargetOf(root, plan), plan.size));
      assert AgreeOffStaging(ready.files, base) by {
        assert IsStagingName(StagedOf(root, plan));
      }
      PlacingSucceeds(env, TargetOf(root, plan), plan.placements, skipPlaced, ready, base);
      SoundPlansTail(plans);
      assert forall i :: 0 <= i < |plans[1..]| ==> plans[1..][i] == plans[i + 1];
      StagingSucceeds(env, root, plans[1..], skipPlaced, StageFile(env, root, plan, skipPlaced, s), base);
    }
  }

  lemma OthersAllResolve(
    env: Env, held: ModManifest, target: ModManifest, catalogue: Catalogue, root: Path, before: Files, after: Files)
    requires SoundPlans(DiffPlan(held, root, target, catalogue).files)
    requires Truthful(env.hash, before, root, held) && CatalogueTruthful(env.hash, before, catalogue)
    requires OddLengthsThere(env, held, root, before, DiffPlan(held, root, target, catalogue).files)
    requires AgreeOffStaging(after, before)
    ensures OthersResolve(env, root, DiffPlan(held, root, target, catalogue).files, true, after)
  {
    var plans := DiffPlan(held, root, target, catalogue).files;
    forall i, p | 0 <= i < |plans| && p in plans[i].placements && !Skipped(true, TargetOf(root, plans[i]), p)
      ensures ResolveChunk(env, after, p).Ok?
    {
      HeldResolves(env, held, target, catalogue, root, before, i, p);
      assert SoundFile(plans[i]);
      assert Same(after, before, p.heldFile);
    }
  }

  /** With everything staged, only a refused extension stops the rest. */
  lemma StagedGetsThrough(env: Env, plan: InstallPlan, root: Path, skipPlaced: bool, files: Files)
    requires SoundPlan(plan) && TidyPlan(plan) && OthersResolve(env, root, plan.files, skipPlaced, files)
    ensures
      var r := Materialised(env, plan, root, skipPlaced, files);
      r.error.None? || r.error == Some(ExtensionRejected)
  {
    var start := Progress(files, EMPTY_REPORT, None);
    StagingSucceeds(env, root, plan.files, skipPlaced, start, files);
    StagingLeavesAll(env, root, plan.files, skipPlaced, start);
    var staged := StageFiles(env, root, plan.files, skipPlaced, start);
    forall q | !IsStagedOf(root, plan.files, q)
      ensures Same(staged.files, files, q)
    {
      StagingElsewhere(env, root, plan.files, skipPlaced, start, q);
    }
    SwapAndRemove(plan, root, files, staged);
  }

  lemma DownloadAgrees(hash: Hasher, root: Path, plan: InstallPlan, before: Files, after: Files)
    requires SoundPlans(plan.files)
    requires Downloaded(hash, root, plan.files, StageFrom(hash, root, plan, before).files, after)
    ensures AgreeOffStaging(after, before)
    ensures forall q :: !IsStagedOf(root, plan.files, q) ==> Same(after, before, q)
  {
    StageAllSeeds(hash, root, plan.files, StageState(before, Request([], [], false), {}));
    var staged := StageFrom(hash, root, plan, before).files;
    forall q | !IsStagedOf(root, plan.files, q)
      ensures Same(after, before, q)
    {
      assert Same(after, staged, q) && Same(staged, before, q);
    }
    forall q | !IsStagingName(q)
      ensures Same(after, before, q)
    {
      forall i | 0 <= i < |plan.files|
        ensures q != StagedOf(root, plan.files[i])
      {
        assert IsStagingName(StagedOf(root, plan.files[i]));
      }
    }
  }

  lemma TruthfulAfterDownload(hash: Hasher, root: Path, manifest: ModManifest, before: Files, after: Files)
    requires SoundManifest(manifest) && Truthful(hash, before, root, manifest) && AgreeOffStaging(after, before)
    ensures Truthful(hash, after, root, manifest)
  {
    forall i | 0 <= i < |manifest.files|
      ensures Installed(hash, after, root, manifest.files[i])
    {
      assert Installed(hash, before, root, manifest.files[i]);
      PayloadTargetIsNotStaging(root, manifest.files[i].path);
      assert Same(after, before, Join(root, manifest.files[i].path));
    }
  }

  /**
   * Whatever an interrupted update left behind: compare, stage, download, and finish without hashing what was placed.
   * Nothing but a refused extension can stop it, and otherwise the target folder results.
   */
  lemma ResumedUpdateInstallsTarget(
    env: Env, held: ModManifest, target: ModManifest, catalogue: Catalogue, root: Path, before: Files, after: Files)
    requires SoundManifest(held) && SoundManifest(target) && CatalogueApart(catalogue)
    requires Truthful(env.hash, before, root, held) && CatalogueTruthful(env.hash, before, catalogue)
    requires
      var plan := DiffPlan(held, root, target, catalogue);
      && OddLengthsThere(env, held, root, before, plan.files)
      && Downloaded(env.hash, root, plan.files, StageFrom(env.hash, root, plan, before).files, after)
    ensures
      var r := Materialised(env, DiffPlan(held, root, target, catalogue), root, true, after);
      && (r.error.None? || r.error == Some(ExtensionRejected))
      && (r.error.None? ==> InstallsTarget(env.hash, held, target, catalogue, root, after, r))
  {
    var plan := DiffPlan(held, root, target, catalogue);
    DiffIsSound(held, root, target, catalogue);
    DiffIsTidy(held, root, target, catalogue);
    BackedOriginalsHold(env, held, target, catalogue, root, before);
    StageIsTrusted(env.hash, root, plan, before, after);
    DownloadAgrees(env.hash, root, plan, before, after);
    OthersAllResolve(env, held, target, catalogue, root, before, after);
    StagedGetsThrough(env, plan, root, true, after);
    TruthfulAfterDownload(env.hash, root, held, before, after);
    VerifiedInstallsTarget(env, held, target, catalogue, root, true, after);
  }
}
