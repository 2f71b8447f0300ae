/** What staging, swapping and removing leave on the disk, stated file by file. */
module Assembly {
  import opened Sequences
  import opened Wrappers
  import opened Bytes
  import opened FileStore
  import opened Content
  import opened InstallPlans
  import opened PayloadPath
  import opened Differ
  import opened Installer

  // ---- Names

  predicate IsStagingName(path: Path) {
    |STAGING_SUFFIX| <= |path| && path[|path| - |STAGING_SUFFIX|..] == STAGING_SUFFIX
  }

  function TargetOf(root: Path, plan: FilePlan): Path {
    Join(root, plan.path)
  }

  function StagedOf(root: Path, plan: FilePlan): Path {
    StagedPath(TargetOf(root, plan))
  }

  lemma PayloadTargetIsNotStaging(root: Path, path: string)
    requires IsPayloadPath(path)
    ensures !IsStagingName(Join(root, path))
  {
    AcceptedEnding(path);
    var joined := Join(root, path);
    assert joined[|joined| - 1] == path[|path| - 1];
  }

  lemma StagedOfInjective(root: Path, a: FilePlan, b: FilePlan)
    requires StagedOf(root, a) == StagedOf(root, b)
    ensures a.path == b.path
  {
    var x, y := TargetOf(root, a), TargetOf(root, b);
    assert |x| == |y|;
    assert x == StagedPath(x)[..|x|] && y == StagedPath(y)[..|y|];
    JoinInjective(root, a.path, b.path);
  }

  /** Two plans share a staging name exactly when they share their path, and no staging name is anybody's target. */
  lemma StagingNamesApart(root: Path, a: FilePlan, b: FilePlan)
    ensures StagedOf(root, a) == StagedOf(root, b) <==> a.path == b.path
    ensures IsPayloadPath(b.path) ==> StagedOf(root, a) != TargetOf(root, b)
  {
    if StagedOf(root, a) == StagedOf(root, b) {
      StagedOfInjective(root, a, b);
    }
    if IsPayloadPath(b.path) {
      PayloadTargetIsNotStaging(root, b.path);
      assert IsStagingName(StagedOf(root, a));
    }
  }

  predicate Same(a: Files, b: Files, path: Path) {
    (path in a <==> path in b) && (path in a ==> a[path] == b[path])
  }

  // ---- One file

  /** Sound plan for one file: its chunks tile it and nothing is read from a staging file. */
  ghost predicate SoundFile(plan: FilePlan) {
    && IsPayloadPath(plan.path)
    && Tiles(plan.placements, 0, plan.size)
    && SoundSources(plan.placements)
  }

  ghost predicate SoundSources(placements: seq<ChunkPlacement>) {
    forall p :: p in placements && p.source == Held ==> !IsStagingName(p.heldFile)
  }

  /** The bytes of a file, resolved chunk after chunk from an unchanging disk. */
  function Assemble(env: Env, files: Files, placements: seq<ChunkPlacement>): Result<seq<byte>, InstallError> {
    if placements == [] then Ok([])
    else
      match ResolveChunk(env, files, placements[0])
      case Err(e) => Err(e)
      case Ok(bytes) =>
        match Assemble(env, files, placements[1..])
        case Err(e) => Err(e)
        case Ok(rest) => Ok(bytes + rest)
  }

  lemma {:induction false} AssembleAgrees(env: Env, a: Files, b: Files, placements: seq<ChunkPlacement>)
    requires forall p :: p in placements && p.source == Held ==> Same(a, b, p.heldFile)
    ensures Assemble(env, a, placements) == Assemble(env, b, placements)
  {
    if placements != [] {
      assert placements[0] in placements;
      AssembleAgrees(env, a, b, placements[1..]);
    }
  }

  function CreditAll(report: InstallReport, placements: seq<ChunkPlacement>): InstallReport
    decreases placements
  {
    if placements == [] then report else CreditAll(Credit(report, placements[0]), placements[1..])
  }

  lemma {:induction false} CreditAllTotals(report: InstallReport, placements: seq<ChunkPlacement>)
    ensures CreditAll(report, placements) == report.(
      heldBytes := report.heldBytes + PlacementBytes(placements, Held),
      remoteBytes := report.remoteBytes + PlacementBytes(placements, Remote))
    decreases placements
  {
    if placements != [] {
      CreditAllTotals(Credit(report, placements[0]), placements[1..]);
    }
  }

  lemma UpdateTwice(files: Files, path: Path, first: seq<byte>, second: seq<byte>)
    ensures files[path := first][path := second] == files[path := second]
  {
  }

  /** Every placement the fast form skips already holds, in the staged file, the bytes it resolves to. */
  ghost predicate Prepared(env: Env, base: Files, staged: seq<byte>, target: Path, placements: seq<ChunkPlacement>, skipPlaced: bool) {
    forall p :: p in placements && Skipped(skipPlaced, target, p) ==>
      ResolveChunk(env, base, p).Ok? && Slice(staged, p.targetOffset, p.length) == Some(ResolveChunk(env, base, p).value)
  }

  /** Equal on every path that is not a staging name. */
  ghost predicate AgreeOffStaging(a: Files, b: Files) {
    forall q :: !IsStagingName(q) ==> Same(a, b, q)
  }

  /** One placement: the staged file gains the resolved bytes and keeps the rest. */
  lemma PlaceChunkStep(env: Env, target: Path, p: ChunkPlacement, skipPlaced: bool, s: Progress, base: Files)
    requires s.error.None? && StagedPath(target) in s.files
    requires p.targetOffset + p.length <= |s.files[StagedPath(target)]|
    requires p.source == Held ==> Same(s.files, base, p.heldFile)
    requires ResolveChunk(env, base, p).Ok?
    requires Skipped(skipPlaced, target, p) ==>
      Slice(s.files[StagedPath(target)], p.targetOffset, p.length) == Some(ResolveChunk(env, base, p).value)
    ensures
      var content := s.files[StagedPath(target)];
      var next := PlaceChunk(env, target, p, skipPlaced, s);
      var written := Overwritten(content, p.targetOffset, ResolveChunk(env, base, p).value);
      next == Progress(s.files[StagedPath(target) := written], Credit(s.report, p), None)
  {
    var content := s.files[StagedPath(target)];
    var bytes := ResolveChunk(env, base, p).value;
    assert ResolveChunk(env, s.files, p) == ResolveChunk(env, base, p);
    if Skipped(skipPlaced, target, p) {
      var written := Overwritten(content, p.targetOffset, bytes);
      assert written == content by {
        assert |written| == |content|;
        forall i | 0 <= i < |content|
          ensures written[i] == content[i]
        {
          if p.targetOffset <= i < p.targetOffset + |bytes| {
            assert bytes[i - p.targetOffset] == content[p.targetOffset..p.targetOffset + p.length][i - p.targetOffset];
          }
        }
      }
      assert s.files[StagedPath(target) := content] == s.files;
    }
  }

  lemma OverwriteSlices(content: seq<byte>, start: nat, bytes: seq<byte>, at: nat, length: nat)
    requires start + |bytes| <= at && at + length <= |content|
    ensures
      var written := Overwritten(content, start, bytes);
      && |written| == |content|
      && written[..start + |bytes|] == content[..start] + bytes
      && written[at..at + length] == content[at..at + length]
  {
  }

  /** What placing the remaining chunks of a file, from `start` on, may rely on. */
  ghost predicate Ready(
    env: Env, target: Path, placements: seq<ChunkPlacement>, skipPlaced: bool, s: Progress, base: Files, start: nat, stop: nat) {
    && s.error.None?
    && StagedPath(target) in s.files
    && |s.files[StagedPath(target)]| == stop
    && Tiles(placements, start, stop)
    && SoundSources(placements)
    && AgreeOffStaging(s.files, base)
    && Prepared(env, base, s.files[StagedPath(target)], target, placements, skipPlaced)
  }

  /** Writing the first placement's bytes disturbs no later one. */
  lemma PreparedNext(
    env: Env, base: Files, content: seq<byte>, target: Path, placements: seq<ChunkPlacement>, skipPlaced: bool,
    start: nat, bytes: seq<byte>, stop: nat)
    requires placements != [] && Tiles(placements, start, stop) && |bytes| == placements[0].length && |content| == stop
    requires Prepared(env, base, content, target, placements, skipPlaced)
    ensures start + |bytes| <= stop
    ensures Prepared(env, base, Overwritten(content, start, bytes), target, placements[1..], skipPlaced)
  {
    TilesRange(placements, start, stop);
    forall q | q in placements[1..] && Skipped(skipPlaced, target, q)
      ensures ResolveChunk(env, base, q).Ok?
      ensures Slice(Overwritten(content, start, bytes), q.targetOffset, q.length) == Some(ResolveChunk(env, base, q).value)
    {
      var k :| 0 <= k < |placements[1..]| && placements[1..][k] == q;
      assert q == placements[k + 1] && q in placements;
      OverwriteSlices(content, start, bytes, q.targetOffset, q.length);
    }
  }

  lemma ReadyStep(
    env: Env, target: Path, placements: seq<ChunkPlacement>, skipPlaced: bool, s: Progress, base: Files, start: nat, stop: nat)
    requires placements != [] && Ready(env, target, placements, skipPlaced, s, base, start, stop)
    requires ResolveChunk(env, base, placements[0]).Ok?
    ensures
      var staged := StagedPath(target);
      var bytes := ResolveChunk(env, base, placements[0]).value;
      var next := PlaceChunk(env, target, placements[0], skipPlaced, s);
      && Ready(env, target, placements[1..], skipPlaced, next, base, start + |bytes|, stop)
      && start + |bytes| <= stop
      && next.report == Credit(s.report, placements[0])
      && next.files == s.files[staged := next.files[staged]]
      && next.files[staged][..start + |bytes|] == s.files[staged][..start] + bytes
  {
    var staged := StagedPath(target);
    var content := s.files[staged];
    var p := placements[0];
    assert p in placements;
    TilesRange(placements, start, stop);
    PlaceChunkStep(env, target, p, skipPlaced, s, base);
    var bytes := ResolveChunk(env, base, p).value;
    OverwriteSlices(content, start, bytes, stop, 0);
    assert IsStagingName(staged);
    PreparedNext(env, base, content, target, placements, skipPlaced, start, bytes, stop);
  }

  lemma ReadyStop(
    env: Env, target: Path, placements: seq<ChunkPlacement>, skipPlaced: bool, s: Progress, base: Files, start: nat, stop: nat)
    requires placements != [] && Ready(env, target, placements, skipPlaced, s, base, start, stop)
    requires ResolveChunk(env, base, placements[0]).Err?
    ensures PlaceChunks(env, target, placements, skipPlaced, s).error == Some(ResolveChunk(env, base, placements[0]).error)
  {
    var p := placements[0];
    assert p in placements;
    assert ResolveChunk(env, s.files, p) == ResolveChunk(env, base, p);
    var next := PlaceChunk(env, target, p, skipPlaced, s);
    assert PlaceChunks(env, target, placements[1..], skipPlaced, next) == next;
  }

  /** Both forms leave in the staged file exactly the assembled bytes, or stop on the same error. */
  lemma {:induction false} PlaceChunksAssembles(
    env: Env, target: Path, placements: seq<ChunkPlacement>, skipPlaced: bool, s: Progress, base: Files, start: nat, stop: nat)
    requires Ready(env, target, placements, skipPlaced, s, base, start, stop)
    ensures
      var r := PlaceChunks(env, target, placements, skipPlaced, s);
      match Assemble(env, base, placements)
      case Ok(bytes) =>
        && start <= stop
        && r == Progress(
             s.files[StagedPath(target) := s.files[StagedPath(target)][..start] + bytes], CreditAll(s.report, placements), None)
      case Err(e) => r.error == Some(e)
    decreases placements
  {
    var content := s.files[StagedPath(target)];
    if placements == [] {
      assert content[..start] + [] == content;
    } else if ResolveChunk(env, base, placements[0]).Ok? {
      var bytes := ResolveChunk(env, base, placements[0]).value;
      var next := PlaceChunk(env, target, placements[0], skipPlaced, s);
      ReadyStep(env, target, placements, skipPlaced, s, base, start, stop);
      PlaceChunksAssembles(env, target, placements[1..], skipPlaced, next, base, start + |bytes|, stop);
      if Assemble(env, base, placements[1..]).Ok? {
        var staged := StagedPath(target);
        var rest := Assemble(env, base, placements[1..]).value;
        UpdateTwice(s.files, staged, next.files[staged], content[..start] + bytes + rest);
        Regroup(content[..start], bytes, rest);
        assert CreditAll(s.report, placements) == CreditAll(next.report, placements[1..]);
        assert PlaceChunks(env, target, placements, skipPlaced, s) == PlaceChunks(env, target, placements[1..], skipPlaced, next);
        assert Assemble(env, base, placements) == Ok(bytes + rest);
      }
    } else {
      ReadyStop(env, target, placements, skipPlaced, s, base, start, stop);
    }
  }

  // ---- All files

  /** Distinct payload paths, whatever their placements. */
  ghost predicate TidyPlans(plans: seq<FilePlan>) {
    DistinctPlans(plans) && forall i :: 0 <= i < |plans| ==> IsPayloadPath(plans[i].path)
  }

  ghost predicate SoundPlans(plans: seq<FilePlan>) {
    DistinctPlans(plans) && forall i :: 0 <= i < |plans| ==> SoundFile(plans[i])
  }

  ghost predicate PreparedPlans(env: Env, base: Files, files: Files, root: Path, plans: seq<FilePlan>, skipPlaced: bool) {
    forall i :: 0 <= i < |plans| ==> PreparedPlan(env, base, files, root, plans[i], skipPlaced)
  }

  ghost predicate PreparedPlan(env: Env, base: Files, files: Files, root: Path, plan: FilePlan, skipPlaced: bool) {
    Prepared(env, base, Resized(ContentAt(files, StagedOf(root, plan)), plan.size), TargetOf(root, plan), plan.placements, skipPlaced)
  }

  /** The error the first unresolvable chunk of the plan raises. */
  function FirstError(env: Env, base: Files, plans: seq<FilePlan>): Option<InstallError> {
    if plans == [] then None
    else
      match Assemble(env, base, plans[0].placements)
      case Err(e) => Some(e)
      case Ok(_) => FirstError(env, base, plans[1..])
  }

  function Assembled(env: Env, base: Files, plan: FilePlan): seq<byte> {
    match Assemble(env, base, plan.placements)
    case Ok(bytes) => bytes
    case Err(_) => []
  }

  function WithStaged(env: Env, root: Path, base: Files, files: Files, plans: seq<FilePlan>): Files
    decreases plans
  {
    if plans == [] then files
    else WithStaged(env, root, base, files[StagedOf(root, plans[0]) := Assembled(env, base, plans[0])], plans[1..])
  }

  function CreditPlans(report: InstallReport, plans: seq<FilePlan>): InstallReport
    decreases plans
  {
    if plans == [] then report else CreditPlans(CreditAll(report, plans[0].placements), plans[1..])
  }

  lemma {:induction false} CreditPlansTotals(report: InstallReport, plans: seq<FilePlan>)
    ensures CreditPlans(report, plans) == report.(
      heldBytes := report.heldBytes + PlanBytes(plans, Held),
      remoteBytes := report.remoteBytes + PlanBytes(plans, Remote))
    decreases plans
  {
    if plans != [] {
      CreditAllTotals(report, plans[0].placements);
      CreditPlansTotals(CreditAll(report, plans[0].placements), plans[1..]);
    }
  }

  lemma StageFileAssembles(env: Env, root: Path, plan: FilePlan, skipPlaced: bool, s: Progress, base: Files)
    requires s.error.None? && SoundFile(plan) && AgreeOffStaging(s.files, base)
    requires PreparedPlan(env, base, s.files, root, plan, skipPlaced)
    ensures
      var r := StageFile(env, root, plan, skipPlaced, s);
      match Assemble(env, base, plan.placements)
      case Ok(bytes) => r == Progress(s.files[StagedOf(root, plan) := bytes], CreditAll(s.report, plan.placements), None)
      case Err(e) => r.error == Some(e)
  {
    var target, staged := TargetOf(root, plan), StagedOf(root, plan);
    var resized := s.(files := OpenStaged(s.files, target, plan.size));
    assert IsStagingName(staged);
    PlaceChunksAssembles(env, target, plan.placements, skipPlaced, resized, base, 0, plan.size);
    if Assemble(env, base, plan.placements).Ok? {
      var bytes := Assemble(env, base, plan.placements).value;
      UpdateTwice(s.files, staged, resized.files[staged], bytes);
      assert resized.files[staged][..0] + bytes == bytes;
    }
  }

  /** Staging the first file leaves the others as ready as they were. */
  lemma OthersStayPrepared(
    env: Env, base: Files, files: Files, bytes: seq<byte>, root: Path, plans: seq<FilePlan>, skipPlaced: bool)
    requires plans != [] && SoundPlans(plans) && AgreeOffStaging(files, base)
    requires PreparedPlans(env, base, files, root, plans, skipPlaced)
    ensures
      var next := files[StagedOf(root, plans[0]) := bytes];
      AgreeOffStaging(next, base) && PreparedPlans(env, base, next, root, plans[1..], skipPlaced)
  {
    assert IsStagingName(StagedOf(root, plans[0]));
    var next := files[StagedOf(root, plans[0]) := bytes];
    forall i | 0 <= i < |plans[1..]|
      ensures PreparedPlan(env, base, next, root, plans[1..][i], skipPlaced)
    {
      assert PreparedPlan(env, base, files, root, plans[i + 1], skipPlaced);
      if StagedOf(root, plans[i + 1]) == StagedOf(root, plans[0]) {
        StagedOfInjective(root, plans[i + 1], plans[0]);
      }
    }
  }

  lemma {:induction false} StageFilesAssemble(
    env: Env, root: Path, plans: seq<FilePlan>, skipPlaced: bool, s: Progress, base: Files)
    requires s.error.None? && SoundPlans(plans) && AgreeOffStaging(s.files, base)
    requires PreparedPlans(env, base, s.files, root, plans, skipPlaced)
    ensures
      var r := StageFiles(env, root, plans, skipPlaced, s);
      match FirstError(env, base, plans)
      case None => r == Progress(WithStaged(env, root, base, s.files, plans), CreditPlans(s.report, plans), None)
      case Some(e) => r.error == Some(e)
    decreases plans
  {
    if plans != [] {
      var plan := plans[0];
      assert SoundFile(plan) && PreparedPlan(env, base, s.files, root, plan, skipPlaced);
      StageFileAssembles(env, root, plan, skipPlaced, s, base);
      var next := StageFile(env, root, plan, skipPlaced, s);
      if next.error.None? {
        var bytes := next.files[StagedOf(root, plan)];
        assert next.files == s.files[StagedOf(root, plan) := bytes];
        OthersStayPrepared(env, base, s.files, bytes, root, plans, skipPlaced);
        StageFilesAssemble(env, root, plans[1..], skipPlaced, next, base);
      } else {
        assert StageFiles(env, root, plans[1..], skipPlaced, next) == next;
      }
    }
  }

  predicate IsStagedOf(root: Path, plans: seq<FilePlan>, path: Path) {
    exists i :: 0 <= i < |plans| && path == StagedOf(root, plans[i])
  }

  predicate IsTargetOf(root: Path, plans: seq<FilePlan>, path: Path) {
    exists i :: 0 <= i < |plans| && path == TargetOf(root, plans[i])
  }

  lemma {:induction false} WithStagedAt(env: Env, root: Path, base: Files, files: Files, plans: seq<FilePlan>)
    requires DistinctPlans(plans)
    ensures
      var r := WithStaged(env, root, base, files, plans);
      && (forall i :: 0 <= i < |plans| ==>
            StagedOf(root, plans[i]) in r && r[StagedOf(root, plans[i])] == Assembled(env, base, plans[i]))
      && (forall q :: !IsStagedOf(root, plans, q) ==> Same(r, files, q))
    decreases plans
  {
    if plans != [] {
      var staged := StagedOf(root, plans[0]);
      var next := files[staged := Assembled(env, base, plans[0])];
      WithStagedAt(env, root, base, next, plans[1..]);
      var r := WithStaged(env, root, base, files, plans);
      if IsStagedOf(root, plans[1..], staged) {
        var i :| 0 <= i < |plans[1..]| && staged == StagedOf(root, plans[1..][i]);
        StagedOfInjective(root, plans[0], plans[i + 1]);
      }
      assert Same(r, next, staged);
      forall i | 0 <= i < |plans|
        ensures StagedOf(root, plans[i]) in r && r[StagedOf(root, plans[i])] == Assembled(env, base, plans[i])
      {
        if i > 0 {
          assert plans[i] == plans[1..][i - 1];
        }
      }
      forall q | !IsStagedOf(root, plans, q)
        ensures Same(r, files, q)
      {
        forall i | 0 <= i < |plans[1..]|
          ensures q != StagedOf(root, plans[1..][i])
        {
          assert plans[1..][i] == plans[i + 1];
        }
        assert q != staged && Same(r, next, q);
      }
    }
  }

  // ---- Swapping and removing

  ghost predicate Staged(root: Path, plans: seq<FilePlan>, files: Files) {
    forall i :: 0 <= i < |plans| ==> StagedOf(root, plans[i]) in files
  }

  /** Every target holds what its staging file held, the staging files are gone, nothing else moved. */
  ghost predicate Swapped(root: Path, plans: seq<FilePlan>, before: Files, after: Files) {
    && (forall i :: 0 <= i < |plans| ==>
          && StagedOf(root, plans[i]) in before
          && StagedOf(root, plans[i]) !in after
          && TargetOf(root, plans[i]) in after
          && after[TargetOf(root, plans[i])] == before[StagedOf(root, plans[i])])
    && (forall q :: !IsStagedOf(root, plans, q) && !IsTargetOf(root, plans, q) ==> Same(after, before, q))
  }

  lemma SwapKeepsOthers(root: Path, plans: seq<FilePlan>, files: Files)
    requires plans != [] && TidyPlans(plans) && Staged(root, plans, files)
    ensures
      var next := SwapOne(files, TargetOf(root, plans[0]));
      forall i :: 0 <= i < |plans[1..]| ==>
        StagedOf(root, plans[1..][i]) in next && next[StagedOf(root, plans[1..][i])] == files[StagedOf(root, plans[1..][i])]
  {
    NamesApart(root, plans);
    forall i | 0 <= i < |plans[1..]|
      ensures StagedOf(root, plans[1..][i]) in files
      ensures StagedOf(root, plans[1..][i]) != StagedOf(root, plans[0])
      ensures StagedOf(root, plans[1..][i]) != TargetOf(root, plans[0])
    {
      assert plans[1..][i] == plans[i + 1];
    }
  }

  lemma SwappedCons(root: Path, plans: seq<FilePlan>, before: Files, after: Files)
    requires plans != [] && TidyPlans(plans) && Staged(root, plans, before)
    requires Swapped(root, plans[1..], SwapOne(before, TargetOf(root, plans[0])), after)
    ensures Swapped(root, plans, before, after)
  {
    var target, staged := TargetOf(root, plans[0]), StagedOf(root, plans[0]);
    var next := SwapOne(before, target);
    NamesApart(root, plans);
    SwapKeepsOthers(root, plans, before);
    assert Same(after, next, target) && Same(after, next, staged);
    forall i | 0 <= i < |plans|
      ensures StagedOf(root, plans[i]) in before
      ensures StagedOf(root, plans[i]) !in after
      ensures TargetOf(root, plans[i]) in after
      ensures after[TargetOf(root, plans[i])] == before[StagedOf(root, plans[i])]
    {
      if i > 0 {
        assert plans[i] == plans[1..][i - 1];
      }
    }
    forall q | !IsStagedOf(root, plans, q) && !IsTargetOf(root, plans, q)
      ensures Same(after, before, q)
    {
      assert q != staged && q != target;
      forall i | 0 <= i < |plans[1..]|
        ensures q != StagedOf(root, plans[1..][i]) && q != TargetOf(root, plans[1..][i])
      {
        assert plans[1..][i] == plans[i + 1];
      }
      assert Same(after, next, q);
    }
  }

  lemma SwapUnfold(root: Path, plans: seq<FilePlan>, s: Progress)
    requires s.error.None? && plans != [] && StagedOf(root, plans[0]) in s.files
    ensures SwapFiles(root, plans, s)
         == SwapFiles(root, plans[1..],
              Progress(SwapOne(s.files, TargetOf(root, plans[0])), s.report.(filesWritten := s.report.filesWritten + 1), None))
  {
  }

  lemma {:induction false} SwapFilesAt(root: Path, plans: seq<FilePlan>, s: Progress)
    requires s.error.None? && TidyPlans(plans) && Staged(root, plans, s.files)
    ensures
      var r := SwapFiles(root, plans, s);
      && r.error.None?
      && r.report == s.report.(filesWritten := s.report.filesWritten + |plans|)
      && Swapped(root, plans, s.files, r.files)
    decreases plans
  {
    if plans != [] {
      var target := TargetOf(root, plans[0]);
      assert StagedOf(root, plans[0]) in s.files;
      var next := Progress(SwapOne(s.files, target), s.report.(filesWritten := s.report.filesWritten + 1), None);
      SwapKeepsOthers(root, plans, s.files);
      TidyPlansTail(plans);
      SwapFilesAt(root, plans[1..], next);
      var r := SwapFiles(root, plans[1..], next);
      assert Swapped(root, plans[1..], next.files, r.files);
      SwappedCons(root, plans, s.files, r.files);
      SwapUnfold(root, plans, s);
    }
  }

  lemma TidyPlansTail(plans: seq<FilePlan>)
    requires plans != [] && TidyPlans(plans)
    ensures TidyPlans(plans[1..])
  {
    assert forall i :: 0 <= i < |plans[1..]| ==> plans[1..][i] == plans[i + 1];
  }

  lemma SoundIsTidy(plans: seq<FilePlan>)
    requires SoundPlans(plans)
    ensures TidyPlans(plans)
  {
    forall i | 0 <= i < |plans|
      ensures IsPayloadPath(plans[i].path)
    {
      assert SoundFile(plans[i]);
    }
  }

  lemma SoundPlansTail(plans: seq<FilePlan>)
    requires plans != [] && SoundPlans(plans)
    ensures SoundPlans(plans[1..])
  {
    forall i | 0 <= i < |plans[1..]|
      ensures SoundFile(plans[1..][i])
    {
      assert plans[1..][i] == plans[i + 1];
    }
  }

  /** The first file's target and staging file are touched by no later file. */
  lemma NamesApart(root: Path, plans: seq<FilePlan>)
    requires plans != [] && TidyPlans(plans)
    ensures
      var target, staged := TargetOf(root, plans[0]), StagedOf(root, plans[0]);
      && target != staged
      && !IsStagedOf(root, plans[1..], target) && !IsTargetOf(root, plans[1..], target)
      && !IsStagedOf(root, plans[1..], staged) && !IsTargetOf(root, plans[1..], staged)
  {
    PayloadTargetIsNotStaging(root, plans[0].path);
    forall i | 0 <= i < |plans[1..]|
      ensures
        var target, staged := TargetOf(root, plans[0]), StagedOf(root, plans[0]);
        var other := plans[1..][i];
        && target != StagedOf(root, other) && target != TargetOf(root, other)
        && staged != StagedOf(root, other) && staged != TargetOf(root, other)
    {
      var other := plans[1..][i];
      assert other == plans[i + 1] && IsPayloadPath(plans[i + 1].path);
      PayloadTargetIsNotStaging(root, other.path);
      assert IsStagingName(StagedOf(root, other)) && IsStagingName(StagedOf(root, plans[0]));
      if TargetOf(root, other) == TargetOf(root, plans[0]) {
        JoinInjective(root, other.path, plans[0].path);
      }
      if StagedOf(root, other) == StagedOf(root, plans[0]) {
        StagedOfInjective(root, other, plans[0]);
      }
    }
  }

  /** How many of the removals name a file that is there, each counted once. */
  function PresentRemovals(root: Path, removals: seq<string>, files: Files): nat
    decreases removals
  {
    if removals == [] then 0
    else (if Join(root, removals[0]) in files then 1 else 0) + PresentRemovals(root, removals[1..], files - {Join(root, removals[0])})
  }

  lemma {:induction false} RemoveFilesAt(root: Path, removals: seq<string>, s: Progress)
    ensures
      var r := RemoveFiles(root, removals, s);
      && r.error == s.error
      && r.report == s.report.(filesRemoved := s.report.filesRemoved + PresentRemovals(root, removals, s.files))
      && (forall k :: 0 <= k < |removals| ==> Join(root, removals[k]) !in r.files)
      && (forall q :: (forall k :: 0 <= k < |removals| ==> q != Join(root, removals[k])) ==> Same(r.files, s.files, q))
      && r.files.Keys <= s.files.Keys
    decreases removals
  {
    if removals != [] {
      var path := Join(root, removals[0]);
      var report := if path in s.files then s.report.(filesRemoved := s.report.filesRemoved + 1) else s.report;
      var next := s.(files := s.files - {path}, report := report);
      RemoveFilesAt(root, removals[1..], next);
      var r := RemoveFiles(root, removals, s);
      forall k | 0 <= k < |removals|
        ensures Join(root, removals[k]) !in r.files
      {
        if k > 0 {
          assert removals[k] == removals[1..][k - 1];
        }
      }
      forall q | forall k :: 0 <= k < |removals| ==> q != Join(root, removals[k])
        ensures Same(r.files, s.files, q)
      {
        assert q != Join(root, removals[0]);
        assert forall k :: 0 <= k < |removals[1..]| ==> removals[1..][k] == removals[k + 1];
        assert Same(r.files, next.files, q);
      }
    }
  }
}
