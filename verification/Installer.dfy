/** Materialising an install plan: stage every file, approve, swap, remove. */
module Installer {
  import opened Wrappers
  import opened Bytes
  import opened FileStore
  import opened Content
  import opened PayloadPath

  datatype InstallError =
    | FolderUnwritable
    | HeldChunkMissing
    | HeldChunkUnreadable
    | HeldChunkCorrupt
    | RemoteChunkUnavailable
    | RemoteChunkCorrupt
    | WriteFailed
    | SwapFailed
    | ExtensionRejected

  datatype InstallReport = InstallReport(heldBytes: nat, remoteBytes: nat, filesWritten: nat, filesRemoved: nat)

  type ChunkSource = (Digest, nat) -> Option<seq<byte>>

  /** What the installer is handed besides the plan: the hash, the chunk source, the package signature check. */
  datatype Env = Env(hash: Hasher, source: ChunkSource, trusted: seq<byte> -> bool)

  /** Disk, running report and the error that stopped the work, if any. */
  datatype Progress = Progress(files: Files, report: InstallReport, error: Option<InstallError>)

  function StagedPath(target: Path): Path {
    target + STAGING_SUFFIX
  }

  // ---- One chunk

  function ResolveChunk(env: Env, files: Files, p: ChunkPlacement): (r: Result<seq<byte>, InstallError>)
    ensures r.Ok? ==> |r.value| == p.length && env.hash(r.value) == p.digest
  {
    match p.source
    case Held =>
      if p.heldFile !in files then Err(HeldChunkMissing)
      else
        var slice := Slice(files[p.heldFile], p.heldOffset, p.length);
        if slice.None? then Err(HeldChunkUnreadable)
        else if env.hash(slice.value) != p.digest then Err(HeldChunkCorrupt)
        else Ok(slice.value)
    case Remote =>
      match env.source(p.digest, p.length)
      case None => Err(RemoteChunkUnavailable)
      case Some(bytes) =>
        if |bytes| != p.length || env.hash(bytes) != p.digest then Err(RemoteChunkCorrupt) else Ok(bytes)
  }

  predicate AlreadySeeded(target: Path, p: ChunkPlacement) {
    p.source == Held && p.heldFile == target && p.heldOffset == p.targetOffset
  }

  /** Placements the fast form trusts instead of resolving. */
  predicate Skipped(skipPlaced: bool, target: Path, p: ChunkPlacement) {
    skipPlaced && (p.source == Remote || AlreadySeeded(target, p))
  }

  function Credit(report: InstallReport, p: ChunkPlacement): InstallReport {
    if p.source == Held then report.(heldBytes := report.heldBytes + p.length)
    else report.(remoteBytes := report.remoteBytes + p.length)
  }

  function WriteChunk(files: Files, path: Path, offset: nat, bytes: seq<byte>): Files {
    files[path := Overwritten(ContentAt(files, path), offset, bytes)]
  }

  function PlaceChunk(env: Env, target: Path, p: ChunkPlacement, skipPlaced: bool, s: Progress): Progress {
    if Skipped(skipPlaced, target, p) then s.(report := Credit(s.report, p))
    else
      match ResolveChunk(env, s.files, p)
      case Err(e) => s.(error := Some(e))
      case Ok(bytes) =>
        Progress(WriteChunk(s.files, StagedPath(target), p.targetOffset, bytes), Credit(s.report, p), None)
  }

  function PlaceChunks(env: Env, target: Path, placements: seq<ChunkPlacement>, skipPlaced: bool, s: Progress): Progress
    decreases placements
  {
    if placements == [] || s.error.Some? then s
    else PlaceChunks(env, target, placements[1..], skipPlaced, PlaceChunk(env, target, placements[0], skipPlaced, s))
  }

  // ---- One file, then all files

  function OpenStaged(files: Files, target: Path, size: nat): Files {
    files[StagedPath(target) := Resized(ContentAt(files, StagedPath(target)), size)]
  }

  function StageFile(env: Env, root: Path, plan: FilePlan, skipPlaced: bool, s: Progress): Progress {
    var target := Join(root, plan.path);
    PlaceChunks(env, target, plan.placements, skipPlaced, s.(files := OpenStaged(s.files, target, plan.size)))
  }

  function StageFiles(env: Env, root: Path, plans: seq<FilePlan>, skipPlaced: bool, s: Progress): Progress
    decreases plans
  {
    if plans == [] || s.error.Some? then s
    else StageFiles(env, root, plans[1..], skipPlaced, StageFile(env, root, plans[0], skipPlaced, s))
  }

  // ---- Extension approval

  function ExtensionPlans(plans: seq<FilePlan>): seq<FilePlan> {
    if plans == [] then []
    else (if plans[0].path == EXTENSION_FILE_NAME then [plans[0]] else []) + ExtensionPlans(plans[1..])
  }

  /** The staged package is covered, in order and in full, by chunks of the planned digests. */
  predicate Covered(hash: Hasher, content: seq<byte>, placements: seq<ChunkPlacement>, start: nat) {
    if placements == [] then start == |content|
    else
      var p := placements[0];
      && p.targetOffset == start
      && p.length > 0
      && Slice(content, start, p.length).Some?
      && hash(Slice(content, start, p.length).value) == p.digest
      && Covered(hash, content, placements[1..], start + p.length)
  }

  function ExtensionCandidate(plan: InstallPlan, root: Path): Path {
    var plain := Join(root, EXTENSION_FILE_NAME);
    if ExtensionPlans(plan.files) == [] then plain else StagedPath(plain)
  }

  predicate ExtensionApproved(env: Env, plan: InstallPlan, root: Path, files: Files) {
    var replacements := ExtensionPlans(plan.files);
    var candidate := ExtensionCandidate(plan, root);
    if |replacements| > 1 then false
    else if replacements == [] && (EXTENSION_FILE_NAME in plan.removals || candidate !in files) then true
    else
      && candidate in files
      && env.trusted(files[candidate])
      && (replacements != [] ==>
            |files[candidate]| == replacements[0].size
            && Covered(env.hash, files[candidate], replacements[0].placements, 0))
  }

  // ---- Swap and removal

  /** The staged file takes the target's place. */
  function SwapOne(files: Files, target: Path): Files
    requires StagedPath(target) in files
  {
    (files - {StagedPath(target)})[target := files[StagedPath(target)]]
  }

  function SwapFiles(root: Path, plans: seq<FilePlan>, s: Progress): Progress
    decreases plans
  {
    if plans == [] || s.error.Some? then s
    else
      var target := Join(root, plans[0].path);
      var staged := StagedPath(target);
      if staged !in s.files then s.(error := Some(SwapFailed))
      else
        SwapFiles(root, plans[1..],
          Progress(SwapOne(s.files, target), s.report.(filesWritten := s.report.filesWritten + 1), None))
  }

  function RemoveFiles(root: Path, removals: seq<string>, s: Progress): Progress
    decreases removals
  {
    if removals == [] then s
    else
      var path := Join(root, removals[0]);
      var report := if path in s.files then s.report.(filesRemoved := s.report.filesRemoved + 1) else s.report;
      RemoveFiles(root, removals[1..], s.(files := s.files - {path}, report := report))
  }

  const EMPTY_REPORT: InstallReport := InstallReport(0, 0, 0, 0)

  /** The whole of `Apply` (`skipPlaced` false) and of `ApplyPlaced` (`skipPlaced` true). */
  function Materialised(env: Env, plan: InstallPlan, root: Path, skipPlaced: bool, files: Files): Progress {
    var staged := StageFiles(env, root, plan.files, skipPlaced, Progress(files, EMPTY_REPORT, None));
    if staged.error.Some? then staged
    else if !ExtensionApproved(env, plan, root, staged.files) then staged.(error := Some(ExtensionRejected))
    else
      var swapped := SwapFiles(root, plan.files, staged);
      if swapped.error.Some? then swapped else RemoveFiles(root, plan.removals, swapped)
  }

  /** The installer as the source runs it, over a disk it changes in place. */
  class ContentInstaller {
    const env: Env

    constructor (env: Env)
      ensures this.env == env
    {
      this.env := env;
    }

    method WriteStagedFile(disk: Disk, plan: FilePlan, root: Path, skipPlaced: bool, before: InstallReport)
      returns (report: InstallReport, error: Option<InstallError>)
      modifies disk
      ensures Progress(disk.files, report, error)
           == StageFile(env, root, plan, skipPlaced, Progress(old(disk.files), before, None))
    {
      var target := Join(root, plan.path);
      var staged := StagedPath(target);
      report, error := before, None;
      if staged !in disk.files {
        disk.Create(staged);
      }
      disk.Resize(staged, plan.size);
      assert disk.files == OpenStaged(old(disk.files), target, plan.size);
      ghost var start := Progress(disk.files, before, None);
      for i := 0 to |plan.placements|
        invariant error.None?
        invariant PlaceChunks(env, target, plan.placements, skipPlaced, start)
               == PlaceChunks(env, target, plan.placements[i..], skipPlaced, Progress(disk.files, report, None))
      {
        report, error := PlaceOne(disk, target, plan.placements[i], skipPlaced, report);
        if error.Some? {
          return;
        }
      }
    }

    method PlaceOne(disk: Disk, target: Path, p: ChunkPlacement, skipPlaced: bool, before: InstallReport)
      returns (report: InstallReport, error: Option<InstallError>)
      modifies disk
      ensures Progress(disk.files, report, error) == PlaceChunk(env, target, p, skipPlaced, Progress(old(disk.files), before, None))
    {
      report, error := before, None;
      if skipPlaced && p.source == Remote {
        report := report.(remoteBytes := report.remoteBytes + p.length);
        return;
      }
      if skipPlaced && AlreadySeeded(target, p) {
        report := report.(heldBytes := report.heldBytes + p.length);
        return;
      }
      var bytes := ResolveChunk(env, disk.files, p);
      if bytes.Err? {
        error := Some(bytes.error);
        return;
      }
      disk.WriteAt(StagedPath(target), p.targetOffset, bytes.value);
      if p.source == Held {
        report := report.(heldBytes := report.heldBytes + p.length);
      } else {
        report := report.(remoteBytes := report.remoteBytes + p.length);
      }
    }

    method StageAll(disk: Disk, plan: InstallPlan, root: Path, skipPlaced: bool)
      returns (report: InstallReport, error: Option<InstallError>)
      modifies disk
      ensures Progress(disk.files, report, error)
           == StageFiles(env, root, plan.files, skipPlaced, Progress(old(disk.files), EMPTY_REPORT, None))
    {
      report, error := EMPTY_REPORT, None;
      for i := 0 to |plan.files|
        invariant error.None?
        invariant StageFiles(env, root, plan.files, skipPlaced, Progress(old(disk.files), EMPTY_REPORT, None))
               == StageFiles(env, root, plan.files[i..], skipPlaced, Progress(disk.files, report, None))
      {
        report, error := WriteStagedFile(disk, plan.files[i], root, skipPlaced, report);
        if error.Some? {
          return;
        }
      }
    }

    method SwapAll(disk: Disk, plan: InstallPlan, root: Path, before: InstallReport)
      returns (report: InstallReport, error: Option<InstallError>)
      modifies disk
      ensures Progress(disk.files, report, error) == SwapFiles(root, plan.files, Progress(old(disk.files), before, None))
    {
      report, error := before, None;
      for i := 0 to |plan.files|
        invariant error.None?
        invariant SwapFiles(root, plan.files, Progress(old(disk.files), before, None))
               == SwapFiles(root, plan.files[i..], Progress(disk.files, report, None))
      {
        var target := Join(root, plan.files[i].path);
        if StagedPath(target) !in disk.files {
          error := Some(SwapFailed);
          return;
        }
        disk.Rename(StagedPath(target), target);
        report := report.(filesWritten := report.filesWritten + 1);
      }
    }

    method RemoveAll(disk: Disk, plan: InstallPlan, root: Path, before: InstallReport) returns (report: InstallReport)
      modifies disk
      ensures Progress(disk.files, report, None) == RemoveFiles(root, plan.removals, Progress(old(disk.files), before, None))
    {
      report := before;
      for i := 0 to |plan.removals|
        invariant RemoveFiles(root, plan.removals, Progress(old(disk.files), before, None))
               == RemoveFiles(root, plan.removals[i..], Progress(disk.files, report, None))
      {
        var existed := disk.Remove(Join(root, plan.removals[i]));
        if existed {
          report := report.(filesRemoved := report.filesRemoved + 1);
        }
      }
    }

    /** The report is meaningful only when no error is returned. */
    method Materialise(disk: Disk, plan: InstallPlan, root: Path, skipPlaced: bool)
      returns (report: InstallReport, error: Option<InstallError>)
      modifies disk
      ensures Progress(disk.files, report, error) == Materialised(env, plan, root, skipPlaced, old(disk.files))
    {
      report, error := StageAll(disk, plan, root, skipPlaced);
      if error.Some? {
        return;
      }
      if !ExtensionApproved(env, plan, root, disk.files) {
        error := Some(ExtensionRejected);
        return;
      }
      report, error := SwapAll(disk, plan, root, report);
      if error.Some? {
        return;
      }
      report := RemoveAll(disk, plan, root, report);
    }

    method Apply(disk: Disk, plan: InstallPlan, root: Path) returns (report: InstallReport, error: Option<InstallError>)
      modifies disk
      ensures Progress(disk.files, report, error) == Materialised(env, plan, root, false, old(disk.files))
    {
      report, error := Materialise(disk, plan, root, false);
    }

    method ApplyPlaced(disk: Disk, plan: InstallPlan, root: Path) returns (report: InstallReport, error: Option<InstallError>)
      modifies disk
      ensures Progress(disk.files, report, error) == Materialised(env, plan, root, true, old(disk.files))
    {
      report, error := Materialise(disk, plan, root, true);
    }
  }
}
