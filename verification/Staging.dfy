/** Seeding the staging files of a plan and asking for the chunks still missing. */
module Staging {
  import opened Sequences
  import opened Bytes
  import opened FileStore
  import opened Content
  import opened InstallPlans
  import opened Installer
  import opened Assembly
  import opened ChunkLocator

  datatype Request = Request(wantedFiles: seq<string>, destinations: seq<ChunkDestination>, resumed: bool)

  // ---- Seeding one staging file

  /** The staged bytes already match every range that is held in place. */
  predicate StagedMatches(hash: Hasher, content: seq<byte>, original: Path, placements: seq<ChunkPlacement>) {
    if placements == [] then true
    else
      var p := placements[0];
      && (AlreadySeeded(original, p) ==>
            var range := Slice(content, p.targetOffset, p.length);
            range.Some? && hash(range.value) == p.digest)
      && StagedMatches(hash, content, original, placements[1..])
  }

  predicate Resumes(hash: Hasher, files: Files, original: Path, plan: FilePlan) {
    StagedPath(original) in files && StagedMatches(hash, files[StagedPath(original)], original, plan.placements)
  }

  function Seeded(hash: Hasher, files: Files, original: Path, plan: FilePlan): Files {
    var content := if Resumes(hash, files, original, plan) then files[StagedPath(original)] else ContentAt(files, original);
    files[StagedPath(original) := Resized(content, plan.size)]
  }

  class StagedFileSeeder {
    const hash: Hasher

    constructor (hash: Hasher)
      ensures this.hash == hash
    {
      this.hash := hash;
    }

    method StagedMatchesHeldRanges(disk: Disk, original: Path, plan: FilePlan) returns (matches: bool)
      ensures matches == Resumes(hash, disk.files, original, plan)
    {
      if StagedPath(original) !in disk.files {
        return false;
      }
      var content := disk.files[StagedPath(original)];
      for i := 0 to |plan.placements|
        invariant StagedMatches(hash, content, original, plan.placements)
               == StagedMatches(hash, content, original, plan.placements[i..])
      {
        var p := plan.placements[i];
        if p.source != Held {
          continue;
        }
        if p.heldFile != original || p.heldOffset != p.targetOffset {
          continue;
        }
        if p.targetOffset + p.length > |content| {
          return false;
        }
        if hash(content[p.targetOffset..p.targetOffset + p.length]) != p.digest {
          return false;
        }
      }
      return true;
    }

    method CopyFromOriginal(disk: Disk, original: Path)
      modifies disk
      ensures disk.files == old(disk.files)[StagedPath(original) := ContentAt(old(disk.files), original)]
    {
      if original in disk.files {
        disk.Copy(original, StagedPath(original));
      } else {
        disk.Create(StagedPath(original));
      }
    }

    method Seed(disk: Disk, original: Path, plan: FilePlan, before: bool) returns (resumed: bool)
      modifies disk
      ensures disk.files == Seeded(hash, old(disk.files), original, plan)
      ensures resumed == (before || Resumes(hash, old(disk.files), original, plan))
    {
      resumed := before;
      var staged := StagedPath(original);
      if staged in disk.files {
        var matches := StagedMatchesHeldRanges(disk, original, plan);
        if matches {
          resumed := true;
        } else {
          var _ := disk.Remove(staged);
          assert original != staged;
          CopyFromOriginal(disk, original);
          assert disk.files == old(disk.files)[staged := ContentAt(old(disk.files), original)];
        }
      } else {
        CopyFromOriginal(disk, original);
      }
      disk.Resize(staged, plan.size);
    }
  }

  // ---- The fetch request

  datatype StageState = StageState(files: Files, request: Request, seen: set<Digest>)

  function DestinationFor(staged: Path, p: ChunkPlacement): ChunkDestination {
    ChunkDestination(FileNameFor(p.digest), staged, p.targetOffset, p.length)
  }

  function AskFor(staged: Path, p: ChunkPlacement, request: Request, seen: set<Digest>): Request {
    Request(
      if p.digest in seen then request.wantedFiles else request.wantedFiles + [FileNameFor(p.digest)],
      request.destinations + [DestinationFor(staged, p)],
      request.resumed)
  }

  function Collected(staged: Path, placements: seq<ChunkPlacement>, s: StageState): StageState
    decreases placements
  {
    if placements == [] then s
    else if placements[0].source != Remote then Collected(staged, placements[1..], s)
    else
      Collected(staged, placements[1..],
        s.(request := AskFor(staged, placements[0], s.request, s.seen), seen := s.seen + {placements[0].digest}))
  }

  function StageOne(hash: Hasher, root: Path, plan: FilePlan, s: StageState): StageState {
    var original := TargetOf(root, plan);
    var resumed := s.request.resumed || Resumes(hash, s.files, original, plan);
    Collected(StagedPath(original), plan.placements,
      s.(files := Seeded(hash, s.files, original, plan), request := s.request.(resumed := resumed)))
  }

  function StageAll(hash: Hasher, root: Path, plans: seq<FilePlan>, s: StageState): StageState
    decreases plans
  {
    if plans == [] then s else StageAll(hash, root, plans[1..], StageOne(hash, root, plans[0], s))
  }

  function StageFrom(hash: Hasher, root: Path, plan: InstallPlan, files: Files): StageState {
    StageAll(hash, root, plan.files, StageState(files, Request([], [], false), {}))
  }

  method Stage(hash: Hasher, disk: Disk, plan: InstallPlan, root: Path) returns (request: Request)
    modifies disk
    ensures disk.files == StageFrom(hash, root, plan, old(disk.files)).files
    ensures request == StageFrom(hash, root, plan, old(disk.files)).request
  {
    var seeder := new StagedFileSeeder(hash);
    request := Request([], [], false);
    var seen: set<Digest> := {};
    ghost var start := StageState(disk.files, request, seen);
    for i := 0 to |plan.files|
      invariant StageAll(hash, root, plan.files, start)
             == StageAll(hash, root, plan.files[i..], StageState(disk.files, request, seen))
    {
      var file := plan.files[i];
      var original := TargetOf(root, file);
      ghost var before := StageState(disk.files, request, seen);
      var resumed := seeder.Seed(disk, original, file, request.resumed);
      request := request.(resumed := resumed);
      ghost var seeded := StageState(disk.files, request, seen);
      for k := 0 to |file.placements|
        invariant disk.files == seeded.files
        invariant Collected(StagedPath(original), file.placements, seeded)
               == Collected(StagedPath(original), file.placements[k..], StageState(disk.files, request, seen))
      {
        var p := file.placements[k];
        if p.source != Remote {
          continue;
        }
        request := AskFor(StagedPath(original), p, request, seen);
        seen := seen + {p.digest};
      }
      assert StageState(disk.files, request, seen) == StageOne(hash, root, file, before);
    }
  }

  // ---- What a fresh stage leaves

  lemma {:induction false} CollectedKeepsFiles(staged: Path, placements: seq<ChunkPlacement>, s: StageState)
    ensures Collected(staged, placements, s).files == s.files
    ensures Collected(staged, placements, s).request.resumed == s.request.resumed
    decreases placements
  {
    if placements != [] {
      var next := s.(request := AskFor(staged, placements[0], s.request, s.seen), seen := s.seen + {placements[0].digest});
      CollectedKeepsFiles(staged, placements[1..], if placements[0].source != Remote then s else next);
    }
  }

  lemma {:induction false} ResumedIsSticky(hash: Hasher, root: Path, plans: seq<FilePlan>, s: StageState)
    requires s.request.resumed
    ensures StageAll(hash, root, plans, s).request.resumed
    decreases plans
  {
    if plans != [] {
      var original := TargetOf(root, plans[0]);
      var seeded := s.(files := Seeded(hash, s.files, original, plans[0]));
      CollectedKeepsFiles(StagedPath(original), plans[0].placements, seeded);
      assert s.request.(resumed := true) == s.request;
      ResumedIsSticky(hash, root, plans[1..], StageOne(hash, root, plans[0], s));
    }
  }

  /** Every staging file starts as the original cut or padded to size; nothing else moves. */
  ghost predicate FreshlySeeded(root: Path, plans: seq<FilePlan>, before: Files, after: Files) {
    && (forall i :: 0 <= i < |plans| ==>
          && StagedOf(root, plans[i]) in after
          && after[StagedOf(root, plans[i])] == Resized(ContentAt(before, TargetOf(root, plans[i])), plans[i].size))
    && (forall q :: !IsStagedOf(root, plans, q) ==> Same(after, before, q))
  }

  lemma StageOneFresh(hash: Hasher, root: Path, plan: FilePlan, s: StageState)
    requires !StageOne(hash, root, plan, s).request.resumed
    ensures
      var original := TargetOf(root, plan);
      StageOne(hash, root, plan, s).files == s.files[StagedPath(original) := Resized(ContentAt(s.files, original), plan.size)]
  {
    var original := TargetOf(root, plan);
    var resumed := s.request.resumed || Resumes(hash, s.files, original, plan);
    var seeded := s.(files := Seeded(hash, s.files, original, plan), request := s.request.(resumed := resumed));
    CollectedKeepsFiles(StagedPath(original), plan.placements, seeded);
  }

  lemma FreshlySeededCons(root: Path, plans: seq<FilePlan>, before: Files, after: Files)
    requires plans != [] && SoundPlans(plans)
    requires
      var original := TargetOf(root, plans[0]);
      FreshlySeeded(root, plans[1..], before[StagedPath(original) := Resized(ContentAt(before, original), plans[0].size)], after)
    ensures FreshlySeeded(root, plans, before, after)
  {
    var original, staged := TargetOf(root, plans[0]), StagedOf(root, plans[0]);
    var next := before[staged := Resized(ContentAt(before, original), plans[0].size)];
    SoundIsTidy(plans);
    NamesApart(root, plans);
    assert Same(after, next, staged);
    forall i | 0 <= i < |plans|
      ensures StagedOf(root, plans[i]) in after
      ensures after[StagedOf(root, plans[i])] == Resized(ContentAt(before, TargetOf(root, plans[i])), plans[i].size)
    {
      if i > 0 {
        assert plans[i] == plans[1..][i - 1];
        assert SoundFile(plans[i]);
        PayloadTargetIsNotStaging(root, plans[i].path);
        assert IsStagingName(staged);
      }
    }
    forall q | !IsStagedOf(root, plans, q)
      ensures Same(after, before, q)
    {
      forall i | 0 <= i < |plans[1..]|
        ensures q != StagedOf(root, plans[1..][i])
      {
        assert plans[1..][i] == plans[i + 1];
      }
      assert q != staged && Same(after, next, q);
    }
  }

  lemma {:induction false} StageAllFresh(hash: Hasher, root: Path, plans: seq<FilePlan>, s: StageState)
    requires SoundPlans(plans) && !StageAll(hash, root, plans, s).request.resumed
    ensures FreshlySeeded(root, plans, s.files, StageAll(hash, root, plans, s).files)
    decreases plans
  {
    if plans != [] {
      var next := StageOne(hash, root, plans[0], s);
      if next.request.resumed {
        ResumedIsSticky(hash, root, plans[1..], next);
      }
      StageOneFresh(hash, root, plans[0], s);
      SoundPlansTail(plans);
      StageAllFresh(hash, root, plans[1..], next);
      FreshlySeededCons(root, plans, s.files, StageAll(hash, root, plans[1..], next).files);
    }
  }

  // ---- What is asked for

  predicate Asks(root: Path, plans: seq<FilePlan>, d: ChunkDestination) {
    exists i, k ::
      && 0 <= i < |plans|
      && 0 <= k < |plans[i].placements|
      && plans[i].placements[k].source == Remote
      && d == DestinationFor(StagedOf(root, plans[i]), plans[i].placements[k])
  }

  function RemoteDestinations(staged: Path, placements: seq<ChunkPlacement>): seq<ChunkDestination> {
    if placements == [] then []
    else (if placements[0].source == Remote then [DestinationFor(staged, placements[0])] else [])
         + RemoteDestinations(staged, placements[1..])
  }

  function AllDestinations(root: Path, plans: seq<FilePlan>): seq<ChunkDestination> {
    if plans == [] then []
    else RemoteDestinations(StagedOf(root, plans[0]), plans[0].placements) + AllDestinations(root, plans[1..])
  }

  lemma {:induction false} CollectedDestinations(staged: Path, placements: seq<ChunkPlacement>, s: StageState)
    ensures Collected(staged, placements, s).request.destinations
         == s.request.destinations + RemoteDestinations(staged, placements)
    decreases placements
  {
    if placements != [] {
      var next := s.(request := AskFor(staged, placements[0], s.request, s.seen), seen := s.seen + {placements[0].digest});
      if placements[0].source == Remote {
        CollectedDestinations(staged, placements[1..], next);
        assert s.request.destinations + [DestinationFor(staged, placements[0])] + RemoteDestinations(staged, placements[1..])
            == s.request.destinations + RemoteDestinations(staged, placements);
      } else {
        CollectedDestinations(staged, placements[1..], s);
        assert RemoteDestinations(staged, placements) == RemoteDestinations(staged, placements[1..]);
      }
    }
  }

  lemma StageOneDestinations(hash: Hasher, root: Path, plan: FilePlan, s: StageState)
    ensures StageOne(hash, root, plan, s).request.destinations
         == s.request.destinations + RemoteDestinations(StagedOf(root, plan), plan.placements)
  {
    var original := TargetOf(root, plan);
    var resumed := s.request.resumed || Resumes(hash, s.files, original, plan);
    var seeded := s.(files := Seeded(hash, s.files, original, plan), request := s.request.(resumed := resumed));
    CollectedDestinations(StagedPath(original), plan.placements, seeded);
  }

  lemma {:induction false} StageAllDestinations(hash: Hasher, root: Path, plans: seq<FilePlan>, s: StageState)
    ensures StageAll(hash, root, plans, s).request.destinations == s.request.destinations + AllDestinations(root, plans)
    decreases plans
  {
    if plans != [] {
      var next := StageOne(hash, root, plans[0], s);
      StageOneDestinations(hash, root, plans[0], s);
      StageAllDestinations(hash, root, plans[1..], next);
      Regroup(s.request.destinations, RemoteDestinations(StagedOf(root, plans[0]), plans[0].placements), AllDestinations(root, plans[1..]));
    }
  }

  lemma {:induction false} RemoteDestinationsAre(staged: Path, placements: seq<ChunkPlacement>, d: ChunkDestination)
    ensures d in RemoteDestinations(staged, placements) <==>
      exists k :: 0 <= k < |placements| && placements[k].source == Remote && d == DestinationFor(staged, placements[k])
  {
    if placements != [] {
      RemoteDestinationsAre(staged, placements[1..], d);
      if k :| 0 <= k < |placements[1..]| && placements[1..][k].source == Remote && d == DestinationFor(staged, placements[1..][k]) {
        assert placements[k + 1].source == Remote && d == DestinationFor(staged, placements[k + 1]);
      }
    }
  }

  lemma {:induction false} AllDestinationsAre(root: Path, plans: seq<FilePlan>, d: ChunkDestination)
    ensures d in AllDestinations(root, plans) <==> Asks(root, plans, d)
  {
    if plans != [] {
      RemoteDestinationsAre(StagedOf(root, plans[0]), plans[0].placements, d);
      AllDestinationsAre(root, plans[1..], d);
      if Asks(root, plans[1..], d) {
        var i, k :| 0 <= i < |plans[1..]| && 0 <= k < |plans[1..][i].placements|
          && plans[1..][i].placements[k].source == Remote
          && d == DestinationFor(StagedOf(root, plans[1..][i]), plans[1..][i].placements[k]);
        assert plans[i + 1].placements[k].source == Remote;
      }
      if Asks(root, plans, d) && d !in RemoteDestinations(StagedOf(root, plans[0]), plans[0].placements) {
        var i, k :| 0 <= i < |plans| && 0 <= k < |plans[i].placements|
          && plans[i].placements[k].source == Remote
          && d == DestinationFor(StagedOf(root, plans[i]), plans[i].placements[k]);
        assert plans[1..][i - 1].placements[k].source == Remote;
      }
    }
  }

  // ---- The wanted set

  predicate Wants(plans: seq<FilePlan>, name: string) {
    exists i, k ::
      && 0 <= i < |plans|
      && 0 <= k < |plans[i].placements|
      && plans[i].placements[k].source == Remote
      && name == FileNameFor(plans[i].placements[k].digest)
  }

  ghost predicate NoDuplicates(names: seq<string>) {
    forall i, j :: 0 <= i < j < |names| ==> names[i] != names[j]
  }

  /** Names asked for so far are those of the digests seen, each once. */
  ghost predicate WantedTracksSeen(s: StageState) {
    && NoDuplicates(s.request.wantedFiles)
    && (forall name :: name in s.request.wantedFiles <==> exists d :: d in s.seen && name == FileNameFor(d))
  }

  lemma AskForTracks(staged: Path, p: ChunkPlacement, s: StageState)
    requires WantedTracksSeen(s)
    ensures WantedTracksSeen(s.(request := AskFor(staged, p, s.request, s.seen), seen := s.seen + {p.digest}))
  {
    if p.digest !in s.seen && FileNameFor(p.digest) in s.request.wantedFiles {
      var d :| d in s.seen && FileNameFor(p.digest) == FileNameFor(d);
      FileNameInjective(p.digest, d);
    }
  }

  lemma {:induction false} CollectedTracks(staged: Path, placements: seq<ChunkPlacement>, s: StageState)
    requires WantedTracksSeen(s)
    ensures
      var r := Collected(staged, placements, s);
      && WantedTracksSeen(r)
      && forall d :: d in r.seen <==>
           d in s.seen || exists k :: 0 <= k < |placements| && placements[k].source == Remote && placements[k].digest == d
    decreases placements
  {
    if placements != [] {
      var next := if placements[0].source != Remote then s
        else s.(request := AskFor(staged, placements[0], s.request, s.seen), seen := s.seen + {placements[0].digest});
      AskForTracks(staged, placements[0], s);
      CollectedTracks(staged, placements[1..], next);
      var r := Collected(staged, placements, s);
      forall d
        ensures d in r.seen <==>
          d in s.seen || exists k :: 0 <= k < |placements| && placements[k].source == Remote && placements[k].digest == d
      {
        if k :| 0 <= k < |placements[1..]| && placements[1..][k].source == Remote && placements[1..][k].digest == d {
          assert placements[k + 1].source == Remote && placements[k + 1].digest == d;
        }
        if k :| 0 <= k < |placements| && placements[k].source == Remote && placements[k].digest == d {
          assert k > 0 ==> placements[1..][k - 1] == placements[k];
        }
      }
    }
  }

  lemma {:induction false} StageAllTracks(hash: Hasher, root: Path, plans: seq<FilePlan>, s: StageState)
    requires WantedTracksSeen(s)
    ensures
      var r := StageAll(hash, root, plans, s);
      WantedTracksSeen(r) && forall d :: d in r.seen <==> d in s.seen || Wants(plans, FileNameFor(d))
    decreases plans
  {
    if plans != [] {
      var original := TargetOf(root, plans[0]);
      var resumed := s.request.resumed || Resumes(hash, s.files, original, plans[0]);
      var seeded := s.(files := Seeded(hash, s.files, original, plans[0]), request := s.request.(resumed := resumed));
      CollectedTracks(StagedPath(original), plans[0].placements, seeded);
      var next := StageOne(hash, root, plans[0], s);
      StageAllTracks(hash, root, plans[1..], next);
      forall d
        ensures d in StageAll(hash, root, plans, s).seen <==> d in s.seen || Wants(plans, FileNameFor(d))
      {
        WantsCons(plans, d);
      }
    }
  }

  lemma WantsCons(plans: seq<FilePlan>, d: Digest)
    requires plans != []
    ensures Wants(plans, FileNameFor(d)) <==>
      || (exists k :: 0 <= k < |plans[0].placements| && plans[0].placements[k].source == Remote && plans[0].placements[k].digest == d)
      || Wants(plans[1..], FileNameFor(d))
  {
    if Wants(plans, FileNameFor(d)) {
      var i, k :| 0 <= i < |plans| && 0 <= k < |plans[i].placements| && plans[i].placements[k].source == Remote
        && FileNameFor(d) == FileNameFor(plans[i].placements[k].digest);
      FileNameInjective(d, plans[i].placements[k].digest);
      if i > 0 {
        assert plans[1..][i - 1].placements[k].source == Remote;
      }
    }
    if Wants(plans[1..], FileNameFor(d)) {
      var i, k :| 0 <= i < |plans[1..]| && 0 <= k < |plans[1..][i].placements| && plans[1..][i].placements[k].source == Remote
        && FileNameFor(d) == FileNameFor(plans[1..][i].placements[k].digest);
      assert plans[i + 1].placements[k].source == Remote;
    }
  }

  /** A stage asks for each missing chunk exactly once and routes it to every place that needs it. */
  lemma StageAsksForMissing(hash: Hasher, root: Path, plan: InstallPlan, files: Files)
    ensures
      var request := StageFrom(hash, root, plan, files).request;
      && NoDuplicates(request.wantedFiles)
      && (forall name :: name in request.wantedFiles <==> Wants(plan.files, name))
      && (forall d :: d in request.destinations <==> Asks(root, plan.files, d))
  {
    var start := StageState(files, Request([], [], false), {});
    StageAllTracks(hash, root, plan.files, start);
    StageAllDestinations(hash, root, plan.files, start);
    var r := StageAll(hash, root, plan.files, start);
    assert r.request.destinations == AllDestinations(root, plan.files);
    forall d
      ensures d in r.request.destinations <==> Asks(root, plan.files, d)
    {
      AllDestinationsAre(root, plan.files, d);
    }
    forall name
      ensures name in r.request.wantedFiles <==> Wants(plan.files, name)
    {
      if Wants(plan.files, name) {
        var i, k :| 0 <= i < |plan.files| && 0 <= k < |plan.files[i].placements|
          && plan.files[i].placements[k].source == Remote && name == FileNameFor(plan.files[i].placements[k].digest);
        assert plan.files[i].placements[k].digest in r.seen;
      }
    }
  }

  // ---- Destinations never overlap

  predicate Overlap(a: ChunkDestination, b: ChunkDestination) {
    a.file == b.file && a.offset < b.offset + b.length && b.offset < a.offset + a.length
  }

  lemma AskedBy(root: Path, plans: seq<FilePlan>, d: ChunkDestination) returns (i: nat, k: nat)
    requires Asks(root, plans, d)
    ensures i < |plans| && k < |plans[i].placements| && plans[i].placements[k].source == Remote
    ensures d == DestinationFor(StagedOf(root, plans[i]), plans[i].placements[k])
  {
    i, k :| 0 <= i < |plans| && 0 <= k < |plans[i].placements| && plans[i].placements[k].source == Remote
      && d == DestinationFor(StagedOf(root, plans[i]), plans[i].placements[k]);
  }

  /** Ranges of two placements of a plan, laid out in the staging files, meet only when they are the same. */
  lemma PlacementsApart(root: Path, plans: seq<FilePlan>, i: nat, k: nat, j: nat, l: nat)
    requires SoundPlans(plans)
    requires i < |plans| && k < |plans[i].placements| && j < |plans| && l < |plans[j].placements|
    requires Overlap(
      DestinationFor(StagedOf(root, plans[i]), plans[i].placements[k]),
      DestinationFor(StagedOf(root, plans[j]), plans[j].placements[l]))
    ensures i == j && k == l
  {
    StagedOfInjective(root, plans[i], plans[j]);
    assert i == j;
    assert SoundFile(plans[i]);
    TilesRange(plans[i].placements, 0, plans[i].size);
  }

  lemma DestinationsApart(root: Path, plans: seq<FilePlan>, a: ChunkDestination, b: ChunkDestination)
    requires SoundPlans(plans) && Asks(root, plans, a) && Asks(root, plans, b)
    ensures a == b || !Overlap(a, b)
  {
    var i, k := AskedBy(root, plans, a);
    var j, l := AskedBy(root, plans, b);
    if Overlap(a, b) {
      PlacementsApart(root, plans, i, k, j, l);
    }
  }

  /** A destination stays clear of every range held in place. */
  lemma DestinationClearOfHeld(root: Path, plans: seq<FilePlan>, a: ChunkDestination, j: nat, l: nat)
    requires SoundPlans(plans) && Asks(root, plans, a)
    requires j < |plans| && l < |plans[j].placements| && plans[j].placements[l].source == Held
    ensures !Overlap(a, DestinationFor(StagedOf(root, plans[j]), plans[j].placements[l]))
  {
    var i, k := AskedBy(root, plans, a);
    if Overlap(a, DestinationFor(StagedOf(root, plans[j]), plans[j].placements[l])) {
      PlacementsApart(root, plans, i, k, j, l);
    }
  }

  /** A destination lies inside its staging file. */
  lemma DestinationInside(root: Path, plans: seq<FilePlan>, a: ChunkDestination)
    requires SoundPlans(plans) && Asks(root, plans, a)
    ensures exists i :: 0 <= i < |plans| && a.file == StagedOf(root, plans[i]) && a.offset + a.length <= plans[i].size
  {
    var i, k := AskedBy(root, plans, a);
    assert SoundFile(plans[i]);
    TilesRange(plans[i].placements, 0, plans[i].size);
    assert a.file == StagedOf(root, plans[i]);
  }
}
