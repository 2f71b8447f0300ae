/** What staging guarantees wherever its chunks come from: the digests, and the rest of the disk. */
module VerifiedStaging {
  import opened Wrappers
  import opened Bytes
  import opened FileStore
  import opened Content
  import opened InstallPlans
  import opened Differ
  import opened Installer
  import opened Assembly

  // ---- The rest of the disk

  /** Placing chunks writes the one staging file and nothing else, in both forms and whatever goes wrong. */
  lemma {:induction false} PlacingElsewhere(env: Env, target: Path, placements: seq<ChunkPlacement>, skipPlaced: bool, s: Progress, q: Path)
    requires q != StagedPath(target)
    ensures Same(PlaceChunks(env, target, placements, skipPlaced, s).files, s.files, q)
    decreases placements
  {
    if placements != [] && s.error.None? {
      PlacingElsewhere(env, target, placements[1..], skipPlaced, PlaceChunk(env, target, placements[0], skipPlaced, s), q);
    }
  }

  /** Staging writes the plan's own staging files and nothing else. */
  lemma {:induction false} StagingElsewhere(env: Env, root: Path, plans: seq<FilePlan>, skipPlaced: bool, s: Progress, q: Path)
    requires !IsStagedOf(root, plans, q)
    ensures Same(StageFiles(env, root, plans, skipPlaced, s).files, s.files, q)
    decreases plans
  {
    if plans != [] && s.error.None? {
      var next := StageFile(env, root, plans[0], skipPlaced, s);
      assert q != StagedOf(root, plans[0]);
      PlacingElsewhere(env, TargetOf(root, plans[0]), plans[0].placements, skipPlaced,
        s.(files := OpenStaged(s.files, TargetOf(root, plans[0]), plans[0].size)), q);
      forall i | 0 <= i < |plans[1..]|
        ensures q != StagedOf(root, plans[1..][i])
      {
        assert plans[1..][i] == plans[i + 1];
      }
      StagingElsewhere(env, root, plans[1..], skipPlaced, next, q);
    }
  }

  // ---- The digests

  ghost predicate HasDigest(hash: Hasher, content: seq<byte>, p: ChunkPlacement) {
    var slice := Slice(content, p.targetOffset, p.length);
    slice.Some? && hash(slice.value) == p.digest
  }

  /** The content is as long as planned and every range of it hashes to its digest. */
  ghost predicate Verified(hash: Hasher, content: seq<byte>, plan: FilePlan) {
    && |content| == plan.size
    && forall k :: 0 <= k < |plan.placements| ==> HasDigest(hash, content, plan.placements[k])
  }

  /** What the form takes on trust is there already. */
  ghost predicate Trusted(hash: Hasher, target: Path, content: seq<byte>, placements: seq<ChunkPlacement>, skipPlaced: bool) {
    forall k :: 0 <= k < |placements| && Skipped(skipPlaced, target, placements[k]) ==> HasDigest(hash, content, placements[k])
  }

  /** A chunk written at its range is there, and what lies before it and behind it is as it was. */
  lemma WrittenRange(content: seq<byte>, start: nat, bytes: seq<byte>)
    requires start + |bytes| <= |content|
    ensures
      var written := Overwritten(content, start, bytes);
      && |written| == |content| && Slice(written, start, |bytes|) == Some(bytes) && written[..start] == content[..start]
      && written[start + |bytes|..] == content[start + |bytes|..]
  {
    var written := Overwritten(content, start, bytes);
    assert written[start..start + |bytes|] == bytes;
  }

  lemma SliceSuffix(a: seq<byte>, b: seq<byte>, start: nat, at: nat, length: nat)
    requires |a| == |b| && start <= |a| && a[start..] == b[start..] && start <= at
    ensures Slice(a, at, length) == Slice(b, at, length)
  {
    if at + length <= |a| {
      assert a[at..at + length] == a[start..][at - start..at - start + length];
      assert b[at..at + length] == b[start..][at - start..at - start + length];
    }
  }

  /** Writing a chunk leaves what is trusted of the later ones. */
  lemma TrustOutlivesWrite(
    hash: Hasher, target: Path, placements: seq<ChunkPlacement>, skipPlaced: bool, content: seq<byte>, bytes: seq<byte>, start: nat, stop: nat)
    requires placements != [] && Tiles(placements, start, stop) && |content| == stop && |bytes| == placements[0].length
    requires Trusted(hash, target, content, placements, skipPlaced)
    ensures start + |bytes| <= stop
    ensures Trusted(hash, target, Overwritten(content, start, bytes), placements[1..], skipPlaced)
  {
    TilesRange(placements, start, stop);
    WrittenRange(content, start, bytes);
    var rest, written := placements[1..], Overwritten(content, start, bytes);
    forall k | 0 <= k < |rest| && Skipped(skipPlaced, target, rest[k])
      ensures HasDigest(hash, written, rest[k])
    {
      assert rest[k] == placements[k + 1];
      SliceSuffix(written, content, start + |bytes|, rest[k].targetOffset, rest[k].length);
    }
  }

  lemma SlicePrefix(a: seq<byte>, b: seq<byte>, start: nat, at: nat, length: nat)
    requires |a| == |b| && start <= |a| && a[..start] == b[..start] && at + length <= start
    ensures Slice(a, at, length) == Slice(b, at, length)
  {
    assert a[at..at + length] == a[..start][at..at + length];
    assert b[at..at + length] == b[..start][at..at + length];
  }

  lemma PrefixShorter(a: seq<byte>, b: seq<byte>, start: nat, less: nat)
    requires less <= start <= |a| && start <= |b| && a[..start] == b[..start]
    ensures a[..less] == b[..less]
  {
    assert a[..less] == a[..start][..less] && b[..less] == b[..start][..less];
  }

  /** Placing the remaining chunks from `start` on: what they leave before it, and that each carries its digest. */
  ghost predicate PlacedFrom(
    hash: Hasher, target: Path, placements: seq<ChunkPlacement>, before: Progress, after: Progress, start: nat, stop: nat) {
    && StagedPath(target) in before.files && StagedPath(target) in after.files
    && start <= |before.files[StagedPath(target)]| == stop == |after.files[StagedPath(target)]|
    && after.files[StagedPath(target)][..start] == before.files[StagedPath(target)][..start]
    && after.report == CreditAll(before.report, placements)
    && forall k :: 0 <= k < |placements| ==> HasDigest(hash, after.files[StagedPath(target)], placements[k])
  }

  lemma PlacedInFront(
    hash: Hasher, target: Path, placements: seq<ChunkPlacement>, before: Progress, next: Progress, after: Progress,
    start: nat, stop: nat, bytes: seq<byte>)
    requires placements != [] && Tiles(placements, start, stop)
    requires StagedPath(target) in before.files && |before.files[StagedPath(target)]| == stop
    requires |bytes| == placements[0].length && hash(bytes) == placements[0].digest && start + |bytes| <= stop
    requires next.files == before.files[StagedPath(target) := Overwritten(before.files[StagedPath(target)], start, bytes)]
    requires next.report == Credit(before.report, placements[0])
    requires PlacedFrom(hash, target, placements[1..], next, after, start + |bytes|, stop)
    ensures PlacedFrom(hash, target, placements, before, after, start, stop)
  {
    var staged := StagedPath(target);
    var content, written, final := before.files[staged], next.files[staged], after.files[staged];
    WrittenRange(content, start, bytes);
    PrefixShorter(final, written, start + |bytes|, start);
    SlicePrefix(final, written, start + |bytes|, start, |bytes|);
    forall k | 0 <= k < |placements|
      ensures HasDigest(hash, final, placements[k])
    {
      if k > 0 {
        assert placements[k] == placements[1..][k - 1];
      }
    }
  }

  lemma SkippedInFront(
    hash: Hasher, target: Path, placements: seq<ChunkPlacement>, before: Progress, next: Progress, after: Progress, start: nat, stop: nat)
    requires placements != [] && Tiles(placements, start, stop)
    requires StagedPath(target) in before.files && |before.files[StagedPath(target)]| == stop
    requires HasDigest(hash, before.files[StagedPath(target)], placements[0]) && start + placements[0].length <= stop
    requires next.files == before.files && next.report == Credit(before.report, placements[0])
    requires PlacedFrom(hash, target, placements[1..], next, after, start + placements[0].length, stop)
    ensures PlacedFrom(hash, target, placements, before, after, start, stop)
  {
    var staged, p := StagedPath(target), placements[0];
    var content, final := before.files[staged], after.files[staged];
    PrefixShorter(final, content, start + p.length, start);
    SlicePrefix(final, content, start + p.length, start, p.length);
    forall k | 0 <= k < |placements|
      ensures HasDigest(hash, final, placements[k])
    {
      if k > 0 {
        assert placements[k] == placements[1..][k - 1];
      }
    }
  }

  /** Placing leaves every range with its digest, wherever chunks were read from, if what is taken on trust has its own. */
  lemma {:induction false} PlacingVerifies(
    env: Env, target: Path, placements: seq<ChunkPlacement>, skipPlaced: bool, s: Progress, start: nat, stop: nat)
    requires s.error.None? && StagedPath(target) in s.files && |s.files[StagedPath(target)]| == stop
    requires Tiles(placements, start, stop) && Trusted(env.hash, target, s.files[StagedPath(target)], placements, skipPlaced)
    ensures
      var r := PlaceChunks(env, target, placements, skipPlaced, s);
      r.error.None? ==> PlacedFrom(env.hash, target, placements, s, r, start, stop)
    decreases placements
  {
    TilesRange(placements, start, stop);
    if placements != [] {
      var p := placements[0];
      var next := PlaceChunk(env, target, p, skipPlaced, s);
      var r := PlaceChunks(env, target, placements[1..], skipPlaced, next);
      if Skipped(skipPlaced, target, p) {
        assert forall k :: 0 <= k < |placements[1..]| ==> placements[1..][k] == placements[k + 1];
        PlacingVerifies(env, target, placements[1..], skipPlaced, next, start + p.length, stop);
        if r.error.None? {
          SkippedInFront(env.hash, target, placements, s, next, r, start, stop);
        }
      } else if ResolveChunk(env, s.files, p).Ok? {
        var bytes := ResolveChunk(env, s.files, p).value;
        WrittenRange(s.files[StagedPath(target)], start, bytes);
        TrustOutlivesWrite(env.hash, target, placements, skipPlaced, s.files[StagedPath(target)], bytes, start, stop);
        PlacingVerifies(env, target, placements[1..], skipPlaced, next, start + |bytes|, stop);
        if r.error.None? {
          PlacedInFront(env.hash, target, placements, s, next, r, start, stop, bytes);
        }
      } else {
        assert r == next;
      }
    }
  }

  /** The same of a whole plan's staging file, once it is there and has its size. */
  ghost predicate TrustedFile(hash: Hasher, root: Path, plan: FilePlan, files: Files, skipPlaced: bool) {
    Trusted(hash, TargetOf(root, plan), Resized(ContentAt(files, StagedOf(root, plan)), plan.size), plan.placements, skipPlaced)
  }

  lemma StagingVerifies(env: Env, root: Path, plan: FilePlan, skipPlaced: bool, s: Progress)
    requires s.error.None? && Tiles(plan.placements, 0, plan.size) && TrustedFile(env.hash, root, plan, s.files, skipPlaced)
    ensures
      var r := StageFile(env, root, plan, skipPlaced, s);
      r.error.None? ==>
        && StagedOf(root, plan) in r.files
        && Verified(env.hash, r.files[StagedOf(root, plan)], plan)
        && r.report == CreditAll(s.report, plan.placements)
  {
    PlacingVerifies(env, TargetOf(root, plan), plan.placements, skipPlaced,
      s.(files := OpenStaged(s.files, TargetOf(root, plan), plan.size)), 0, plan.size);
  }

  ghost predicate TiledPlans(plans: seq<FilePlan>) {
    forall i :: 0 <= i < |plans| ==> Tiles(plans[i].placements, 0, plans[i].size)
  }

  ghost predicate AllVerified(hash: Hasher, root: Path, plans: seq<FilePlan>, files: Files) {
    forall i :: 0 <= i < |plans| ==> StagedOf(root, plans[i]) in files && Verified(hash, files[StagedOf(root, plans[i])], plans[i])
  }

  ghost predicate TrustedPlans(hash: Hasher, root: Path, plans: seq<FilePlan>, files: Files, skipPlaced: bool) {
    forall i :: 0 <= i < |plans| ==> TrustedFile(hash, root, plans[i], files, skipPlaced)
  }

  /** The hash-checked form takes nothing on trust. */
  lemma PlainTrustsNothing(hash: Hasher, root: Path, plans: seq<FilePlan>, files: Files)
    ensures TrustedPlans(hash, root, plans, files, false)
  {
  }

  lemma TrustOutlivesStaging(env: Env, root: Path, plans: seq<FilePlan>, skipPlaced: bool, s: Progress)
    requires plans != [] && DistinctPlans(plans) && TrustedPlans(env.hash, root, plans, s.files, skipPlaced)
    ensures TrustedPlans(env.hash, root, plans[1..], StageFile(env, root, plans[0], skipPlaced, s).files, skipPlaced)
  {
    var next := StageFile(env, root, plans[0], skipPlaced, s);
    forall i | 0 <= i < |plans[1..]|
      ensures TrustedFile(env.hash, root, plans[1..][i], next.files, skipPlaced)
    {
      assert plans[1..][i] == plans[i + 1] && TrustedFile(env.hash, root, plans[i + 1], s.files, skipPlaced);
      if StagedOf(root, plans[i + 1]) == StagedOf(root, plans[0]) {
        StagedOfInjective(root, plans[i + 1], plans[0]);
      }
      PlacingElsewhere(env, TargetOf(root, plans[0]), plans[0].placements, skipPlaced,
        s.(files := OpenStaged(s.files, TargetOf(root, plans[0]), plans[0].size)), StagedOf(root, plans[i + 1]));
    }
  }

  /** Once staging succeeds every staging file is verified, if what was taken on trust was right. */
  lemma {:induction false} StagingAllVerifies(env: Env, root: Path, plans: seq<FilePlan>, skipPlaced: bool, s: Progress)
    requires s.error.None? && DistinctPlans(plans) && TiledPlans(plans) && TrustedPlans(env.hash, root, plans, s.files, skipPlaced)
    ensures
      var r := StageFiles(env, root, plans, skipPlaced, s);
      r.error.None? ==> AllVerified(env.hash, root, plans, r.files) && r.report == CreditPlans(s.report, plans)
    decreases plans
  {
    if plans != [] {
      var next := StageFile(env, root, plans[0], skipPlaced, s);
      assert Tiles(plans[0].placements, 0, plans[0].size) && TrustedFile(env.hash, root, plans[0], s.files, skipPlaced);
      StagingVerifies(env, root, plans[0], skipPlaced, s);
      TrustOutlivesStaging(env, root, plans, skipPlaced, s);
      assert forall i :: 0 <= i < |plans[1..]| ==> plans[1..][i] == plans[i + 1];
      if next.error.None? {
        StagingAllVerifies(env, root, plans[1..], skipPlaced, next);
        FirstStaysStaged(env, root, plans, skipPlaced, next);
        var r := StageFiles(env, root, plans[1..], skipPlaced, next);
        forall i | r.error.None? && 0 <= i < |plans|
          ensures StagedOf(root, plans[i]) in r.files && Verified(env.hash, r.files[StagedOf(root, plans[i])], plans[i])
        {
          if i > 0 {
            assert plans[i] == plans[1..][i - 1];
          }
        }
      } else {
        assert StageFiles(env, root, plans[1..], skipPlaced, next) == next;
      }
    }
  }

  lemma FirstStaysStaged(env: Env, root: Path, plans: seq<FilePlan>, skipPlaced: bool, next: Progress)
    requires plans != [] && DistinctPlans(plans)
    ensures Same(StageFiles(env, root, plans[1..], skipPlaced, next).files, next.files, StagedOf(root, plans[0]))
  {
    forall i | 0 <= i < |plans[1..]|
      ensures StagedOf(root, plans[0]) != StagedOf(root, plans[1..][i])
    {
      assert plans[1..][i] == plans[i + 1];
      if StagedOf(root, plans[0]) == StagedOf(root, plans[i + 1]) {
        StagedOfInjective(root, plans[0], plans[i + 1]);
      }
    }
    StagingElsewhere(env, root, plans[1..], skipPlaced, next, StagedOf(root, plans[0]));
  }

  // ---- Every staging file exists

  /** Whatever the plan, staging that succeeds leaves every staging file in place. */
  lemma {:induction false} PlacingKeepsStaged(env: Env, target: Path, placements: seq<ChunkPlacement>, skipPlaced: bool, s: Progress, q: Path)
    requires q in s.files
    ensures q in PlaceChunks(env, target, placements, skipPlaced, s).files
    decreases placements
  {
    if placements != [] && s.error.None? {
      PlacingKeepsStaged(env, target, placements[1..], skipPlaced, PlaceChunk(env, target, placements[0], skipPlaced, s), q);
    }
  }

  lemma {:induction false} StagingKeepsStaged(env: Env, root: Path, plans: seq<FilePlan>, skipPlaced: bool, s: Progress, q: Path)
    requires q in s.files
    ensures q in StageFiles(env, root, plans, skipPlaced, s).files
    decreases plans
  {
    if plans != [] && s.error.None? {
      PlacingKeepsStaged(env, TargetOf(root, plans[0]), plans[0].placements, skipPlaced,
        s.(files := OpenStaged(s.files, TargetOf(root, plans[0]), plans[0].size)), q);
      StagingKeepsStaged(env, root, plans[1..], skipPlaced, StageFile(env, root, plans[0], skipPlaced, s), q);
    }
  }

  lemma {:induction false} StagingLeavesAll(env: Env, root: Path, plans: seq<FilePlan>, skipPlaced: bool, s: Progress)
    requires s.error.None? && StageFiles(env, root, plans, skipPlaced, s).error.None?
    ensures Staged(root, plans, StageFiles(env, root, plans, skipPlaced, s).files)
    decreases plans
  {
    if plans != [] {
      var next := StageFile(env, root, plans[0], skipPlaced, s);
      var r := StageFiles(env, root, plans[1..], skipPlaced, next);
      PlacingKeepsStaged(env, TargetOf(root, plans[0]), plans[0].placements, skipPlaced,
        s.(files := OpenStaged(s.files, TargetOf(root, plans[0]), plans[0].size)), StagedOf(root, plans[0]));
      StagingKeepsStaged(env, root, plans[1..], skipPlaced, next, StagedOf(root, plans[0]));
      assert next.error.None?;
      StagingLeavesAll(env, root, plans[1..], skipPlaced, next);
      forall i | 0 <= i < |plans|
        ensures StagedOf(root, plans[i]) in r.files
      {
        if i > 0 {
          assert plans[i] == plans[1..][i - 1];
        }
      }
    }
  }
}
