/** When the extension package of an install is approved, told from the plan and the disk alone. */
module ExtensionApproval {
  import opened Bytes
  import opened FileStore
  import opened Content
  import opened Installer

  const PACKAGE: string := "blacktearemos_extensions.dll"

  predicate Replaces(plan: FilePlan) {
    plan.path == PACKAGE
  }

  /** Where placement i has to start: at the front, or behind the one before it. */
  function StartOf(placements: seq<ChunkPlacement>, i: nat): nat
    requires i <= |placements|
  {
    if i == 0 then 0 else placements[i - 1].targetOffset + placements[i - 1].length
  }

  /** Placement i lies where it has to, is not empty, and the bytes there have its digest. */
  predicate PiecePresent(hash: Hasher, content: seq<byte>, placements: seq<ChunkPlacement>, i: nat)
    requires i < |placements|
  {
    var p := placements[i];
    && p.targetOffset == StartOf(placements, i)
    && p.length > 0
    && p.targetOffset + p.length <= |content|
    && hash(content[p.targetOffset..p.targetOffset + p.length]) == p.digest
  }

  /** The pieces lie end to end, cover the content and have the planned digests. */
  predicate Pieced(hash: Hasher, content: seq<byte>, placements: seq<ChunkPlacement>) {
    && (forall i :: 0 <= i < |placements| ==> PiecePresent(hash, content, placements, i))
    && StartOf(placements, |placements|) == |content|
  }

  /** The same from a later start, with the placements before it already checked. */
  predicate PiecedFrom(hash: Hasher, content: seq<byte>, placements: seq<ChunkPlacement>, from: nat)
    requires from <= |placements|
  {
    && (forall i :: from <= i < |placements| ==> PiecePresent(hash, content, placements, i))
    && StartOf(placements, |placements|) == |content|
  }

  lemma {:induction false} CoveredFrom(hash: Hasher, content: seq<byte>, placements: seq<ChunkPlacement>, from: nat)
    requires from <= |placements|
    ensures Covered(hash, content, placements[from..], StartOf(placements, from)) <==> PiecedFrom(hash, content, placements, from)
    decreases |placements| - from
  {
    if from < |placements| {
      CoveredFrom(hash, content, placements, from + 1);
      assert placements[from..][1..] == placements[from + 1..];
      CoveredStep(hash, content, placements, from);
    }
  }

  lemma CoveredStep(hash: Hasher, content: seq<byte>, placements: seq<ChunkPlacement>, from: nat)
    requires from < |placements| && placements[from..][1..] == placements[from + 1..]
    ensures Covered(hash, content, placements[from..], StartOf(placements, from)) <==>
      PiecePresent(hash, content, placements, from)
      && Covered(hash, content, placements[from + 1..], StartOf(placements, from + 1))
  {
  }

  lemma CoveredExactly(hash: Hasher, content: seq<byte>, placements: seq<ChunkPlacement>)
    ensures Covered(hash, content, placements, 0) <==> Pieced(hash, content, placements)
  {
    CoveredFrom(hash, content, placements, 0);
    assert placements[0..] == placements;
  }

  // ---- Which file of the plan is the package

  predicate Alone(plans: seq<FilePlan>, i: nat)
    requires i < |plans|
  {
    Replaces(plans[i]) && forall j :: 0 <= j < |plans| && j != i ==> !Replaces(plans[j])
  }

  lemma {:induction false} NoReplacement(plans: seq<FilePlan>)
    ensures ExtensionPlans(plans) == [] <==> forall i :: 0 <= i < |plans| ==> !Replaces(plans[i])
  {
    if plans != [] {
      NoReplacement(plans[1..]);
      assert forall i :: 0 < i < |plans| ==> plans[i] == plans[1..][i - 1];
    }
  }

  lemma {:induction false} OneReplacement(plans: seq<FilePlan>, i: nat)
    requires i < |plans| && Alone(plans, i)
    ensures ExtensionPlans(plans) == [plans[i]]
  {
    var rest := plans[1..];
    assert forall j :: 0 < j < |plans| ==> plans[j] == rest[j - 1];
    if i == 0 {
      NoReplacement(rest);
    } else {
      OneReplacement(rest, i - 1);
    }
  }

  lemma {:induction false} TwoReplacements(plans: seq<FilePlan>, i: nat, j: nat)
    requires i < j < |plans| && Replaces(plans[i]) && Replaces(plans[j])
    ensures |ExtensionPlans(plans)| > 1
  {
    var rest := plans[1..];
    assert forall k :: 0 < k < |plans| ==> plans[k] == rest[k - 1];
    if i == 0 {
      NoReplacement(rest);
      assert Replaces(rest[j - 1]);
    } else {
      TwoReplacements(rest, i - 1, j - 1);
    }
  }

  // ---- The verdict

  /** No package in the plan: it is being removed, there is none, or the one in place is trusted. */
  lemma ApprovedInPlace(env: Env, plan: InstallPlan, root: Path, files: Files)
    requires forall i :: 0 <= i < |plan.files| ==> !Replaces(plan.files[i])
    ensures ExtensionApproved(env, plan, root, files) <==>
      || PACKAGE in plan.removals
      || root + "/" + PACKAGE !in files
      || env.trusted(files[root + "/" + PACKAGE])
  {
    NoReplacement(plan.files);
  }

  /** One package in the plan: the staged one is there, is trusted, and consists of exactly the planned pieces. */
  lemma ApprovedReplacement(env: Env, plan: InstallPlan, root: Path, files: Files, i: nat)
    requires i < |plan.files| && Alone(plan.files, i)
    ensures
      var staged := root + "/" + PACKAGE + ".wgrdmm-new";
      ExtensionApproved(env, plan, root, files) <==>
        && staged in files
        && env.trusted(files[staged])
        && |files[staged]| == plan.files[i].size
        && Pieced(env.hash, files[staged], plan.files[i].placements)
  {
    OneReplacement(plan.files, i);
    var staged := root + "/" + PACKAGE + ".wgrdmm-new";
    assert ExtensionCandidate(plan, root) == staged;
    if staged in files {
      CoveredExactly(env.hash, files[staged], plan.files[i].placements);
    }
  }

  /** A plan that writes the package twice is never approved. */
  lemma ApprovedOnce(env: Env, plan: InstallPlan, root: Path, files: Files, i: nat, j: nat)
    requires i < j < |plan.files| && Replaces(plan.files[i]) && Replaces(plan.files[j])
    ensures !ExtensionApproved(env, plan, root, files)
  {
    TwoReplacements(plan.files, i, j);
  }
}
