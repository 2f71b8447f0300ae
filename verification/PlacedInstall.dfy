/** Fetching blocks straight into the staging files, then finishing, equals the plain install. */
module PlacedInstall {
  import opened Wrappers
  import opened Bytes
  import opened FileStore
  import opened Content
  import opened InstallPlans
  import opened PayloadPath
  import opened Installer
  import opened Assembly
  import opened Update
  import opened ChunkLocator
  import opened Staging
  import opened RangeIo
  import opened FetchRun

  // ---- The destination table of a request

  ghost predicate NoRepeats(locations: seq<ChunkLocation>) {
    forall i, j :: 0 <= i < j < |locations| ==> locations[i] != locations[j]
  }

  ghost predicate Routes(table: Table, d: ChunkDestination) {
    d.chunkFileName in table && LocationOf(d) in table[d.chunkFileName]
  }

  lemma {:induction false} FetchTableRoutes(table: Table, destinations: seq<ChunkDestination>)
    requires forall name :: name in table ==> NoRepeats(table[name])
    ensures
      var r := FetchTable(table, destinations);
      && (forall name :: name in r ==> NoRepeats(r[name]))
      && (forall d :: Routes(r, d) <==> Routes(table, d) || d in destinations)
    decreases destinations
  {
    if destinations != [] {
      var d := destinations[0];
      var next := Insert(table, d.chunkFileName, LocationOf(d));
      FetchTableRoutes(next, destinations[1..]);
      forall e
        ensures Routes(next, e) <==> Routes(table, e) || e == d
      {
        if Routes(next, e) && !Routes(table, e) {
          assert e == ChunkDestination(e.chunkFileName, LocationOf(e).file, LocationOf(e).offset, LocationOf(e).length);
        }
      }
      forall e
        ensures e in destinations <==> e == d || e in destinations[1..]
      {
      }
    }
  }

  function TableFor(hash: Hasher, root: Path, plan: InstallPlan, files: Files): Table {
    FetchTable(map[], StageFrom(hash, root, plan, files).request.destinations)
  }

  lemma TableRoutesAsked(hash: Hasher, root: Path, plan: InstallPlan, files: Files)
    ensures
      var table := TableFor(hash, root, plan, files);
      && (forall name :: name in table ==> NoRepeats(table[name]))
      && (forall name, l :: name in table && l in table[name] <==>
            Asks(root, plan.files, ChunkDestination(name, l.file, l.offset, l.length)))
  {
    var destinations := StageFrom(hash, root, plan, files).request.destinations;
    var table := TableFor(hash, root, plan, files);
    StageAsksForMissing(hash, root, plan, files);
    FetchTableRoutes(map[], destinations);
    forall name: string, l: ChunkLocation
      ensures name in table && l in table[name] <==> Asks(root, plan.files, ChunkDestination(name, l.file, l.offset, l.length))
    {
      var d := ChunkDestination(name, l.file, l.offset, l.length);
      assert LocationOf(d) == l;
      assert Routes(table, d) <==> d in destinations;
    }
  }

  /** The torrent's own folder holds no file of the plan and none it reads. */
  ghost predicate ScratchApart(plan: InstallPlan, root: Path, savePath: Path) {
    && (forall i :: 0 <= i < |plan.files| ==>
          !Under(TargetOf(root, plan.files[i]), savePath) && !Under(StagedOf(root, plan.files[i]), savePath))
    && (forall i, p :: 0 <= i < |plan.files| && p in plan.files[i].placements && p.source == Held ==> !Under(p.heldFile, savePath))
    && (forall path :: path in plan.removals ==> !Under(Join(root, path), savePath))
    && !Under(Join(root, EXTENSION_FILE_NAME), savePath)
  }

  /** The table routes exactly what the plan asks for. */
  ghost predicate RoutesAsked(table: Table, root: Path, plans: seq<FilePlan>) {
    && (forall name :: name in table ==> NoRepeats(table[name]))
    && (forall name, l :: name in table && l in table[name] ==> Asks(root, plans, ChunkDestination(name, l.file, l.offset, l.length)))
  }

  lemma RoutedApart(table: Table, root: Path, plans: seq<FilePlan>, m: string, a: ChunkLocation, n: string, b: ChunkLocation)
    requires SoundPlans(plans) && RoutesAsked(table, root, plans)
    requires m in table && n in table && a in table[m] && b in table[n] && (m != n || a != b)
    ensures !Meet(a, b)
  {
    DestinationsApart(root, plans,
      ChunkDestination(m, a.file, a.offset, a.length), ChunkDestination(n, b.file, b.offset, b.length));
  }

  lemma RoutedTableApart(table: Table, root: Path, plans: seq<FilePlan>)
    requires SoundPlans(plans) && RoutesAsked(table, root, plans)
    ensures TableApart(table)
  {
    forall m, n, a, b | m in table && n in table && m != n && a in table[m] && b in table[n]
      ensures !Meet(a, b)
    {
      RoutedApart(table, root, plans, m, a, n, b);
    }
    forall name, i, j | name in table && 0 <= i < j < |table[name]|
      ensures !Meet(table[name][i], table[name][j])
    {
      assert NoRepeats(table[name]);
      RoutedApart(table, root, plans, name, table[name][i], name, table[name][j]);
    }
  }

  lemma RoutedInside(root: Path, plans: seq<FilePlan>, before: Files, after: Files, savePath: Path, d: ChunkDestination)
    requires SoundPlans(plans) && FreshlySeeded(root, plans, before, after) && Asks(root, plans, d)
    requires forall i :: 0 <= i < |plans| ==> !Under(StagedOf(root, plans[i]), savePath)
    ensures Inside(after, LocationOf(d)) && !Under(d.file, savePath)
  {
    DestinationInside(root, plans, d);
  }

  lemma RoutedTableInside(root: Path, plans: seq<FilePlan>, before: Files, after: Files, savePath: Path, table: Table)
    requires SoundPlans(plans) && FreshlySeeded(root, plans, before, after) && RoutesAsked(table, root, plans)
    requires forall i :: 0 <= i < |plans| ==> !Under(StagedOf(root, plans[i]), savePath)
    ensures TableInside(table, after, savePath)
  {
    forall name, l | name in table && l in table[name]
      ensures Inside(after, l) && !Under(l.file, savePath)
    {
      var d := ChunkDestination(name, l.file, l.offset, l.length);
      assert Asks(root, plans, d) && LocationOf(d) == l;
      RoutedInside(root, plans, before, after, savePath, d);
    }
  }

  /** The table a fresh stage builds is disjoint and lies inside the staging files. */
  lemma StagedTableInside(hash: Hasher, root: Path, plan: InstallPlan, files: Files, savePath: Path, table: Table)
    requires SoundPlan(plan) && ScratchApart(plan, root, savePath)
    requires !StageFrom(hash, root, plan, files).request.resumed
    requires RoutesAsked(table, root, plan.files)
    ensures TableInside(table, StageFrom(hash, root, plan, files).files, savePath)
  {
    StageAllFresh(hash, root, plan.files, StageState(files, Request([], [], false), {}));
    RoutedTableInside(root, plan.files, files, StageFrom(hash, root, plan, files).files, savePath, table);
  }

  lemma StagedTableApart(hash: Hasher, root: Path, plan: InstallPlan, files: Files, savePath: Path)
    requires SoundPlan(plan) && ScratchApart(plan, root, savePath)
    requires !StageFrom(hash, root, plan, files).request.resumed
    ensures TableApart(TableFor(hash, root, plan, files))
    ensures TableInside(TableFor(hash, root, plan, files), StageFrom(hash, root, plan, files).files, savePath)
  {
    var table := TableFor(hash, root, plan, files);
    TableRoutesAsked(hash, root, plan, files);
    RoutedTableApart(table, root, plan.files);
    StagedTableInside(hash, root, plan, files, savePath, table);
  }

  // ---- After the fetch

  /** Every byte of every remote chunk was written, with the byte the source would serve. */
  ghost predicate Delivered(env: Env, plans: seq<FilePlan>, store: Store) {
    forall i, k :: 0 <= i < |plans| && 0 <= k < |plans[i].placements| && plans[i].placements[k].source == Remote ==>
      DeliveredChunk(env, plans[i].placements[k], store)
  }

  ghost predicate DeliveredChunk(env: Env, p: ChunkPlacement, store: Store) {
    var served := env.source(p.digest, p.length);
    && served.Some?
    && |served.value| == p.length
    && forall o :: 0 <= o < p.length ==> (FileNameFor(p.digest), o) in store && store[(FileNameFor(p.digest), o)] == served.value[o]
  }

  /** Every chunk the fast form takes on trust would pass the checks of the plain form. */
  ghost predicate SkippedResolve(env: Env, files: Files, root: Path, plans: seq<FilePlan>) {
    forall i, k ::
      (0 <= i < |plans| && 0 <= k < |plans[i].placements| && Skipped(true, TargetOf(root, plans[i]), plans[i].placements[k])) ==>
        ResolveChunk(env, files, plans[i].placements[k]).Ok?
  }

  /** The disk once a fresh stage was filled by successful block writes, whatever they carried. */
  ghost predicate Filled(
    hash: Hasher, plan: InstallPlan, root: Path, savePath: Path, before: Files, blocks: seq<Block>, after: Files) {
    && SoundPlan(plan)
    && ScratchApart(plan, root, savePath)
    && WellMapped(blocks)
    && var s := StageFrom(hash, root, plan, before);
       && !s.request.resumed
       && WriteBlocks(s.files, TableFor(hash, root, plan, before), savePath, blocks) == WriteResult(after, true)
  }

  /** What the blocks left in the plan's own table. */
  function StoreOf(hash: Hasher, plan: InstallPlan, root: Path, before: Files, blocks: seq<Block>): Store
    requires WellMapped(blocks)
  {
    StoreBlocks(map[], TableFor(hash, root, plan, before), blocks)
  }

  /** Moreover every wanted chunk was written in full, with the bytes the source would serve. */
  ghost predicate Fetched(
    env: Env, plan: InstallPlan, root: Path, savePath: Path, before: Files, blocks: seq<Block>, after: Files) {
    Filled(env.hash, plan, root, savePath, before, blocks, after)
    && Delivered(env, plan.files, StoreOf(env.hash, plan, root, before, blocks))
  }

  lemma FetchedFacts(
    env: Env, plan: InstallPlan, root: Path, savePath: Path, before: Files, blocks: seq<Block>, after: Files)
    requires Fetched(env, plan, root, savePath, before, blocks, after)
    ensures
      var staged := StageFrom(env.hash, root, plan, before).files;
      var table := TableFor(env.hash, root, plan, before);
      && FreshlySeeded(root, plan.files, before, staged)
      && Mirrors(after, staged, table, savePath, StoreBlocks(map[], table, blocks))
  {
    var s := StageFrom(env.hash, root, plan, before);
    var table := TableFor(env.hash, root, plan, before);
    StageAllFresh(env.hash, root, plan.files, StageState(before, Request([], [], false), {}));
    StagedTableApart(env.hash, root, plan, before, savePath);
    FreshRunMirrors(s.files, table, savePath, blocks);
  }

  /** Staging and fetching touch only staging files and the torrent's own folder. */
  lemma FetchedElsewhere(
    env: Env, plan: InstallPlan, root: Path, savePath: Path, before: Files, blocks: seq<Block>, after: Files, q: Path)
    requires Fetched(env, plan, root, savePath, before, blocks, after)
    requires !IsStagedOf(root, plan.files, q) && !Under(q, savePath)
    ensures Same(after, before, q)
  {
    var staged := StageFrom(env.hash, root, plan, before).files;
    var table := TableFor(env.hash, root, plan, before);
    FetchedFacts(env, plan, root, savePath, before, blocks, after);
    TableRoutesAsked(env.hash, root, plan, before);
    assert Same(staged, before, q);
    if q in staged {
      forall i: nat | i < |staged[q]|
        ensures after[q][i] == staged[q][i]
      {
        forall name, l | name in table && l in table[name]
          ensures !CoversByte(l, q, i)
        {
          DestinationInside(root, plan.files, ChunkDestination(name, l.file, l.offset, l.length));
        }
        assert KeepsByte(after, staged, table, q, i);
      }
      assert after[q] == staged[q];
    }
  }

  lemma FetchedDelivered(
    env: Env, plan: InstallPlan, root: Path, savePath: Path, before: Files, blocks: seq<Block>, after: Files, i: nat, k: nat)
    requires Fetched(env, plan, root, savePath, before, blocks, after)
    requires i < |plan.files| && k < |plan.files[i].placements| && plan.files[i].placements[k].source == Remote
    ensures DeliveredChunk(env, plan.files[i].placements[k], StoreBlocks(map[], TableFor(env.hash, root, plan, before), blocks))
  {
  }

  lemma SliceByBytes(content: seq<byte>, offset: nat, bytes: seq<byte>)
    requires offset + |bytes| <= |content|
    requires forall o: nat :: o < |bytes| ==> content[offset + o] == bytes[o]
    ensures Slice(content, offset, |bytes|) == Some(bytes)
  {
    assert content[offset..offset + |bytes|] == bytes;
  }

  /** The placement's range shows every byte the store has for its chunk. */
  ghost predicate ShowsStore(content: seq<byte>, p: ChunkPlacement, store: Store) {
    && p.targetOffset + p.length <= |content|
    && forall o: nat ::
         o < p.length && (FileNameFor(p.digest), o) in store ==> content[p.targetOffset + o] == store[(FileNameFor(p.digest), o)]
  }

  lemma DeliveredRange(env: Env, p: ChunkPlacement, store: Store, content: seq<byte>)
    requires DeliveredChunk(env, p, store) && ShowsStore(content, p, store)
    ensures Slice(content, p.targetOffset, p.length) == env.source(p.digest, p.length)
  {
    SliceByBytes(content, p.targetOffset, env.source(p.digest, p.length).value);
  }

  lemma DestinationShowsStore(
    files: Files, base: Files, table: Table, savePath: Path, store: Store, file: Path, p: ChunkPlacement)
    requires Mirrors(files, base, table, savePath, store)
    requires
      var name := FileNameFor(p.digest);
      name in table && ChunkLocation(file, p.targetOffset, p.length) in table[name]
    ensures file in files && ShowsStore(files[file], p, store)
  {
    var name := FileNameFor(p.digest);
    var l := ChunkLocation(file, p.targetOffset, p.length);
    assert MirrorsByte(files, base, store, name, l, 0);
    forall o: nat | o < p.length && (name, o) in store
      ensures files[file][p.targetOffset + o] == store[(name, o)]
    {
      assert MirrorsByte(files, base, store, name, l, o);
    }
  }

  lemma RemoteIsRouted(hash: Hasher, root: Path, plan: InstallPlan, files: Files, i: nat, k: nat)
    requires i < |plan.files| && k < |plan.files[i].placements| && plan.files[i].placements[k].source == Remote
    ensures
      var p := plan.files[i].placements[k];
      var table := TableFor(hash, root, plan, files);
      && FileNameFor(p.digest) in table
      && ChunkLocation(StagedOf(root, plan.files[i]), p.targetOffset, p.length) in table[FileNameFor(p.digest)]
  {
    var d := DestinationFor(StagedOf(root, plan.files[i]), plan.files[i].placements[k]);
    StageAsksForMissing(hash, root, plan, files);
    FetchTableRoutes(map[], StageFrom(hash, root, plan, files).request.destinations);
    assert Asks(root, plan.files, d);
    assert Routes(TableFor(hash, root, plan, files), d);
  }

  lemma FetchedShowsStore(
    env: Env, plan: InstallPlan, root: Path, savePath: Path, before: Files, blocks: seq<Block>, after: Files, i: nat, k: nat)
    requires Fetched(env, plan, root, savePath, before, blocks, after)
    requires i < |plan.files| && k < |plan.files[i].placements| && plan.files[i].placements[k].source == Remote
    ensures StagedOf(root, plan.files[i]) in after
    ensures ShowsStore(after[StagedOf(root, plan.files[i])], plan.files[i].placements[k],
      StoreBlocks(map[], TableFor(env.hash, root, plan, before), blocks))
  {
    var p := plan.files[i].placements[k];
    var file := StagedOf(root, plan.files[i]);
    var table := TableFor(env.hash, root, plan, before);
    RemoteIsRouted(env.hash, root, plan, before, i, k);
    FetchedFacts(env, plan, root, savePath, before, blocks, after);
    DestinationShowsStore(after, StageFrom(env.hash, root, plan, before).files, table, savePath, StoreBlocks(map[], table, blocks), file, p);
  }

  lemma FetchedRemoteChunk(
    env: Env, plan: InstallPlan, root: Path, savePath: Path, before: Files, blocks: seq<Block>, after: Files, i: nat, k: nat)
    requires Fetched(env, plan, root, savePath, before, blocks, after)
    requires i < |plan.files| && k < |plan.files[i].placements| && plan.files[i].placements[k].source == Remote
    ensures
      var p := plan.files[i].placements[k];
      && StagedOf(root, plan.files[i]) in after
      && Slice(after[StagedOf(root, plan.files[i])], p.targetOffset, p.length) == env.source(p.digest, p.length)
  {
    var store := StoreBlocks(map[], TableFor(env.hash, root, plan, before), blocks);
    FetchedShowsStore(env, plan, root, savePath, before, blocks, after, i, k);
    FetchedDelivered(env, plan, root, savePath, before, blocks, after, i, k);
    DeliveredRange(env, plan.files[i].placements[k], store, after[StagedOf(root, plan.files[i])]);
  }

  /** Bytes of the staged file no destination covers are still those of the original. */
  lemma FetchedUncoveredByte(
    env: Env, plan: InstallPlan, root: Path, savePath: Path, before: Files, blocks: seq<Block>, after: Files, i: nat, at: nat)
    requires Fetched(env, plan, root, savePath, before, blocks, after)
    requires i < |plan.files| && at < plan.files[i].size
    requires !TableCovers(TableFor(env.hash, root, plan, before), StagedOf(root, plan.files[i]), at)
    ensures
      var file := StagedOf(root, plan.files[i]);
      && file in after && at < |after[file]|
      && after[file][at] == Resized(ContentAt(before, TargetOf(root, plan.files[i])), plan.files[i].size)[at]
  {
    var staged := StageFrom(env.hash, root, plan, before).files;
    FetchedFacts(env, plan, root, savePath, before, blocks, after);
    assert !Under(StagedOf(root, plan.files[i]), savePath);
    assert KeepsByte(after, staged, TableFor(env.hash, root, plan, before), StagedOf(root, plan.files[i]), at);
  }

  lemma HeldRangeUncovered(hash: Hasher, root: Path, plan: InstallPlan, files: Files, i: nat, k: nat, at: nat)
    requires SoundPlan(plan)
    requires i < |plan.files| && k < |plan.files[i].placements| && plan.files[i].placements[k].source == Held
    requires
      var p := plan.files[i].placements[k];
      p.targetOffset <= at < p.targetOffset + p.length
    ensures !TableCovers(TableFor(hash, root, plan, files), StagedOf(root, plan.files[i]), at)
  {
    var table := TableFor(hash, root, plan, files);
    var file := StagedOf(root, plan.files[i]);
    TableRoutesAsked(hash, root, plan, files);
    forall name, l | name in table && l in table[name]
      ensures !CoversByte(l, file, at)
    {
      DestinationClearOfHeld(root, plan.files, ChunkDestination(name, l.file, l.offset, l.length), i, k);
    }
  }

  lemma SeededRangeResolves(env: Env, files: Files, target: Path, p: ChunkPlacement, size: nat, o: nat)
    requires AlreadySeeded(target, p) && ResolveChunk(env, files, p).Ok?
    requires p.targetOffset + p.length <= size && o < p.length
    ensures Resized(ContentAt(files, target), size)[p.targetOffset + o] == ResolveChunk(env, files, p).value[o]
  {
    assert files[target][p.heldOffset..p.heldOffset + p.length][o] == files[target][p.targetOffset + o];
  }

  lemma SeededByteResolves(env: Env, files: Files, target: Path, p: ChunkPlacement, size: nat, o: nat, content: seq<byte>)
    requires AlreadySeeded(target, p) && ResolveChunk(env, files, p).Ok?
    requires p.targetOffset + p.length <= size && o < p.length && content == Resized(ContentAt(files, target), size)
    ensures content[p.targetOffset + o] == ResolveChunk(env, files, p).value[o]
  {
    SeededRangeResolves(env, files, target, p, size, o);
  }

  lemma FetchedUncovered(
    env: Env, plan: InstallPlan, root: Path, savePath: Path, before: Files, blocks: seq<Block>, after: Files, i: nat, at: nat)
    returns (staged: seq<byte>, content: seq<byte>)
    requires Fetched(env, plan, root, savePath, before, blocks, after)
    requires i < |plan.files| && at < plan.files[i].size
    requires !TableCovers(TableFor(env.hash, root, plan, before), StagedOf(root, plan.files[i]), at)
    ensures StagedOf(root, plan.files[i]) in after && after[StagedOf(root, plan.files[i])] == staged
    ensures content == Resized(ContentAt(before, TargetOf(root, plan.files[i])), plan.files[i].size)
    ensures at < |staged| && at < |content| && staged[at] == content[at]
  {
    FetchedUncoveredByte(env, plan, root, savePath, before, blocks, after, i, at);
    staged := after[StagedOf(root, plan.files[i])];
    content := Resized(ContentAt(before, TargetOf(root, plan.files[i])), plan.files[i].size);
  }

  lemma FetchedHeldByte(
    env: Env, plan: InstallPlan, root: Path, savePath: Path, before: Files, blocks: seq<Block>, after: Files, i: nat, k: nat, o: nat)
    requires Fetched(env, plan, root, savePath, before, blocks, after)
    requires i < |plan.files| && k < |plan.files[i].placements| && o < plan.files[i].placements[k].length
    requires AlreadySeeded(TargetOf(root, plan.files[i]), plan.files[i].placements[k])
    requires ResolveChunk(env, before, plan.files[i].placements[k]).Ok?
    ensures
      var p := plan.files[i].placements[k];
      var file := StagedOf(root, plan.files[i]);
      && file in after && p.targetOffset + o < |after[file]|
      && after[file][p.targetOffset + o] == ResolveChunk(env, before, p).value[o]
  {
    var p := plan.files[i].placements[k];
    var at := p.targetOffset + o;
    assert SoundFile(plan.files[i]);
    TilesRange(plan.files[i].placements, 0, plan.files[i].size);
    HeldRangeUncovered(env.hash, root, plan, before, i, k, at);
    var staged, content := FetchedUncovered(env, plan, root, savePath, before, blocks, after, i, at);
    SeededByteResolves(env, before, TargetOf(root, plan.files[i]), p, plan.files[i].size, o, content);
  }

  /** The content holds the bytes from the offset on. */
  ghost predicate HoldsAt(content: seq<byte>, offset: nat, bytes: seq<byte>) {
    offset + |bytes| <= |content| && forall o: nat :: o < |bytes| ==> content[offset + o] == bytes[o]
  }

  lemma FetchedHeldBytes(
    env: Env, plan: InstallPlan, root: Path, savePath: Path, before: Files, blocks: seq<Block>, after: Files, i: nat, k: nat,
    p: ChunkPlacement, file: Path, bytes: seq<byte>)
    requires Fetched(env, plan, root, savePath, before, blocks, after)
    requires i < |plan.files| && k < |plan.files[i].placements| && p == plan.files[i].placements[k]
    requires AlreadySeeded(TargetOf(root, plan.files[i]), p) && file == StagedOf(root, plan.files[i])
    requires ResolveChunk(env, before, p) == Ok(bytes) && 0 < |bytes| == p.length
    ensures file in after && HoldsAt(after[file], p.targetOffset, bytes)
  {
    FetchedHeldByte(env, plan, root, savePath, before, blocks, after, i, k, |bytes| - 1);
    forall o: nat | o < |bytes|
      ensures after[file][p.targetOffset + o] == bytes[o]
    {
      FetchedHeldByte(env, plan, root, savePath, before, blocks, after, i, k, o);
    }
  }

  lemma ResolvedLength(env: Env, files: Files, p: ChunkPlacement)
    requires ResolveChunk(env, files, p).Ok?
    ensures |ResolveChunk(env, files, p).value| == p.length
  {
  }

  lemma FetchedHeldInPlace(
    env: Env, plan: InstallPlan, root: Path, savePath: Path, before: Files, blocks: seq<Block>, after: Files, i: nat, k: nat)
    requires Fetched(env, plan, root, savePath, before, blocks, after)
    requires i < |plan.files| && k < |plan.files[i].placements| && 0 < plan.files[i].placements[k].length
    requires AlreadySeeded(TargetOf(root, plan.files[i]), plan.files[i].placements[k])
    requires ResolveChunk(env, before, plan.files[i].placements[k]).Ok?
    ensures
      var p := plan.files[i].placements[k];
      && StagedOf(root, plan.files[i]) in after
      && Slice(after[StagedOf(root, plan.files[i])], p.targetOffset, p.length) == Some(ResolveChunk(env, before, p).value)
  {
    var p := plan.files[i].placements[k];
    var bytes := ResolveChunk(env, before, p).value;
    ResolvedLength(env, before, p);
    FetchedHeldBytes(env, plan, root, savePath, before, blocks, after, i, k, p, StagedOf(root, plan.files[i]), bytes);
    SliceByBytes(after[StagedOf(root, plan.files[i])], p.targetOffset, bytes);
  }

  lemma FetchedSize(
    env: Env, plan: InstallPlan, root: Path, savePath: Path, before: Files, blocks: seq<Block>, after: Files, i: nat)
    requires Fetched(env, plan, root, savePath, before, blocks, after) && i < |plan.files|
    ensures StagedOf(root, plan.files[i]) in after && |after[StagedOf(root, plan.files[i])]| == plan.files[i].size
  {
    FetchedFacts(env, plan, root, savePath, before, blocks, after);
  }

  /** Held sources are neither staging files nor in the torrent's folder, so the fetch left them alone. */
  lemma FetchedResolvesAlike(
    env: Env, plan: InstallPlan, root: Path, savePath: Path, before: Files, blocks: seq<Block>, after: Files, i: nat, p: ChunkPlacement)
    requires Fetched(env, plan, root, savePath, before, blocks, after)
    requires i < |plan.files| && p in plan.files[i].placements
    ensures p.source == Held ==> Same(after, before, p.heldFile)
    ensures ResolveChunk(env, after, p) == ResolveChunk(env, before, p)
  {
    if p.source == Held {
      assert SoundFile(plan.files[i]);
      forall j | 0 <= j < |plan.files|
        ensures p.heldFile != StagedOf(root, plan.files[j])
      {
        assert IsStagingName(StagedOf(root, plan.files[j]));
      }
      FetchedElsewhere(env, plan, root, savePath, before, blocks, after, p.heldFile);
    }
  }

  lemma PlacementNotEmpty(plan: InstallPlan, i: nat, k: nat)
    requires SoundPlan(plan) && i < |plan.files| && k < |plan.files[i].placements|
    ensures 0 < plan.files[i].placements[k].length
  {
    assert SoundFile(plan.files[i]);
    TilesRange(plan.files[i].placements, 0, plan.files[i].size);
  }

  lemma FetchedIsPrepared(
    env: Env, plan: InstallPlan, root: Path, savePath: Path, before: Files, blocks: seq<Block>, after: Files)
    requires Fetched(env, plan, root, savePath, before, blocks, after)
    requires SkippedResolve(env, before, root, plan.files)
    ensures PreparedPlans(env, after, after, root, plan.files, true)
  {
    forall i | 0 <= i < |plan.files|
      ensures PreparedPlan(env, after, after, root, plan.files[i], true)
    {
      var target, file := TargetOf(root, plan.files[i]), StagedOf(root, plan.files[i]);
      FetchedSize(env, plan, root, savePath, before, blocks, after, i);
      assert Resized(ContentAt(after, file), plan.files[i].size) == after[file];
      forall p | p in plan.files[i].placements && Skipped(true, target, p)
        ensures ResolveChunk(env, after, p).Ok?
        ensures Slice(after[file], p.targetOffset, p.length) == Some(ResolveChunk(env, after, p).value)
      {
        var k :| 0 <= k < |plan.files[i].placements| && plan.files[i].placements[k] == p;
        FetchedResolvesAlike(env, plan, root, savePath, before, blocks, after, i, p);
        assert ResolveChunk(env, before, p).Ok?;
        PlacementNotEmpty(plan, i, k);
        if p.source == Remote {
          FetchedRemoteChunk(env, plan, root, savePath, before, blocks, after, i, k);
        } else {
          FetchedHeldInPlace(env, plan, root, savePath, before, blocks, after, i, k);
        }
      }
    }
  }

  lemma FetchedAssemblesAlike(
    env: Env, plan: InstallPlan, root: Path, savePath: Path, before: Files, blocks: seq<Block>, after: Files)
    requires Fetched(env, plan, root, savePath, before, blocks, after)
    ensures forall i :: 0 <= i < |plan.files| ==>
      Assemble(env, after, plan.files[i].placements) == Assemble(env, before, plan.files[i].placements)
  {
    forall i | 0 <= i < |plan.files|
      ensures Assemble(env, after, plan.files[i].placements) == Assemble(env, before, plan.files[i].placements)
    {
      forall p | p in plan.files[i].placements && p.source == Held
        ensures Same(after, before, p.heldFile)
      {
        FetchedResolvesAlike(env, plan, root, savePath, before, blocks, after, i, p);
      }
      AssembleAgrees(env, after, before, plan.files[i].placements);
    }
  }

  lemma {:induction false} FirstErrorAgrees(env: Env, a: Files, b: Files, plans: seq<FilePlan>)
    requires forall i :: 0 <= i < |plans| ==> Assemble(env, a, plans[i].placements) == Assemble(env, b, plans[i].placements)
    ensures FirstError(env, a, plans) == FirstError(env, b, plans)
  {
    if plans != [] {
      forall i | 0 <= i < |plans[1..]|
        ensures Assemble(env, a, plans[1..][i].placements) == Assemble(env, b, plans[1..][i].placements)
      {
        assert plans[1..][i] == plans[i + 1];
      }
      FirstErrorAgrees(env, a, b, plans[1..]);
    }
  }

  // ---- Approval looks at one file

  lemma ApprovalAgrees(env: Env, plan: InstallPlan, root: Path, a: Files, b: Files)
    requires Same(a, b, ExtensionCandidate(plan, root))
    ensures ExtensionApproved(env, plan, root, a) == ExtensionApproved(env, plan, root, b)
  {
  }

  lemma {:induction false} ExtensionPlanIn(plans: seq<FilePlan>)
    requires ExtensionPlans(plans) != []
    ensures exists i :: 0 <= i < |plans| && plans[i].path == EXTENSION_FILE_NAME
  {
    if plans[0].path != EXTENSION_FILE_NAME {
      ExtensionPlanIn(plans[1..]);
      var i :| 0 <= i < |plans[1..]| && plans[1..][i].path == EXTENSION_FILE_NAME;
      assert plans[i + 1].path == EXTENSION_FILE_NAME;
    }
  }

  lemma CandidateAgrees(
    env: Env, plan: InstallPlan, root: Path, savePath: Path, before: Files, blocks: seq<Block>, after: Files)
    requires Fetched(env, plan, root, savePath, before, blocks, after)
    ensures Same(
      WithStaged(env, root, after, after, plan.files), WithStaged(env, root, before, before, plan.files), ExtensionCandidate(plan, root))
  {
    WithStagedAt(env, root, after, after, plan.files);
    WithStagedAt(env, root, before, before, plan.files);
    FetchedAssemblesAlike(env, plan, root, savePath, before, blocks, after);
    var candidate := ExtensionCandidate(plan, root);
    if ExtensionPlans(plan.files) == [] {
      ExtensionNameAccepted();
      PayloadTargetIsNotStaging(root, EXTENSION_FILE_NAME);
      forall i | 0 <= i < |plan.files|
        ensures candidate != StagedOf(root, plan.files[i])
      {
        assert IsStagingName(StagedOf(root, plan.files[i]));
      }
      FetchedElsewhere(env, plan, root, savePath, before, blocks, after, candidate);
    } else {
      ExtensionPlanIn(plan.files);
      var i :| 0 <= i < |plan.files| && plan.files[i].path == EXTENSION_FILE_NAME;
      assert candidate == StagedOf(root, plan.files[i]);
    }
  }

  // ---- The refinement

  lemma RemovalsAgree(
    env: Env, plan: InstallPlan, root: Path, savePath: Path, before: Files, blocks: seq<Block>, after: Files)
    requires Fetched(env, plan, root, savePath, before, blocks, after)
    ensures PlanReport(plan, root, after) == PlanReport(plan, root, before)
  {
    forall path | path in plan.removals
      ensures Join(root, path) in after <==> Join(root, path) in before
    {
      RemovalApart(plan, root, path);
      FetchedElsewhere(env, plan, root, savePath, before, blocks, after, Join(root, path));
    }
    PresentRemovalsAgree(root, plan.removals, after, before);
  }

  lemma FinishedAlike(
    env: Env, plan: InstallPlan, root: Path, savePath: Path, before: Files, blocks: seq<Block>, after: Files,
    plain: Files, fast: Files, q: Path)
    requires Fetched(env, plan, root, savePath, before, blocks, after)
    requires Finished(env, plan, root, before, before, plain) && Finished(env, plan, root, after, after, fast)
    requires !Under(q, savePath)
    ensures Same(fast, plain, q)
  {
    FetchedAssemblesAlike(env, plan, root, savePath, before, blocks, after);
    if IsTargetOf(root, plan.files, q) {
      var i :| 0 <= i < |plan.files| && q == TargetOf(root, plan.files[i]);
    } else if IsStagedOf(root, plan.files, q) {
      var i :| 0 <= i < |plan.files| && q == StagedOf(root, plan.files[i]);
    } else if IsRemovalOf(root, plan, q) {
      var k :| 0 <= k < |plan.removals| && q == Join(root, plan.removals[k]);
      assert plan.removals[k] in plan.removals;
    } else {
      FetchedElsewhere(env, plan, root, savePath, before, blocks, after, q);
      assert Same(plain, before, q) && Same(fast, after, q);
    }
  }

  lemma PlainNeedsEveryChunk(env: Env, plan: InstallPlan, root: Path, files: Files)
    requires SoundPlan(plan) && Materialised(env, plan, root, false, files).error.None?
    ensures SkippedResolve(env, files, root, plan.files)
  {
    MaterialisedAt(env, plan, root, false, files, files);
    NoFirstError(env, files, plan.files);
    forall i, k | 0 <= i < |plan.files| && 0 <= k < |plan.files[i].placements|
      ensures ResolveChunk(env, files, plan.files[i].placements[k]).Ok?
    {
      assert plan.files[i] in plan.files;
      AssembleOk(env, files, plan.files[i].placements);
      assert plan.files[i].placements[k] in plan.files[i].placements;
    }
  }

  /**
   * After a fresh stage filled by successful writes of every wanted chunk, the plain install succeeds
   * exactly when the fast one does and every chunk it took on trust is intact; both then leave the
   * same files, outside the torrent's own folder, and the same report.
   */
  lemma PlacedInstallRefinesApply(
    env: Env, plan: InstallPlan, root: Path, savePath: Path, before: Files, blocks: seq<Block>, after: Files)
    requires Fetched(env, plan, root, savePath, before, blocks, after)
    ensures
      var plain := Materialised(env, plan, root, false, before);
      var fast := Materialised(env, plan, root, true, after);
      && (plain.error.None? <==> fast.error.None? && SkippedResolve(env, before, root, plan.files))
      && (SkippedResolve(env, before, root, plan.files) ==> fast.error == plain.error)
      && (plain.error.None? ==>
            fast.report == plain.report && forall q :: !Under(q, savePath) ==> Same(fast.files, plain.files, q))
  {
    var plain := Materialised(env, plan, root, false, before);
    if plain.error.None? {
      PlainNeedsEveryChunk(env, plan, root, before);
    }
    if SkippedResolve(env, before, root, plan.files) {
      MaterialisedAt(env, plan, root, false, before, before);
      FetchedIsPrepared(env, plan, root, savePath, before, blocks, after);
      MaterialisedAt(env, plan, root, true, after, after);
      FetchedAssemblesAlike(env, plan, root, savePath, before, blocks, after);
      FirstErrorAgrees(env, after, before, plan.files);
      CandidateAgrees(env, plan, root, savePath, before, blocks, after);
      ApprovalAgrees(env, plan, root,
        WithStaged(env, root, after, after, plan.files), WithStaged(env, root, before, before, plan.files));
      if plain.error.None? {
        var fast := Materialised(env, plan, root, true, after);
        RemovalsAgree(env, plan, root, savePath, before, blocks, after);
        forall q | !Under(q, savePath)
          ensures Same(fast.files, plain.files, q)
        {
          FinishedAlike(env, plan, root, savePath, before, blocks, after, plain.files, fast.files, q);
        }
      }
    }
  }
}
