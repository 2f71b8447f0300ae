/** What a seeding torrent finds when it looks a chunk up: the oldest seeded mod that holds it. */
module SeedLookup {
  import opened Wrappers
  import opened Bytes
  import opened FileStore
  import opened Content
  import opened ChunkLocator

  // ---- The name a torrent asks for

  /** No separator of either kind. */
  predicate Plain(name: string) {
    '/' !in name && '\\' !in name
  }

  lemma {:induction false} HexIsPlain(bytes: seq<byte>)
    ensures Plain(ToHex(bytes))
  {
    if bytes != [] {
      HexIsPlain(bytes[1..]);
    }
  }

  lemma ChunkNameIsPlain(digest: Digest)
    ensures Plain(FileNameFor(digest))
  {
    HexIsPlain(digest);
  }

  lemma {:induction false} LeafAfterFolder(folder: string, leaf: string)
    requires '/' !in leaf
    ensures LeafOf(folder + "/" + leaf) == leaf
    decreases |leaf|
  {
    var name := folder + "/" + leaf;
    if leaf != "" {
      var shorter := leaf[..|leaf| - 1];
      assert name[|name| - 1] == leaf[|leaf| - 1] && leaf[|leaf| - 1] in leaf;
      assert name[..|name| - 1] == folder + "/" + shorter;
      LeafAfterFolder(folder, shorter);
      assert shorter + [leaf[|leaf| - 1]] == leaf;
    }
  }

  lemma SlashesOutside(folder: string, leaf: string)
    requires Plain(leaf)
    ensures WithSlashes(folder + "/" + leaf) == WithSlashes(folder) + "/" + leaf
    ensures WithSlashes(folder + "\\" + leaf) == WithSlashes(folder) + "/" + leaf
  {
    forall separator | separator in {'/', '\\'}
      ensures WithSlashes(folder + [separator] + leaf) == WithSlashes(folder) + "/" + leaf
    {
      var name := folder + [separator] + leaf;
      forall i | 0 <= i < |name|
        ensures WithSlashes(name)[i] == (WithSlashes(folder) + "/" + leaf)[i]
      {
        if i > |folder| {
          assert name[i] == leaf[i - |folder| - 1] && name[i] in leaf;
        }
      }
    }
  }

  // ---- What a mod holds

  /** Some file of the mod has a chunk with the digest, at this place. */
  ghost predicate HoldsAt(folder: Path, files: seq<ManifestFile>, d: Digest, l: ChunkLocation) {
    exists j, k ::
      && 0 <= j < |files|
      && 0 <= k < |files[j].chunks|
      && files[j].chunks[k].digest == d
      && l == ChunkLocation(Join(folder, files[j].path), files[j].chunks[k].offset, files[j].chunks[k].length)
  }

  lemma {:induction false} HeldIsPlaced(folder: Path, files: seq<ManifestFile>, d: Digest, l: ChunkLocation)
    ensures Placement(FileNameFor(d), l) in ModPlacements(folder, files) <==> HoldsAt(folder, files, d, l)
  {
    if files != [] {
      var p := Placement(FileNameFor(d), l);
      var own := FilePlacements(Join(folder, files[0].path), files[0].chunks);
      HeldIsPlaced(folder, files[1..], d, l);
      if p in own {
        var k :| 0 <= k < |own| && own[k] == p;
        FileNameInjective(d, files[0].chunks[k].digest);
      }
      if HoldsAt(folder, files[1..], d, l) {
        var j, k :| 0 <= j < |files[1..]| && 0 <= k < |files[1..][j].chunks| && files[1..][j].chunks[k].digest == d
          && l == ChunkLocation(Join(folder, files[1..][j].path), files[1..][j].chunks[k].offset, files[1..][j].chunks[k].length);
        assert files[j + 1].chunks[k].digest == d;
      }
      if HoldsAt(folder, files, d, l) {
        var j, k :| 0 <= j < |files| && 0 <= k < |files[j].chunks| && files[j].chunks[k].digest == d
          && l == ChunkLocation(Join(folder, files[j].path), files[j].chunks[k].offset, files[j].chunks[k].length);
        if j == 0 {
          assert own[k] == p;
        } else {
          assert files[1..][j - 1].chunks[k].digest == d;
        }
      }
    }
  }

  lemma {:induction false} PlacedIsNamed(placements: seq<Placement>, p: Placement)
    requires p in placements
    ensures p.location in NamedLocations(placements, p.name)
  {
    if placements[0] != p {
      PlacedIsNamed(placements[1..], p);
    }
  }

  ghost predicate ModHolds(mod: Mod, d: Digest, l: ChunkLocation) {
    HoldsAt(mod.folder, mod.manifest.files, d, l)
  }

  lemma ModNames(mod: Mod, d: Digest)
    ensures
      var own := NamedLocations(ModPlacements(mod.folder, mod.manifest.files), FileNameFor(d));
      && (own == [] ==> forall l :: !ModHolds(mod, d, l))
      && (own != [] ==> ModHolds(mod, d, own[0]))
  {
    var placements := ModPlacements(mod.folder, mod.manifest.files);
    var own := NamedLocations(placements, FileNameFor(d));
    if own == [] {
      forall l
        ensures !ModHolds(mod, d, l)
      {
        HeldIsPlaced(mod.folder, mod.manifest.files, d, l);
        if ModHolds(mod, d, l) {
          PlacedIsNamed(placements, Placement(FileNameFor(d), l));
        }
      }
    } else {
      NamedLocationsFrom(placements, FileNameFor(d));
      assert own[0] in own;
      HeldIsPlaced(mod.folder, mod.manifest.files, d, own[0]);
    }
  }

  // ---- The first holder

  /** The location belongs to the first of the mods that has the chunk; none only when no mod has it. */
  ghost predicate OldestHolder(mods: seq<Mod>, d: Digest, found: Option<ChunkLocation>) {
    match found
    case None => forall i, l :: 0 <= i < |mods| ==> !ModHolds(mods[i], d, l)
    case Some(location) =>
      exists i ::
        && 0 <= i < |mods|
        && ModHolds(mods[i], d, location)
        && forall e, l :: 0 <= e < i ==> !ModHolds(mods[e], d, l)
  }

  function First(locations: seq<ChunkLocation>): Option<ChunkLocation> {
    if locations == [] then None else Some(locations[0])
  }

  lemma LaterHolder(mods: seq<Mod>, d: Digest, found: Option<ChunkLocation>)
    requires mods != [] && OldestHolder(mods[1..], d, found)
    requires forall l :: !ModHolds(mods[0], d, l)
    ensures OldestHolder(mods, d, found)
  {
    forall i | 0 <= i < |mods|
      ensures i > 0 ==> mods[i] == mods[1..][i - 1]
    {
    }
    if found.Some? {
      var i :| 0 <= i < |mods[1..]| && ModHolds(mods[1..][i], d, found.value)
        && forall e, l :: 0 <= e < i ==> !ModHolds(mods[1..][e], d, l);
      assert ModHolds(mods[i + 1], d, found.value);
      forall e, l | 0 <= e < i + 1
        ensures !ModHolds(mods[e], d, l)
      {
        assert e > 0 ==> !ModHolds(mods[1..][e - 1], d, l);
      }
    }
  }

  lemma {:induction false} FirstNamedIsOldest(mods: seq<Mod>, d: Digest)
    ensures OldestHolder(mods, d, First(NamedLocations(AllPlacements(mods), FileNameFor(d))))
  {
    if mods != [] {
      var own := ModPlacements(mods[0].folder, mods[0].manifest.files);
      var named := NamedLocations(own, FileNameFor(d));
      ModNames(mods[0], d);
      NamedLocationsAppend(own, AllPlacements(mods[1..]), FileNameFor(d));
      if named == [] {
        FirstNamedIsOldest(mods[1..], d);
        assert named + NamedLocations(AllPlacements(mods[1..]), FileNameFor(d)) == NamedLocations(AllPlacements(mods[1..]), FileNameFor(d));
        LaterHolder(mods, d, First(NamedLocations(AllPlacements(mods[1..]), FileNameFor(d))));
      } else {
        assert ModHolds(mods[0], d, named[0]);
      }
    }
  }

  lemma {:induction false} AppendedAllKeepsFirst(base: seq<ChunkLocation>, more: seq<ChunkLocation>)
    ensures First(AppendedAll(base, more)) == if base == [] then First(more) else First(base)
    decreases more
  {
    if more != [] {
      AppendedAllKeepsFirst(Appended(base, more[0]), more[1..]);
    }
  }

  lemma PathIsNoChunkName(mods: seq<Mod>, name: string)
    requires '/' in name
    ensures name !in TableOf(mods)
  {
    forall d: Digest
      ensures name != FileNameFor(d)
    {
      ChunkNameIsPlain(d);
    }
    AllPlacementNames(mods, name);
    TableOfAt(mods, name);
  }

  lemma ChunkLookup(mods: seq<Mod>, folder: string, d: Digest)
    ensures Lookup(TableOf(mods), folder + "/" + FileNameFor(d)) == At(TableOf(mods), FileNameFor(d))
    ensures Lookup(TableOf(mods), folder + "\\" + FileNameFor(d)) == At(TableOf(mods), FileNameFor(d))
  {
    ChunkNameIsPlain(d);
    SlashesOutside(folder, FileNameFor(d));
    var normalised := WithSlashes(folder) + "/" + FileNameFor(d);
    assert normalised[|folder|] == '/';
    PathIsNoChunkName(mods, normalised);
    LeafAfterFolder(WithSlashes(folder), FileNameFor(d));
  }

  /**
   * After any run of seeding and stopping mods in folders that do not nest, a torrent that asks for a chunk under
   * whatever folder name is pointed at the oldest mod still seeded that holds it, and is refused when none does.
   */
  lemma FoundAtOldestHolder(steps: seq<SeedStep>, folder: string, d: Digest)
    requires ValidRun([], steps)
    ensures
      var table := TableAfter(map[], steps);
      && OldestHolder(ModsAfter([], steps), d, Found(table, folder + "/" + FileNameFor(d)))
      && Found(table, folder + "\\" + FileNameFor(d)) == Found(table, folder + "/" + FileNameFor(d))
  {
    var mods := ModsAfter([], steps);
    SeedingTableIsWhatRemains([], steps);
    ChunkLookup(mods, folder, d);
    TableOfAt(mods, FileNameFor(d));
    AppendedAllKeepsFirst([], NamedLocations(AllPlacements(mods), FileNameFor(d)));
    FirstNamedIsOldest(mods, d);
  }
}
