/** Where chunk files live on disk: the seeding table and the fetch destinations. */
module ChunkLocator {
  import opened Sequences
  import opened Wrappers
  import opened Bytes
  import opened FileStore
  import opened Content

  datatype ChunkLocation = ChunkLocation(file: Path, offset: nat, length: nat)

  type Table = map<string, seq<ChunkLocation>>

  const LENGTH_LIMIT: nat := 0xFFFF_FFFF
  const SUFFIX: string := ".chunk"
  const MANIFEST_FILE: string := "manifest.wgrdm"

  function FileNameFor(digest: Digest): string {
    ToHex(digest) + SUFFIX
  }

  lemma FileNameInjective(a: Digest, b: Digest)
    requires FileNameFor(a) == FileNameFor(b)
    ensures a == b
  {
    assert ToHex(a) == FileNameFor(a)[..64] && ToHex(b) == FileNameFor(b)[..64];
    HexInjective(a, b);
  }

  function TorrentName(manifest: ModManifest): string {
    ToHex(manifest.publisher) + "_" + manifest.modName
  }

  function ManifestKey(manifest: ModManifest): string {
    TorrentName(manifest) + "/" + MANIFEST_FILE
  }

  // ---- Table operations

  function At(table: Table, name: string): seq<ChunkLocation> {
    if name in table then table[name] else []
  }

  function Appended(placements: seq<ChunkLocation>, location: ChunkLocation): seq<ChunkLocation> {
    if location in placements then placements else placements + [location]
  }

  function Insert(table: Table, name: string, location: ChunkLocation): Table {
    table[name := Appended(At(table, name), location)]
  }

  function WithSlashes(name: string): string {
    seq(|name|, i requires 0 <= i < |name| => if name[i] == '\\' then '/' else name[i])
  }

  function LeafOf(name: string): string {
    if name == "" then ""
    else if name[|name| - 1] == '/' then ""
    else LeafOf(name[..|name| - 1]) + [name[|name| - 1]]
  }

  /** Looked up by full relative name first, then by its last component. */
  function Lookup(table: Table, name: string): seq<ChunkLocation> {
    var normalised := WithSlashes(name);
    if normalised in table then table[normalised] else At(table, LeafOf(normalised))
  }

  /** What a lookup reports: the first of the placements. */
  function Found(table: Table, name: string): Option<ChunkLocation> {
    var placements := Lookup(table, name);
    if placements == [] then None else Some(placements[0])
  }

  function WithoutFolder(placements: seq<ChunkLocation>, folder: Path): (r: seq<ChunkLocation>)
    ensures forall l :: l in r <==> l in placements && !Under(l.file, folder)
  {
    if placements == [] then []
    else (if Under(placements[0].file, folder) then [] else [placements[0]]) + WithoutFolder(placements[1..], folder)
  }

  /** Forgets one chunk name's placements under a folder; an emptied entry disappears. */
  function ForgetName(table: Table, name: string, folder: Path): Table {
    if name !in table then table
    else
      var kept := WithoutFolder(table[name], folder);
      if kept == [] then table - {name} else table[name := kept]
  }

  // ---- Fetch destinations

  datatype ChunkDestination = ChunkDestination(chunkFileName: string, file: Path, offset: nat, length: nat)

  function LocationOf(d: ChunkDestination): ChunkLocation {
    ChunkLocation(d.file, d.offset, d.length)
  }

  function FetchTable(table: Table, destinations: seq<ChunkDestination>): Table
    decreases destinations
  {
    if destinations == [] then table
    else FetchTable(Insert(table, destinations[0].chunkFileName, LocationOf(destinations[0])), destinations[1..])
  }

  // ---- Flattened manifests

  datatype Placement = Placement(name: string, location: ChunkLocation)

  function FilePlacements(file: Path, chunks: seq<ManifestChunk>): (r: seq<Placement>)
    ensures |r| == |chunks|
    ensures forall k :: 0 <= k < |r| ==>
      r[k] == Placement(FileNameFor(chunks[k].digest), ChunkLocation(file, chunks[k].offset, chunks[k].length))
  {
    if chunks == [] then []
    else
      [Placement(FileNameFor(chunks[0].digest), ChunkLocation(file, chunks[0].offset, chunks[0].length))]
      + FilePlacements(file, chunks[1..])
  }

  function ModPlacements(folder: Path, files: seq<ManifestFile>): seq<Placement> {
    if files == [] then []
    else FilePlacements(Join(folder, files[0].path), files[0].chunks) + ModPlacements(folder, files[1..])
  }

  function InsertAll(table: Table, placements: seq<Placement>): Table
    decreases placements
  {
    if placements == [] then table
    else InsertAll(Insert(table, placements[0].name, placements[0].location), placements[1..])
  }

  function ForgetAll(table: Table, placements: seq<Placement>, folder: Path): Table
    decreases placements
  {
    if placements == [] then table
    else ForgetAll(ForgetName(table, placements[0].name, folder), placements[1..], folder)
  }

  function Registered(table: Table, manifest: ModManifest, folder: Path): Table {
    InsertAll(table, ModPlacements(folder, manifest.files))
  }

  function Forgotten(table: Table, manifest: ModManifest, folder: Path): Table {
    ForgetAll(table - {ManifestKey(manifest)}, ModPlacements(folder, manifest.files), folder)
  }

  lemma {:induction false} InsertAllAppend(table: Table, a: seq<Placement>, b: seq<Placement>)
    ensures InsertAll(table, a + b) == InsertAll(InsertAll(table, a), b)
    decreases a
  {
    if a == [] {
      assert a + b == b;
    } else {
      assert (a + b)[1..] == a[1..] + b;
      InsertAllAppend(Insert(table, a[0].name, a[0].location), a[1..], b);
    }
  }

  lemma {:induction false} ForgetAllAppend(table: Table, a: seq<Placement>, b: seq<Placement>, folder: Path)
    ensures ForgetAll(table, a + b, folder) == ForgetAll(ForgetAll(table, a, folder), b, folder)
    decreases a
  {
    if a == [] {
      assert a + b == b;
    } else {
      assert (a + b)[1..] == a[1..] + b;
      ForgetAllAppend(ForgetName(table, a[0].name, folder), a[1..], b, folder);
    }
  }

  /** Chunk lengths fit the 32 bits the manifest stores them in. */
  ghost predicate LengthsFit(files: seq<ManifestFile>) {
    forall i, k :: 0 <= i < |files| && 0 <= k < |files[i].chunks| ==> files[i].chunks[k].length <= 0xFFFF_FFFF
  }

  class Locator {
    var locations: Table
    var destinations: Table

    constructor ()
      ensures locations == map[] && destinations == map[]
    {
      locations := map[];
      destinations := map[];
    }

    method RegisterFile(name: string, file: Path, offset: nat, length: nat) returns (ok: bool)
      modifies this`locations
      ensures ok == (length <= 0xFFFF_FFFF)
      ensures locations
           == if ok then Insert(old(locations), name, ChunkLocation(file, offset, length)) else old(locations)
    {
      if length > LENGTH_LIMIT {
        return false;
      }
      var location := ChunkLocation(file, offset, length);
      var placements := At(locations, name);
      if location !in placements {
        placements := placements + [location];
      }
      locations := locations[name := placements];
      return true;
    }

    method Register(manifest: ModManifest, folder: Path)
      requires LengthsFit(manifest.files)
      modifies this`locations
      ensures locations == Registered(old(locations), manifest, folder)
    {
      ghost var all := ModPlacements(folder, manifest.files);
      for i := 0 to |manifest.files|
        invariant InsertAll(old(locations), all) == InsertAll(locations, ModPlacements(folder, manifest.files[i..]))
      {
        var file := manifest.files[i];
        ghost var start := locations;
        ghost var rest := ModPlacements(folder, manifest.files[i + 1..]);
        assert manifest.files[i..][1..] == manifest.files[i + 1..];
        InsertAllAppend(start, FilePlacements(Join(folder, file.path), file.chunks), rest);
        for k := 0 to |file.chunks|
          invariant InsertAll(start, FilePlacements(Join(folder, file.path), file.chunks))
                 == InsertAll(locations, FilePlacements(Join(folder, file.path), file.chunks[k..]))
        {
          var chunk := file.chunks[k];
          assert file.chunks[k..][1..] == file.chunks[k + 1..];
          var ok := RegisterFile(FileNameFor(chunk.digest), Join(folder, file.path), chunk.offset, chunk.length);
          assert ok;
        }
      }
    }

    method Forget(manifest: ModManifest, folder: Path)
      modifies this`locations
      ensures locations == Forgotten(old(locations), manifest, folder)
    {
      locations := locations - {ManifestKey(manifest)};
      ghost var base := locations;
      ghost var all := ModPlacements(folder, manifest.files);
      for i := 0 to |manifest.files|
        invariant ForgetAll(base, all, folder) == ForgetAll(locations, ModPlacements(folder, manifest.files[i..]), folder)
      {
        var file := manifest.files[i];
        ghost var start := locations;
        ghost var rest := ModPlacements(folder, manifest.files[i + 1..]);
        assert manifest.files[i..][1..] == manifest.files[i + 1..];
        ForgetAllAppend(start, FilePlacements(Join(folder, file.path), file.chunks), rest, folder);
        for k := 0 to |file.chunks|
          invariant ForgetAll(start, FilePlacements(Join(folder, file.path), file.chunks), folder)
                 == ForgetAll(locations, FilePlacements(Join(folder, file.path), file.chunks[k..]), folder)
        {
          assert file.chunks[k..][1..] == file.chunks[k + 1..];
          var name := FileNameFor(file.chunks[k].digest);
          if name !in locations {
            continue;
          }
          var kept := WithoutFolder(locations[name], folder);
          if kept == [] {
            locations := locations - {name};
          } else {
            locations := locations[name := kept];
          }
        }
      }
    }

    method Find(name: string) returns (r: Option<ChunkLocation>)
      ensures r == Found(locations, name)
    {
      var placements := Lookup(locations, name);
      if placements == [] {
        return None;
      }
      return Some(placements[0]);
    }

    method RegisterDestination(name: string, file: Path, offset: nat, length: nat) returns (ok: bool)
      modifies this`destinations
      ensures ok == (length <= 0xFFFF_FFFF)
      ensures destinations
           == if ok then Insert(old(destinations), name, ChunkLocation(file, offset, length)) else old(destinations)
    {
      if length > LENGTH_LIMIT {
        return false;
      }
      destinations := Insert(destinations, name, ChunkLocation(file, offset, length));
      return true;
    }

    method ClearDestinations()
      modifies this`destinations
      ensures destinations == map[]
    {
      destinations := map[];
    }
  }

  // ---- Seeding runs

  datatype Mod = Mod(manifest: ModManifest, folder: Path)

  datatype SeedStep = Seed(mod: Mod) | Stop(mod: Mod)

  function TableAfter(table: Table, steps: seq<SeedStep>): Table
    decreases steps
  {
    if steps == [] then table
    else
      match steps[0]
      case Seed(m) => TableAfter(Registered(table, m.manifest, m.folder), steps[1..])
      case Stop(m) => TableAfter(Forgotten(table, m.manifest, m.folder), steps[1..])
  }

  function Without(mods: seq<Mod>, mod: Mod): (r: seq<Mod>)
    ensures forall m :: m in r <==> m in mods && m != mod
  {
    if mods == [] then []
    else (if mods[0] == mod then [] else [mods[0]]) + Without(mods[1..], mod)
  }

  /** The mods still registered after a run, in the order they were registered. */
  function ModsAfter(mods: seq<Mod>, steps: seq<SeedStep>): seq<Mod>
    decreases steps
  {
    if steps == [] then mods
    else
      match steps[0]
      case Seed(m) => ModsAfter(mods + [m], steps[1..])
      case Stop(m) => ModsAfter(Without(mods, m), steps[1..])
  }

  /** Registering a list of mods into an empty table. */
  function TableOf(mods: seq<Mod>): Table {
    InsertAll(map[], AllPlacements(mods))
  }

  function AllPlacements(mods: seq<Mod>): seq<Placement> {
    if mods == [] then []
    else ModPlacements(mods[0].folder, mods[0].manifest.files) + AllPlacements(mods[1..])
  }

  predicate Nested(a: Path, b: Path) {
    Under(a, b) || Under(b, a)
  }

  ghost predicate FoldersApart(mods: seq<Mod>) {
    forall i, j :: 0 <= i < |mods| && 0 <= j < |mods| && mods[i] != mods[j] ==> !Nested(mods[i].folder, mods[j].folder)
  }

  /** Each mod is seeded into a folder of its own and stopped only while seeded. */
  ghost predicate ValidRun(mods: seq<Mod>, steps: seq<SeedStep>)
    decreases steps
  {
    steps == []
    || match steps[0]
       case Seed(m) =>
         && m !in mods
         && (forall i :: 0 <= i < |mods| ==> !Nested(mods[i].folder, m.folder))
         && ValidRun(mods + [m], steps[1..])
       case Stop(m) => m in mods && ValidRun(Without(mods, m), steps[1..])
  }

  // A table seen at one name

  function NamedLocations(placements: seq<Placement>, name: string): seq<ChunkLocation> {
    if placements == [] then []
    else (if placements[0].name == name then [placements[0].location] else []) + NamedLocations(placements[1..], name)
  }

  function AppendedAll(base: seq<ChunkLocation>, more: seq<ChunkLocation>): seq<ChunkLocation>
    decreases more
  {
    if more == [] then base else AppendedAll(Appended(base, more[0]), more[1..])
  }

  ghost predicate NoEmptyEntry(table: Table) {
    forall name :: name in table ==> table[name] != []
  }

  lemma {:induction false} InsertAllAt(table: Table, placements: seq<Placement>, name: string)
    ensures At(InsertAll(table, placements), name) == AppendedAll(At(table, name), NamedLocations(placements, name))
    decreases placements
  {
    if placements != [] {
      var next := Insert(table, placements[0].name, placements[0].location);
      InsertAllAt(next, placements[1..], name);
      if placements[0].name == name {
        assert NamedLocations(placements, name)[1..] == NamedLocations(placements[1..], name);
      } else {
        assert NamedLocations(placements, name) == NamedLocations(placements[1..], name);
      }
    }
  }

  lemma {:induction false} InsertAllNonEmpty(table: Table, placements: seq<Placement>)
    requires NoEmptyEntry(table)
    ensures NoEmptyEntry(InsertAll(table, placements))
    decreases placements
  {
    if placements != [] {
      InsertAllNonEmpty(Insert(table, placements[0].name, placements[0].location), placements[1..]);
    }
  }

  lemma {:induction false} WithoutFolderAppend(a: seq<ChunkLocation>, b: seq<ChunkLocation>, folder: Path)
    ensures WithoutFolder(a + b, folder) == WithoutFolder(a, folder) + WithoutFolder(b, folder)
  {
    if a == [] {
      assert a + b == b;
    } else {
      assert (a + b)[1..] == a[1..] + b;
      WithoutFolderAppend(a[1..], b, folder);
    }
  }

  lemma WithoutFolderAppendedOne(base: seq<ChunkLocation>, location: ChunkLocation, folder: Path)
    ensures WithoutFolder(Appended(base, location), folder)
         == if Under(location.file, folder) then WithoutFolder(base, folder) else Appended(WithoutFolder(base, folder), location)
  {
    WithoutFolderAppend(base, [location], folder);
  }

  /** Dropping a folder commutes with duplicate-free appending. */
  lemma {:induction false} WithoutFolderAppended(base: seq<ChunkLocation>, more: seq<ChunkLocation>, folder: Path)
    ensures WithoutFolder(AppendedAll(base, more), folder)
         == AppendedAll(WithoutFolder(base, folder), WithoutFolder(more, folder))
    decreases more
  {
    if more != [] {
      WithoutFolderAppendedOne(base, more[0], folder);
      WithoutFolderAppended(Appended(base, more[0]), more[1..], folder);
      var rest := WithoutFolder(more[1..], folder);
      if Under(more[0].file, folder) {
        assert WithoutFolder(more, folder) == rest;
      } else {
        assert WithoutFolder(more, folder)[1..] == rest;
      }
    }
  }

  lemma {:induction false} WithoutFolderTwice(placements: seq<ChunkLocation>, folder: Path)
    ensures WithoutFolder(WithoutFolder(placements, folder), folder) == WithoutFolder(placements, folder)
  {
    if placements != [] {
      WithoutFolderTwice(placements[1..], folder);
      var rest := WithoutFolder(placements[1..], folder);
      if !Under(placements[0].file, folder) {
        assert ([placements[0]] + rest)[1..] == rest;
      } else {
        assert WithoutFolder(placements, folder) == rest;
      }
    }
  }

  /** Forgetting a mod's chunk names filters those entries and leaves the others. */
  lemma {:induction false} ForgetAllAt(table: Table, placements: seq<Placement>, folder: Path, name: string)
    requires NoEmptyEntry(table)
    ensures
      var r := ForgetAll(table, placements, folder);
      && NoEmptyEntry(r)
      && At(r, name) == if exists k :: 0 <= k < |placements| && placements[k].name == name
                        then WithoutFolder(At(table, name), folder) else At(table, name)
    decreases placements
  {
    if placements != [] {
      var next := ForgetName(table, placements[0].name, folder);
      ForgetAllAt(next, placements[1..], folder, name);
      WithoutFolderTwice(At(table, name), folder);
      if k :| 0 <= k < |placements[1..]| && placements[1..][k].name == name {
        assert placements[k + 1].name == name;
      } else {
        assert forall k :: 0 <= k < |placements| && placements[k].name == name ==> k == 0 || placements[1..][k - 1].name == name;
      }
    }
  }

  // One mod among others

  lemma {:induction false} NamedLocationsAppend(a: seq<Placement>, b: seq<Placement>, name: string)
    ensures NamedLocations(a + b, name) == NamedLocations(a, name) + NamedLocations(b, name)
  {
    if a == [] {
      assert a + b == b;
    } else {
      var all := a + b;
      assert all != [] && all[0] == a[0] && all[1..] == a[1..] + b;
      NamedLocationsAppend(a[1..], b, name);
      Regroup(if a[0].name == name then [a[0].location] else [], NamedLocations(a[1..], name), NamedLocations(b, name));
    }
  }

  lemma {:induction false} ModPlacementsUnder(folder: Path, files: seq<ManifestFile>)
    ensures forall p :: p in ModPlacements(folder, files) ==> Under(p.location.file, folder)
  {
    if files != [] {
      ModPlacementsUnder(folder, files[1..]);
      assert folder + "/" <= Join(folder, files[0].path);
    }
  }

  lemma {:induction false} NamedLocationsFrom(placements: seq<Placement>, name: string)
    ensures forall l :: l in NamedLocations(placements, name) ==> Placement(name, l) in placements
  {
    if placements != [] {
      NamedLocationsFrom(placements[1..], name);
    }
  }

  lemma {:induction false} NoSuchName(placements: seq<Placement>, name: string)
    requires forall p :: p in placements ==> p.name != name
    ensures NamedLocations(placements, name) == []
  {
    if placements != [] {
      assert placements[0] in placements;
      NoSuchName(placements[1..], name);
    }
  }

  lemma {:induction false} WithoutFolderAllOrNone(placements: seq<ChunkLocation>, folder: Path)
    ensures (forall l :: l in placements ==> Under(l.file, folder)) ==> WithoutFolder(placements, folder) == []
    ensures (forall l :: l in placements ==> !Under(l.file, folder)) ==> WithoutFolder(placements, folder) == placements
  {
    if placements != [] {
      WithoutFolderAllOrNone(placements[1..], folder);
    }
  }

  /** Folders above a common file are nested. */
  lemma UnderBoth(file: Path, a: Path, b: Path)
    requires Under(file, a) && Under(file, b)
    ensures Nested(a, b)
  {
    if |a| == |b| {
      assert file[..|a|] == a && file[..|b|] == b;
    } else if |a| < |b| {
      assert file[..|b|] == b && a + "/" <= file;
      assert file[..|a| + 1] == a + "/";
      assert b[..|a| + 1] == a + "/";
    } else {
      assert file[..|a|] == a && b + "/" <= file;
      assert file[..|b| + 1] == b + "/";
      assert a[..|b| + 1] == b + "/";
    }
  }

  lemma ModLocationsFiltered(mod: Mod, folder: Path, name: string)
    ensures
      var own := NamedLocations(ModPlacements(mod.folder, mod.manifest.files), name);
      && (mod.folder == folder ==> WithoutFolder(own, folder) == [])
      && (!Nested(mod.folder, folder) ==> WithoutFolder(own, folder) == own)
  {
    var placements := ModPlacements(mod.folder, mod.manifest.files);
    var own := NamedLocations(placements, name);
    ModPlacementsUnder(mod.folder, mod.manifest.files);
    NamedLocationsFrom(placements, name);
    if !Nested(mod.folder, folder) {
      forall l | l in own
        ensures !Under(l.file, folder)
      {
        assert Under(Placement(name, l).location.file, mod.folder);
        if Under(l.file, folder) {
          UnderBoth(l.file, mod.folder, folder);
        }
      }
    } else if mod.folder == folder {
      forall l | l in own
        ensures Under(l.file, folder)
      {
        assert Under(Placement(name, l).location.file, mod.folder);
      }
    }
    WithoutFolderAllOrNone(own, folder);
  }

  lemma {:induction false} LocationsWithout(mods: seq<Mod>, mod: Mod, name: string)
    requires forall i :: 0 <= i < |mods| ==> mods[i] == mod || !Nested(mods[i].folder, mod.folder)
    ensures WithoutFolder(NamedLocations(AllPlacements(mods), name), mod.folder)
         == NamedLocations(AllPlacements(Without(mods, mod)), name)
  {
    if mods != [] {
      var own := ModPlacements(mods[0].folder, mods[0].manifest.files);
      LocationsWithout(mods[1..], mod, name);
      ModLocationsFiltered(mods[0], mod.folder, name);
      NamedLocationsAppend(own, AllPlacements(mods[1..]), name);
      WithoutFolderAppend(NamedLocations(own, name), NamedLocations(AllPlacements(mods[1..]), name), mod.folder);
      if mods[0] == mod {
        assert Without(mods, mod) == Without(mods[1..], mod);
      } else {
        assert Without(mods, mod)[1..] == Without(mods[1..], mod);
        NamedLocationsAppend(own, AllPlacements(Without(mods[1..], mod)), name);
      }
    }
  }

  lemma TablesEqual(a: Table, b: Table)
    requires NoEmptyEntry(a) && NoEmptyEntry(b)
    requires forall name :: At(a, name) == At(b, name)
    ensures a == b
  {
    forall name
      ensures name in a <==> name in b
      ensures name in a ==> a[name] == b[name]
    {
      assert At(a, name) == At(b, name);
    }
  }

  lemma {:induction false} HexHasNoSlash(bytes: seq<byte>)
    ensures '/' !in ToHex(bytes)
  {
    if bytes != [] {
      HexHasNoSlash(bytes[1..]);
    }
  }

  lemma ChunkNameIsNotManifestKey(digest: Digest, manifest: ModManifest)
    ensures FileNameFor(digest) != ManifestKey(manifest)
  {
    HexHasNoSlash(digest);
    assert '/' !in FileNameFor(digest);
    assert ManifestKey(manifest)[|TorrentName(manifest)|] == '/';
  }

  lemma {:induction false} PlacementNames(folder: Path, files: seq<ManifestFile>)
    ensures forall p :: p in ModPlacements(folder, files) ==> exists d: Digest :: p.name == FileNameFor(d)
  {
    if files != [] {
      PlacementNames(folder, files[1..]);
      var own := FilePlacements(Join(folder, files[0].path), files[0].chunks);
      forall p | p in own
        ensures exists d: Digest :: p.name == FileNameFor(d)
      {
        var k :| 0 <= k < |own| && own[k] == p;
        assert p.name == FileNameFor(files[0].chunks[k].digest);
      }
    }
  }

  lemma {:induction false} AllPlacementNames(mods: seq<Mod>, name: string)
    requires forall d: Digest :: name != FileNameFor(d)
    ensures NamedLocations(AllPlacements(mods), name) == []
  {
    if mods != [] {
      var own := ModPlacements(mods[0].folder, mods[0].manifest.files);
      PlacementNames(mods[0].folder, mods[0].manifest.files);
      NoSuchName(own, name);
      AllPlacementNames(mods[1..], name);
      NamedLocationsAppend(own, AllPlacements(mods[1..]), name);
    }
  }

  lemma TableOfAt(mods: seq<Mod>, name: string)
    ensures NoEmptyEntry(TableOf(mods))
    ensures At(TableOf(mods), name) == AppendedAll([], NamedLocations(AllPlacements(mods), name))
  {
    InsertAllAt(map[], AllPlacements(mods), name);
    InsertAllNonEmpty(map[], AllPlacements(mods));
  }

  /** The sealed manifest's own key is never a chunk entry, so erasing it leaves the chunk table alone. */
  lemma ManifestKeyAbsent(mods: seq<Mod>, manifest: ModManifest)
    ensures ManifestKey(manifest) !in TableOf(mods)
  {
    forall d: Digest
      ensures ManifestKey(manifest) != FileNameFor(d)
    {
      ChunkNameIsNotManifestKey(d, manifest);
    }
    AllPlacementNames(mods, ManifestKey(manifest));
    TableOfAt(mods, ManifestKey(manifest));
  }

  /** A name the forgotten mod does not use has no placement under its folder. */
  lemma ForgetUnusedName(mods: seq<Mod>, mod: Mod, name: string)
    requires forall i :: 0 <= i < |mods| ==> mods[i] == mod || !Nested(mods[i].folder, mod.folder)
    requires forall p :: p in ModPlacements(mod.folder, mod.manifest.files) ==> p.name != name
    ensures NamedLocations(AllPlacements(Without(mods, mod)), name) == NamedLocations(AllPlacements(mods), name)
  {
    if mods != [] {
      var own := ModPlacements(mods[0].folder, mods[0].manifest.files);
      ForgetUnusedName(mods[1..], mod, name);
      NamedLocationsAppend(own, AllPlacements(mods[1..]), name);
      if mods[0] == mod {
        NoSuchName(own, name);
        assert Without(mods, mod) == Without(mods[1..], mod);
      } else {
        assert Without(mods, mod)[1..] == Without(mods[1..], mod);
        NamedLocationsAppend(own, AllPlacements(Without(mods[1..], mod)), name);
      }
    }
  }

  /** Forgetting a mod gives the table the other mods alone would have built. */
  lemma ForgetIsWithout(mods: seq<Mod>, mod: Mod)
    requires forall i :: 0 <= i < |mods| ==> mods[i] == mod || !Nested(mods[i].folder, mod.folder)
    ensures Forgotten(TableOf(mods), mod.manifest, mod.folder) == TableOf(Without(mods, mod))
  {
    var table := TableOf(mods);
    var own := ModPlacements(mod.folder, mod.manifest.files);
    var rest := Without(mods, mod);
    ManifestKeyAbsent(mods, mod.manifest);
    assert table - {ManifestKey(mod.manifest)} == table;
    TableOfAt(mods, "");
    TableOfAt(rest, "");
    ForgetAllAt(table, own, mod.folder, "");
    var r := ForgetAll(table, own, mod.folder);
    forall name
      ensures At(r, name) == At(TableOf(rest), name)
    {
      TableOfAt(mods, name);
      TableOfAt(rest, name);
      ForgetAllAt(table, own, mod.folder, name);
      if exists k :: 0 <= k < |own| && own[k].name == name {
        WithoutFolderAppended([], NamedLocations(AllPlacements(mods), name), mod.folder);
        LocationsWithout(mods, mod, name);
      } else {
        ForgetUnusedName(mods, mod, name);
      }
    }
    TablesEqual(r, TableOf(rest));
  }

  lemma {:induction false} AllPlacementsAppend(mods: seq<Mod>, mod: Mod)
    ensures AllPlacements(mods + [mod]) == AllPlacements(mods) + ModPlacements(mod.folder, mod.manifest.files)
  {
    if mods == [] {
      assert [mod][1..] == [];
    } else {
      assert (mods + [mod])[1..] == mods[1..] + [mod];
      AllPlacementsAppend(mods[1..], mod);
    }
  }

  lemma RegisterIsAppend(mods: seq<Mod>, mod: Mod)
    ensures Registered(TableOf(mods), mod.manifest, mod.folder) == TableOf(mods + [mod])
  {
    AllPlacementsAppend(mods, mod);
    InsertAllAppend(map[], AllPlacements(mods), ModPlacements(mod.folder, mod.manifest.files));
  }

  lemma FewerFoldersApart(mods: seq<Mod>, mod: Mod)
    requires FoldersApart(mods)
    ensures FoldersApart(Without(mods, mod))
  {
    var rest := Without(mods, mod);
    forall i, j | 0 <= i < |rest| && 0 <= j < |rest| && rest[i] != rest[j]
      ensures !Nested(rest[i].folder, rest[j].folder)
    {
      assert rest[i] in rest && rest[j] in rest;
    }
  }

  /**
   * After any run of seeding and stopping mods in folders that do not nest, the table is the one the
   * mods still seeded would build on their own: same placements, same order, no empty entry.
   */
  lemma {:induction false} SeedingTableIsWhatRemains(mods: seq<Mod>, steps: seq<SeedStep>)
    requires FoldersApart(mods) && ValidRun(mods, steps)
    ensures TableAfter(TableOf(mods), steps) == TableOf(ModsAfter(mods, steps))
    ensures NoEmptyEntry(TableAfter(TableOf(mods), steps))
    decreases steps
  {
    if steps == [] {
      TableOfAt(mods, "");
    } else {
      match steps[0]
      case Seed(m) =>
        RegisterIsAppend(mods, m);
        SeedingTableIsWhatRemains(mods + [m], steps[1..]);
      case Stop(m) =>
        var at :| 0 <= at < |mods| && mods[at] == m;
        ForgetIsWithout(mods, m);
        FewerFoldersApart(mods, m);
        SeedingTableIsWhatRemains(Without(mods, m), steps[1..]);
    }
  }
}
