/** The index of chunks found in the game's own files: three maps that together say what one list says. */
module BaselineCatalogue {
  import opened Wrappers
  import opened Bytes
  import opened FileStore
  import opened Content

  datatype FileStamp = FileStamp(size: nat, modified: int)

  datatype BaselineFileRecord = BaselineFileRecord(relativePath: string, stamp: FileStamp, chunks: seq<ManifestChunk>)

  datatype BaselineFileEntry = BaselineFileEntry(relativePath: string, file: Path, stamp: FileStamp)

  type Adopted = seq<BaselineFileRecord>

  // ---- The simple thing: records still adopted, oldest first

  function Without(list: Adopted, path: string): (r: Adopted)
    ensures forall rec :: rec in r <==> rec in list && rec.relativePath != path
  {
    if list == [] then []
    else if list[0].relativePath == path then Without(list[1..], path)
    else [list[0]] + Without(list[1..], path)
  }

  predicate Current(root: Path, stamps: Path -> Option<FileStamp>, r: BaselineFileRecord) {
    stamps(Join(root, r.relativePath)) == Some(r.stamp)
  }

  function Unchanged(root: Path, list: Adopted, stamps: Path -> Option<FileStamp>): (r: Adopted)
    ensures forall rec :: rec in r <==> rec in list && Current(root, stamps, rec)
  {
    if list == [] then []
    else (if Current(root, stamps, list[0]) then [list[0]] else []) + Unchanged(root, list[1..], stamps)
  }

  /** First chunk of a record with the digest, given as it is spelled in hexadecimal. */
  function FirstChunk(chunks: seq<ManifestChunk>, hex: string): Option<ManifestChunk> {
    if chunks == [] then None
    else if ToHex(chunks[0].digest) == hex then Some(chunks[0])
    else FirstChunk(chunks[1..], hex)
  }

  function Found(root: Path, r: BaselineFileRecord, hex: string): (locations: seq<HeldLocation>)
    ensures |locations| == if FirstChunk(r.chunks, hex).Some? then 1 else 0
    ensures forall l :: l in locations ==> l.file == Join(root, r.relativePath)
  {
    match FirstChunk(r.chunks, hex)
    case None => []
    case Some(c) => [HeldLocation(Join(root, r.relativePath), c.offset, c.length)]
  }

  /** Every adopted place of a digest, oldest record first. */
  function LocationsOf(root: Path, list: Adopted, hex: string): seq<HeldLocation> {
    if list == [] then [] else Found(root, list[0], hex) + LocationsOf(root, list[1..], hex)
  }

  predicate DistinctPaths(list: Adopted) {
    forall i, j :: 0 <= i < j < |list| ==> list[i].relativePath != list[j].relativePath
  }

  // ---- The three maps

  datatype Index = Index(
    locations: map<string, seq<HeldLocation>>,
    digestsByFile: map<string, seq<string>>,
    filesByPath: map<string, BaselineFileEntry>)

  /** The location table is the list's, and no entry is empty. */
  ghost predicate LocationsAgree(root: Path, locations: map<string, seq<HeldLocation>>, list: Adopted) {
    && (forall hex :: hex in locations <==> LocationsOf(root, list, hex) != [])
    && (forall hex :: hex in locations ==> locations[hex] == LocationsOf(root, list, hex))
  }

  ghost predicate OwnedAgrees(digestsByFile: map<string, seq<string>>, r: BaselineFileRecord) {
    && r.relativePath in digestsByFile
    && forall hex :: hex in digestsByFile[r.relativePath] <==> FirstChunk(r.chunks, hex).Some?
  }

  ghost predicate FilesAgree(root: Path, index: Index, list: Adopted) {
    && (forall path :: path in index.filesByPath <==> exists r :: r in list && r.relativePath == path)
    && (forall path :: path in index.digestsByFile ==> path in index.filesByPath)
    && (forall r :: r in list ==> index.filesByPath[r.relativePath] == BaselineFileEntry(r.relativePath, Join(root, r.relativePath), r.stamp))
    && (forall r :: r in list ==> OwnedAgrees(index.digestsByFile, r))
  }

  ghost predicate Represents(root: Path, index: Index, list: Adopted) {
    DistinctPaths(list) && LocationsAgree(root, index.locations, list) && FilesAgree(root, index, list)
  }

  function Erased(locations: seq<HeldLocation>, file: Path): seq<HeldLocation> {
    if locations == [] then []
    else (if locations[0].file == file then [] else [locations[0]]) + Erased(locations[1..], file)
  }

  lemma {:induction false} ErasedConcat(a: seq<HeldLocation>, b: seq<HeldLocation>, file: Path)
    ensures Erased(a + b, file) == Erased(a, file) + Erased(b, file)
  {
    if a == [] {
      assert a + b == b;
    } else {
      assert (a + b)[1..] == a[1..] + b;
      ErasedConcat(a[1..], b, file);
    }
  }

  /** Erasing one file's places is forgetting its record. */
  lemma {:induction false} ErasedIsWithout(root: Path, list: Adopted, path: string, hex: string)
    ensures Erased(LocationsOf(root, list, hex), Join(root, path)) == LocationsOf(root, Without(list, path), hex)
  {
    if list != [] {
      var found := Found(root, list[0], hex);
      ErasedConcat(found, LocationsOf(root, list[1..], hex), Join(root, path));
      ErasedIsWithout(root, list[1..], path, hex);
      if list[0].relativePath == path {
        assert Erased(found, Join(root, path)) == [];
      } else {
        if Join(root, list[0].relativePath) == Join(root, path) {
          JoinInjective(root, list[0].relativePath, path);
        }
        assert Erased(found, Join(root, path)) == found;
      }
    }
  }

  lemma {:induction false} LocationsFromRecords(root: Path, list: Adopted, hex: string, l: HeldLocation)
    requires l in LocationsOf(root, list, hex)
    ensures exists r :: r in list && l.file == Join(root, r.relativePath) && FirstChunk(r.chunks, hex).Some?
  {
    if l in Found(root, list[0], hex) {
      assert list[0] in list;
    } else {
      LocationsFromRecords(root, list[1..], hex, l);
      var r :| r in list[1..] && l.file == Join(root, r.relativePath) && FirstChunk(r.chunks, hex).Some?;
      assert r in list;
    }
  }

  lemma {:induction false} RecordsHaveLocations(root: Path, list: Adopted, hex: string, r: BaselineFileRecord)
    requires r in list && FirstChunk(r.chunks, hex).Some?
    ensures exists l :: l in LocationsOf(root, list, hex) && l.file == Join(root, r.relativePath)
  {
    if r == list[0] {
      var l := Found(root, r, hex)[0];
      assert l in LocationsOf(root, list, hex) && l.file == Join(root, r.relativePath);
    } else {
      RecordsHaveLocations(root, list[1..], hex, r);
      var l :| l in LocationsOf(root, list[1..], hex) && l.file == Join(root, r.relativePath);
      assert l in LocationsOf(root, list, hex);
    }
  }

  /** A record without the digest contributes no place for it. */
  lemma {:induction false} WithoutKeeps(root: Path, list: Adopted, path: string, hex: string)
    requires forall r :: r in list && r.relativePath == path ==> FirstChunk(r.chunks, hex).None?
    ensures LocationsOf(root, Without(list, path), hex) == LocationsOf(root, list, hex)
  {
    if list != [] {
      assert list[0] in list;
      WithoutKeeps(root, list[1..], path, hex);
    }
  }

  lemma {:induction false} LocationsConcat(root: Path, a: Adopted, b: Adopted, hex: string)
    ensures LocationsOf(root, a + b, hex) == LocationsOf(root, a, hex) + LocationsOf(root, b, hex)
  {
    if a == [] {
      assert a + b == b;
    } else {
      assert (a + b)[1..] == a[1..] + b;
      LocationsConcat(root, a[1..], b, hex);
    }
  }

  lemma LocationsAppend(root: Path, list: Adopted, r: BaselineFileRecord, hex: string)
    ensures LocationsOf(root, list + [r], hex) == LocationsOf(root, list, hex) + Found(root, r, hex)
  {
    LocationsConcat(root, list, [r], hex);
    assert LocationsOf(root, [r], hex) == Found(root, r, hex) + [];
  }

  lemma {:induction false} WithoutDistinct(list: Adopted, path: string)
    requires DistinctPaths(list)
    ensures DistinctPaths(Without(list, path))
  {
    if list != [] {
      WithoutDistinct(list[1..], path);
      var rest := Without(list[1..], path);
      forall k | 0 <= k < |rest|
        ensures rest[k].relativePath != list[0].relativePath
      {
        assert rest[k] in rest && rest[k] in list[1..];
      }
    }
  }

  lemma {:induction false} WithoutAbsent(list: Adopted, path: string)
    requires forall r :: r in list ==> r.relativePath != path
    ensures Without(list, path) == list
  {
    if list != [] {
      assert list[0] in list;
      WithoutAbsent(list[1..], path);
    }
  }

  // ---- Forgetting

  /** What one owned digest's entry becomes. */
  function Dropped(locations: map<string, seq<HeldLocation>>, hex: string, file: Path): map<string, seq<HeldLocation>> {
    if hex !in locations then locations
    else if Erased(locations[hex], file) == [] then locations - {hex}
    else locations[hex := Erased(locations[hex], file)]
  }

  function Elements<T>(s: seq<T>): set<T> {
    set x | x in s
  }

  /** Digests already handled read as if the record were gone, the others as before. */
  ghost predicate PartlyForgotten(root: Path, locations: map<string, seq<HeldLocation>>, list: Adopted, path: string, done: set<string>) {
    forall hex ::
      var want := LocationsOf(root, if hex in done then Without(list, path) else list, hex);
      (hex in locations <==> want != []) && (hex in locations ==> locations[hex] == want)
  }

  lemma DropStep(root: Path, locations: map<string, seq<HeldLocation>>, list: Adopted, path: string, done: set<string>, hex: string)
    requires PartlyForgotten(root, locations, list, path, done)
    ensures PartlyForgotten(root, Dropped(locations, hex, Join(root, path)), list, path, done + {hex})
  {
    var rest := Without(list, path);
    ErasedIsWithout(root, list, path, hex);
    ErasedIsWithout(root, rest, path, hex);
    WithoutAbsent(rest, path);
    assert LocationsOf(root, list, hex) == [] ==> LocationsOf(root, rest, hex) == [];
    var dropped := Dropped(locations, hex, Join(root, path));
    forall h
      ensures
        var want := LocationsOf(root, if h in done + {hex} then rest else list, h);
        (h in dropped <==> want != []) && (h in dropped ==> dropped[h] == want)
    {
      if h != hex {
        assert (h in dropped <==> h in locations) && (h in locations ==> dropped[h] == locations[h]);
      }
    }
  }

  lemma ForgottenAll(root: Path, index: Index, list: Adopted, path: string, locations: map<string, seq<HeldLocation>>)
    requires Represents(root, index, list) && path in index.filesByPath && path in index.digestsByFile
    requires PartlyForgotten(root, locations, list, path, Elements(index.digestsByFile[path]))
    ensures LocationsAgree(root, locations, Without(list, path))
  {
    forall hex | hex !in index.digestsByFile[path]
      ensures LocationsOf(root, Without(list, path), hex) == LocationsOf(root, list, hex)
    {
      WithoutKeeps(root, list, path, hex);
    }
  }

  lemma ForgottenFiles(root: Path, index: Index, list: Adopted, path: string, locations: map<string, seq<HeldLocation>>)
    requires Represents(root, index, list)
    ensures FilesAgree(root, Index(locations, index.digestsByFile - {path}, index.filesByPath - {path}), Without(list, path))
  {
    var after := Index(locations, index.digestsByFile - {path}, index.filesByPath - {path});
    forall r | r in Without(list, path)
      ensures OwnedAgrees(after.digestsByFile, r)
    {
      assert OwnedAgrees(index.digestsByFile, r);
    }
  }

  // ---- Adopting

  lemma {:induction false} FirstChunkAppend(chunks: seq<ManifestChunk>, c: ManifestChunk, hex: string)
    ensures FirstChunk(chunks + [c], hex)
         == if FirstChunk(chunks, hex).Some? then FirstChunk(chunks, hex)
            else if ToHex(c.digest) == hex then Some(c) else None
  {
    if chunks == [] {
      assert (chunks + [c])[1..] == [];
    } else {
      assert (chunks + [c])[1..] == chunks[1..] + [c];
      FirstChunkAppend(chunks[1..], c, hex);
    }
  }

  predicate Known(locations: map<string, seq<HeldLocation>>, hex: string, file: Path) {
    hex in locations && exists l :: l in locations[hex] && l.file == file
  }

  /** A digest is known for the file exactly when the record already gave it. */
  lemma KnownExactly(root: Path, locations: map<string, seq<HeldLocation>>, list: Adopted, r: BaselineFileRecord, hex: string)
    requires LocationsAgree(root, locations, list + [r]) && DistinctPaths(list + [r])
    ensures Known(locations, hex, Join(root, r.relativePath)) <==> FirstChunk(r.chunks, hex).Some?
  {
    var all := list + [r];
    assert all[|list|] == r;
    if Known(locations, hex, Join(root, r.relativePath)) {
      var l :| l in locations[hex] && l.file == Join(root, r.relativePath);
      LocationsFromRecords(root, all, hex, l);
      var other :| other in all && l.file == Join(root, other.relativePath) && FirstChunk(other.chunks, hex).Some?;
      JoinInjective(root, other.relativePath, r.relativePath);
      var k :| 0 <= k < |all| && all[k] == other;
      assert k == |list|;
    }
    if FirstChunk(r.chunks, hex).Some? {
      assert r in all;
      RecordsHaveLocations(root, all, hex, r);
    }
  }

  function Entered(locations: map<string, seq<HeldLocation>>, hex: string, l: HeldLocation): map<string, seq<HeldLocation>> {
    locations[hex := (if hex in locations then locations[hex] else []) + [l]]
  }

  lemma LocationsStep(root: Path, list: Adopted, r: BaselineFileRecord, c: ManifestChunk, hex: string)
    ensures
      var longer := r.(chunks := r.chunks + [c]);
      LocationsOf(root, list + [longer], hex)
        == LocationsOf(root, list + [r], hex)
           + if ToHex(c.digest) == hex && FirstChunk(r.chunks, hex).None? then [HeldLocation(Join(root, r.relativePath), c.offset, c.length)] else []
  {
    var longer := r.(chunks := r.chunks + [c]);
    LocationsAppend(root, list, r, hex);
    LocationsAppend(root, list, longer, hex);
    FirstChunkAppend(r.chunks, c, hex);
  }

  lemma EnteredAgrees(root: Path, locations: map<string, seq<HeldLocation>>, before: Adopted, after: Adopted, hex: string, l: HeldLocation)
    requires LocationsAgree(root, locations, before)
    requires forall other :: LocationsOf(root, after, other) == LocationsOf(root, before, other) + if other == hex then [l] else []
    ensures LocationsAgree(root, Entered(locations, hex, l), after)
  {
    assert hex !in locations ==> LocationsOf(root, before, hex) == [];
  }

  lemma SameAgrees(root: Path, locations: map<string, seq<HeldLocation>>, before: Adopted, after: Adopted)
    requires LocationsAgree(root, locations, before)
    requires forall other :: LocationsOf(root, after, other) == LocationsOf(root, before, other)
    ensures LocationsAgree(root, locations, after)
  {
  }

  /** One more chunk of the record under adoption. */
  lemma AdoptStep(root: Path, locations: map<string, seq<HeldLocation>>, list: Adopted, r: BaselineFileRecord, c: ManifestChunk)
    requires LocationsAgree(root, locations, list + [r]) && DistinctPaths(list + [r])
    ensures
      var file := Join(root, r.relativePath);
      var hex := ToHex(c.digest);
      var after := if Known(locations, hex, file) then locations else Entered(locations, hex, HeldLocation(file, c.offset, c.length));
      LocationsAgree(root, after, list + [r.(chunks := r.chunks + [c])])
  {
    var hex := ToHex(c.digest);
    var after := list + [r.(chunks := r.chunks + [c])];
    KnownExactly(root, locations, list, r, hex);
    if FirstChunk(r.chunks, hex).None? {
      var l := HeldLocation(Join(root, r.relativePath), c.offset, c.length);
      forall other
        ensures LocationsOf(root, after, other) == LocationsOf(root, list + [r], other) + if other == hex then [l] else []
      {
        LocationsStep(root, list, r, c, other);
      }
      EnteredAgrees(root, locations, list + [r], after, hex, l);
    } else {
      forall other
        ensures LocationsOf(root, after, other) == LocationsOf(root, list + [r], other)
      {
        LocationsStep(root, list, r, c, other);
      }
      SameAgrees(root, locations, list + [r], after);
    }
  }

  lemma OwnedStep(owned: seq<string>, chunks: seq<ManifestChunk>, c: ManifestChunk)
    requires forall hex :: hex in owned <==> FirstChunk(chunks, hex).Some?
    ensures
      var after := if FirstChunk(chunks, ToHex(c.digest)).Some? then owned else owned + [ToHex(c.digest)];
      forall hex :: hex in after <==> FirstChunk(chunks + [c], hex).Some?
  {
    forall hex
      ensures FirstChunk(chunks + [c], hex).Some? <==> FirstChunk(chunks, hex).Some? || ToHex(c.digest) == hex
    {
      FirstChunkAppend(chunks, c, hex);
    }
  }

  lemma EmptyRecordAdds(root: Path, locations: map<string, seq<HeldLocation>>, list: Adopted, r: BaselineFileRecord)
    requires LocationsAgree(root, locations, list) && r.chunks == []
    ensures LocationsAgree(root, locations, list + [r])
  {
    forall hex
      ensures LocationsOf(root, list + [r], hex) == LocationsOf(root, list, hex)
    {
      LocationsAppend(root, list, r, hex);
    }
  }

  lemma AdoptedFiles(root: Path, index: Index, list: Adopted, r: BaselineFileRecord, owned: seq<string>, locations: map<string, seq<HeldLocation>>)
    requires FilesAgree(root, index, list) && (forall other :: other in list ==> other.relativePath != r.relativePath)
    requires forall hex :: hex in owned <==> FirstChunk(r.chunks, hex).Some?
    ensures
      var entry := BaselineFileEntry(r.relativePath, Join(root, r.relativePath), r.stamp);
      FilesAgree(root, Index(locations, index.digestsByFile[r.relativePath := owned], index.filesByPath[r.relativePath := entry]), list + [r])
  {
    var entry := BaselineFileEntry(r.relativePath, Join(root, r.relativePath), r.stamp);
    var after := Index(locations, index.digestsByFile[r.relativePath := owned], index.filesByPath[r.relativePath := entry]);
    var all := list + [r];
    assert all[|list|] == r && r in all;
    forall x | x in all
      ensures OwnedAgrees(after.digestsByFile, x)
    {
      if x in list {
        assert OwnedAgrees(index.digestsByFile, x);
      }
    }
    forall path
      ensures path in after.filesByPath <==> exists x :: x in all && x.relativePath == path
    {
      if path in index.filesByPath {
        var x :| x in list && x.relativePath == path;
        assert x in all;
      }
    }
  }

  lemma ListedEntry(root: Path, index: Index, list: Adopted, path: string)
    requires FilesAgree(root, index, list) && path in index.filesByPath
    ensures index.filesByPath[path].file == Join(root, path) && path in index.digestsByFile
  {
    var r :| r in list && r.relativePath == path;
    assert OwnedAgrees(index.digestsByFile, r);
  }

  class BaselineChunkCatalogue {
    const packRoot: Path
    var locations: map<string, seq<HeldLocation>>
    var digestsByFile: map<string, seq<string>>
    var filesByPath: map<string, BaselineFileEntry>
    /** Records adopted and not displaced since, oldest first. */
    ghost var adopted: Adopted

    function State(): Index
      reads this
    {
      Index(locations, digestsByFile, filesByPath)
    }

    ghost predicate Valid()
      reads this
    {
      Represents(packRoot, State(), adopted)
    }

    constructor (packRoot: Path)
      ensures Valid() && this.packRoot == packRoot && adopted == []
    {
      this.packRoot := packRoot;
      locations, digestsByFile, filesByPath := map[], map[], map[];
      adopted := [];
    }

    /** The first place of the oldest adopted record that has the digest. */
    method Locate(digest: Digest) returns (r: Option<HeldLocation>)
      requires Valid()
      ensures r == Located(packRoot, adopted, digest)
    {
      LocatedIsFirst(packRoot, adopted, digest);
      var hex := ToHex(digest);
      if hex !in locations {
        return None;
      }
      return Some(locations[hex][0]);
    }

    method ForgetUnlocked(relativePath: string)
      requires Valid()
      modifies this
      ensures Valid() && adopted == Without(old(adopted), relativePath)
    {
      WithoutDistinct(adopted, relativePath);
      if relativePath !in filesByPath {
        WithoutAbsent(adopted, relativePath);
        return;
      }
      ListedEntry(packRoot, State(), adopted, relativePath);
      var file := filesByPath[relativePath].file;
      if relativePath in digestsByFile {
        DropOwned(digestsByFile[relativePath], file, relativePath);
        digestsByFile := digestsByFile - {relativePath};
      }
      filesByPath := filesByPath - {relativePath};
      adopted := Without(adopted, relativePath);
    }

    method DropOwned(owned: seq<string>, file: Path, ghost path: string)
      requires Valid() && path in filesByPath && path in digestsByFile && owned == digestsByFile[path]
      requires file == Join(packRoot, path)
      modifies this`locations
      ensures LocationsAgree(packRoot, locations, Without(adopted, path))
      ensures FilesAgree(packRoot, Index(locations, digestsByFile - {path}, filesByPath - {path}), Without(adopted, path))
    {
      for k := 0 to |owned|
        invariant PartlyForgotten(packRoot, locations, adopted, path, Elements(owned[..k]))
      {
        DropStep(packRoot, locations, adopted, path, Elements(owned[..k]), owned[k]);
        assert Elements(owned[..k + 1]) == Elements(owned[..k]) + {owned[k]};
        DropOne(owned[k], file);
      }
      assert owned[..|owned|] == owned;
      ForgottenAll(packRoot, old(State()), adopted, path, locations);
      ForgottenFiles(packRoot, old(State()), adopted, path, locations);
    }

    method DropOne(hex: string, file: Path)
      modifies this`locations
      ensures locations == Dropped(old(locations), hex, file)
    {
      if hex !in locations {
        return;
      }
      locations := locations[hex := Erased(locations[hex], file)];
      if locations[hex] == [] {
        locations := locations - {hex};
      }
    }

    method Adopt(record: BaselineFileRecord)
      requires Valid()
      modifies this
      ensures Valid() && adopted == Without(old(adopted), record.relativePath) + [record]
    {
      var file := Join(packRoot, record.relativePath);
      ForgetUnlocked(record.relativePath);
      ghost var before := State();
      filesByPath := filesByPath[record.relativePath := BaselineFileEntry(record.relativePath, file, record.stamp)];
      var owned := EnterChunks(record, file);
      digestsByFile := digestsByFile[record.relativePath := owned];
      AdoptedFiles(packRoot, before, adopted, record, owned, locations);
      adopted := adopted + [record];
    }

    method EnterChunks(record: BaselineFileRecord, file: Path) returns (owned: seq<string>)
      requires LocationsAgree(packRoot, locations, adopted) && DistinctPaths(adopted)
      requires file == Join(packRoot, record.relativePath)
      requires forall r :: r in adopted ==> r.relativePath != record.relativePath
      modifies this`locations
      ensures LocationsAgree(packRoot, locations, adopted + [record])
      ensures forall hex :: hex in owned <==> FirstChunk(record.chunks, hex).Some?
    {
      owned := [];
      EmptyRecordAdds(packRoot, locations, adopted, record.(chunks := []));
      assert record.chunks[..0] == [];
      for k := 0 to |record.chunks|
        invariant LocationsAgree(packRoot, locations, adopted + [record.(chunks := record.chunks[..k])])
        invariant forall hex :: hex in owned <==> FirstChunk(record.chunks[..k], hex).Some?
      {
        var chunk := record.chunks[k];
        var hex := ToHex(chunk.digest);
        ghost var part := record.(chunks := record.chunks[..k]);
        assert record.chunks[..k + 1] == part.chunks + [chunk];
        AdoptStep(packRoot, locations, adopted, part, chunk);
        KnownExactly(packRoot, locations, adopted, part, hex);
        OwnedStep(owned, part.chunks, chunk);
        var known := Known(locations, hex, file);
        if !known {
          locations := Entered(locations, hex, HeldLocation(file, chunk.offset, chunk.length));
          owned := owned + [hex];
        }
      }
      assert record.chunks[..|record.chunks|] == record.chunks;
    }

    method Forget(relativePath: string)
      requires Valid()
      modifies this
      ensures Valid() && adopted == Without(old(adopted), relativePath)
    {
      ForgetUnlocked(relativePath);
    }

    method Clear()
      modifies this
      ensures Valid() && adopted == []
    {
      locations, digestsByFile, filesByPath := map[], map[], map[];
      adopted := [];
    }

    /** `stamps` is what the disk says of each file now. */
    method DiscardChanged(stamps: Path -> Option<FileStamp>)
      requires Valid()
      modifies this
      ensures Valid() && adopted == Unchanged(packRoot, old(adopted), stamps)
    {
      var changed := set path | path in filesByPath && stamps(filesByPath[path].file) != Some(filesByPath[path].stamp);
      WithoutChanged(packRoot, adopted, stamps, changed);
      ForgetEach(changed);
    }

    method ForgetEach(paths: set<string>)
      requires Valid()
      modifies this
      ensures Valid() && adopted == WithoutSet(old(adopted), paths)
    {
      ghost var list := adopted;
      var left := paths;
      WithoutNone(list);
      assert paths - left == {};
      while left != {}
        invariant Valid() && left <= paths
        invariant adopted == WithoutSet(list, paths - left)
        decreases left
      {
        var path :| path in left;
        OneMoreGone(list, paths, left, path);
        ForgetUnlocked(path);
        left := left - {path};
      }
      assert paths - left == paths;
    }

    method ChunkCount() returns (count: nat)
      requires Valid()
      ensures count == |DigestsOf(adopted)|
    {
      count := |locations|;
      CountAgrees(packRoot, locations, adopted);
    }
  }

  // ---- Discarding

  function WithoutSet(list: Adopted, paths: set<string>): Adopted {
    if list == [] then []
    else (if list[0].relativePath in paths then [] else [list[0]]) + WithoutSet(list[1..], paths)
  }

  lemma {:induction false} WithoutNone(list: Adopted)
    ensures WithoutSet(list, {}) == list
  {
    if list != [] {
      WithoutNone(list[1..]);
    }
  }

  lemma {:induction false} WithoutOneMore(list: Adopted, paths: set<string>, path: string)
    ensures Without(WithoutSet(list, paths), path) == WithoutSet(list, paths + {path})
  {
    if list != [] {
      WithoutOneMore(list[1..], paths, path);
      var rest := WithoutSet(list[1..], paths);
      if list[0].relativePath !in paths {
        assert ([list[0]] + rest)[1..] == rest;
      } else {
        assert WithoutSet(list, paths) == rest;
      }
    }
  }

  lemma OneMoreGone(list: Adopted, paths: set<string>, left: set<string>, path: string)
    requires path in left && left <= paths
    ensures Without(WithoutSet(list, paths - left), path) == WithoutSet(list, paths - (left - {path}))
  {
    WithoutOneMore(list, paths - left, path);
    assert paths - (left - {path}) == (paths - left) + {path};
  }

  lemma {:induction false} WithoutChanged(root: Path, list: Adopted, stamps: Path -> Option<FileStamp>, changed: set<string>)
    requires forall r :: r in list ==> (r.relativePath in changed <==> !Current(root, stamps, r))
    ensures WithoutSet(list, changed) == Unchanged(root, list, stamps)
  {
    if list != [] {
      assert list[0] in list;
      WithoutChanged(root, list[1..], stamps, changed);
    }
  }

  // ---- What the index answers

  predicate Has(r: BaselineFileRecord, digest: Digest) {
    exists k :: 0 <= k < |r.chunks| && r.chunks[k].digest == digest
  }

  /** Looked up record by record, with no index at all. */
  function Located(root: Path, list: Adopted, digest: Digest): Option<HeldLocation> {
    if list == [] then None
    else
      match FirstWith(list[0].chunks, digest)
      case None => Located(root, list[1..], digest)
      case Some(c) => Some(HeldLocation(Join(root, list[0].relativePath), c.offset, c.length))
  }

  function FirstWith(chunks: seq<ManifestChunk>, digest: Digest): Option<ManifestChunk> {
    if chunks == [] then None
    else if chunks[0].digest == digest then Some(chunks[0])
    else FirstWith(chunks[1..], digest)
  }

  lemma {:induction false} FirstWithIsFirst(chunks: seq<ManifestChunk>, digest: Digest)
    ensures FirstChunk(chunks, ToHex(digest)) == FirstWith(chunks, digest)
  {
    if chunks != [] {
      if ToHex(chunks[0].digest) == ToHex(digest) {
        HexInjective(chunks[0].digest, digest);
      }
      FirstWithIsFirst(chunks[1..], digest);
    }
  }

  lemma {:induction false} LocatedIsFirst(root: Path, list: Adopted, digest: Digest)
    ensures
      var all := LocationsOf(root, list, ToHex(digest));
      Located(root, list, digest) == if all == [] then None else Some(all[0])
  {
    if list != [] {
      FirstWithIsFirst(list[0].chunks, digest);
      LocatedIsFirst(root, list[1..], digest);
    }
  }

  /** A digest is found exactly when an adopted record has it. */
  lemma {:induction false} LocatedExactly(root: Path, list: Adopted, digest: Digest)
    ensures Located(root, list, digest).Some? <==> exists i :: 0 <= i < |list| && Has(list[i], digest)
  {
    if list != [] {
      FirstWithExactly(list[0].chunks, digest);
      LocatedExactly(root, list[1..], digest);
      if i :| 0 <= i < |list| && Has(list[i], digest) {
        if i > 0 {
          assert list[1..][i - 1] == list[i];
        } else {
          assert Has(list[0], digest);
        }
      }
      if Located(root, list[1..], digest).Some? {
        var i :| 0 <= i < |list[1..]| && Has(list[1..][i], digest);
        assert list[i + 1] == list[1..][i];
      }
      if FirstWith(list[0].chunks, digest).Some? {
        assert Has(list[0], digest);
      }
    }
  }

  lemma {:induction false} FirstWithExactly(chunks: seq<ManifestChunk>, digest: Digest)
    ensures FirstWith(chunks, digest).Some? <==> exists k :: 0 <= k < |chunks| && chunks[k].digest == digest
  {
    if chunks != [] {
      FirstWithExactly(chunks[1..], digest);
      assert forall k :: 0 < k < |chunks| ==> chunks[k] == chunks[1..][k - 1];
      assert forall k :: 0 <= k < |chunks[1..]| ==> chunks[1..][k] == chunks[k + 1];
    }
  }

  function ChunkDigests(chunks: seq<ManifestChunk>): set<Digest> {
    set k | 0 <= k < |chunks| :: chunks[k].digest
  }

  /** Every digest some adopted record has. */
  function DigestsOf(list: Adopted): set<Digest> {
    if list == [] then {} else ChunkDigests(list[0].chunks) + DigestsOf(list[1..])
  }

  lemma {:induction false} DigestsExactly(root: Path, list: Adopted, digest: Digest)
    ensures digest in DigestsOf(list) <==> LocationsOf(root, list, ToHex(digest)) != []
  {
    if list != [] {
      DigestsExactly(root, list[1..], digest);
      FirstWithIsFirst(list[0].chunks, digest);
      FirstWithExactly(list[0].chunks, digest);
    }
  }

  lemma {:induction false} LocatedHexIsDigest(root: Path, list: Adopted, hex: string)
    requires LocationsOf(root, list, hex) != []
    ensures exists digest :: digest in DigestsOf(list) && ToHex(digest) == hex
  {
    var first := FirstChunk(list[0].chunks, hex);
    if first.Some? {
      FirstChunkIn(list[0].chunks, hex);
      assert first.value.digest in DigestsOf(list);
    } else {
      LocatedHexIsDigest(root, list[1..], hex);
      var digest :| digest in DigestsOf(list[1..]) && ToHex(digest) == hex;
      assert digest in DigestsOf(list);
    }
  }

  lemma {:induction false} FirstChunkIn(chunks: seq<ManifestChunk>, hex: string)
    requires FirstChunk(chunks, hex).Some?
    ensures FirstChunk(chunks, hex).value in chunks && ToHex(FirstChunk(chunks, hex).value.digest) == hex
  {
    if ToHex(chunks[0].digest) != hex {
      FirstChunkIn(chunks[1..], hex);
    }
  }

  function Image<A(!new), B>(s: set<A>, f: A -> B): set<B> {
    set a | a in s :: f(a)
  }

  lemma {:induction false} ImageSize<A(!new), B>(s: set<A>, f: A -> B)
    requires forall a, b :: a in s && b in s && f(a) == f(b) ==> a == b
    ensures |Image(s, f)| == |s|
    decreases s
  {
    if s != {} {
      var one :| one in s;
      ImageSize(s - {one}, f);
      assert Image(s, f) == Image(s - {one}, f) + {f(one)};
    }
  }

  const SPELLING: Digest -> string := (d: Digest) => ToHex(d)

  lemma SpellingsSize(digests: set<Digest>)
    ensures |Image(digests, SPELLING)| == |digests|
  {
    forall a, b | a in digests && b in digests && SPELLING(a) == SPELLING(b)
      ensures a == b
    {
      HexInjective(a, b);
    }
    ImageSize(digests, SPELLING);
  }

  lemma KeysAreSpellings(root: Path, locations: map<string, seq<HeldLocation>>, list: Adopted)
    requires LocationsAgree(root, locations, list)
    ensures locations.Keys == Image(DigestsOf(list), SPELLING)
  {
    forall hex | hex in locations
      ensures exists d :: d in DigestsOf(list) && SPELLING(d) == hex
    {
      LocatedHexIsDigest(root, list, hex);
      var d :| d in DigestsOf(list) && ToHex(d) == hex;
      assert SPELLING(d) == hex;
    }
    forall d | d in DigestsOf(list)
      ensures SPELLING(d) in locations
    {
      DigestsExactly(root, list, d);
    }
  }

  lemma CountAgrees(root: Path, locations: map<string, seq<HeldLocation>>, list: Adopted)
    requires LocationsAgree(root, locations, list)
    ensures |locations| == |DigestsOf(list)|
  {
    KeysAreSpellings(root, locations, list);
    SpellingsSize(DigestsOf(list));
    assert |locations| == |locations.Keys|;
  }

  // ---- Runs

  datatype CatalogueOp =
    | DoAdopt(record: BaselineFileRecord)
    | DoForget(path: string)
    | DoClear
    | DoDiscard(stamps: Path -> Option<FileStamp>)

  function Next(root: Path, list: Adopted, op: CatalogueOp): Adopted {
    match op
    case DoAdopt(record) => Without(list, record.relativePath) + [record]
    case DoForget(path) => Without(list, path)
    case DoClear => []
    case DoDiscard(stamps) => Unchanged(root, list, stamps)
  }

  function AfterOps(root: Path, list: Adopted, ops: seq<CatalogueOp>): Adopted {
    if ops == [] then list else Next(root, AfterOps(root, list, ops[..|ops| - 1]), ops[|ops| - 1])
  }

  predicate Displaces(root: Path, op: CatalogueOp, r: BaselineFileRecord) {
    match op
    case DoAdopt(record) => record.relativePath == r.relativePath
    case DoForget(path) => path == r.relativePath
    case DoClear => true
    case DoDiscard(stamps) => stamps(root + "/" + r.relativePath) != Some(r.stamp)
  }

  ghost predicate StillAdopted(root: Path, ops: seq<CatalogueOp>, r: BaselineFileRecord, at: nat)
    requires at < |ops|
  {
    ops[at] == DoAdopt(r) && forall j :: at < j < |ops| ==> !Displaces(root, ops[j], r)
  }

  lemma NextHas(root: Path, list: Adopted, op: CatalogueOp, r: BaselineFileRecord)
    ensures r in Next(root, list, op) <==> op == DoAdopt(r) || (r in list && !Displaces(root, op, r))
  {
  }

  lemma StillLater(root: Path, ops: seq<CatalogueOp>, r: BaselineFileRecord, at: nat)
    requires at < |ops| - 1
    ensures StillAdopted(root, ops, r, at) <==> StillAdopted(root, ops[..|ops| - 1], r, at) && !Displaces(root, ops[|ops| - 1], r)
  {
    var n := |ops| - 1;
    assert forall j :: 0 <= j < n ==> ops[..n][j] == ops[j];
  }

  /** After any run a record counts exactly when it was adopted and nothing has displaced it since. */
  lemma {:induction false} AdoptedExactly(root: Path, ops: seq<CatalogueOp>, r: BaselineFileRecord)
    ensures r in AfterOps(root, [], ops) <==> exists at :: 0 <= at < |ops| && StillAdopted(root, ops, r, at)
  {
    if ops != [] {
      var n := |ops| - 1;
      AdoptedExactly(root, ops[..n], r);
      NextHas(root, AfterOps(root, [], ops[..n]), ops[n], r);
      forall at | 0 <= at < n
        ensures StillAdopted(root, ops, r, at) <==> StillAdopted(root, ops[..n], r, at) && !Displaces(root, ops[n], r)
      {
        StillLater(root, ops, r, at);
      }
      assert ops[n] == DoAdopt(r) <==> StillAdopted(root, ops, r, n);
    }
  }

  /** Two records in this order stand somewhere in the list in this order. */
  ghost predicate InOrder(list: Adopted, r: BaselineFileRecord, s: BaselineFileRecord) {
    exists i, j :: 0 <= i < j < |list| && list[i] == r && list[j] == s
  }

  lemma InOrderBehind(first: BaselineFileRecord, list: Adopted, r: BaselineFileRecord, s: BaselineFileRecord)
    ensures InOrder([first] + list, r, s) <==> InOrder(list, r, s) || (first == r && s in list)
  {
    var all := [first] + list;
    assert forall k :: 0 < k < |all| ==> all[k] == list[k - 1];
    if i, j :| 0 <= i < j < |list| && list[i] == r && list[j] == s {
      assert all[i + 1] == r && all[j + 1] == s;
    }
    if first == r && s in list {
      var j :| 0 <= j < |list| && list[j] == s;
      assert all[0] == r && all[j + 1] == s;
    }
  }

  lemma {:induction false} WithoutInOrder(list: Adopted, path: string, r: BaselineFileRecord, s: BaselineFileRecord)
    requires InOrder(Without(list, path), r, s)
    ensures InOrder(list, r, s)
  {
    if list != [] {
      assert list == [list[0]] + list[1..];
      InOrderBehind(list[0], list[1..], r, s);
      InOrderBehind(list[0], Without(list[1..], path), r, s);
      if InOrder(Without(list[1..], path), r, s) {
        WithoutInOrder(list[1..], path, r, s);
      }
    }
  }

  lemma {:induction false} UnchangedInOrder(root: Path, list: Adopted, stamps: Path -> Option<FileStamp>, r: BaselineFileRecord, s: BaselineFileRecord)
    requires InOrder(Unchanged(root, list, stamps), r, s)
    ensures InOrder(list, r, s)
  {
    if list != [] {
      assert list == [list[0]] + list[1..];
      var rest := Unchanged(root, list[1..], stamps);
      InOrderBehind(list[0], list[1..], r, s);
      InOrderBehind(list[0], rest, r, s);
      assert [] + rest == rest;
      if InOrder(rest, r, s) {
        UnchangedInOrder(root, list[1..], stamps, r, s);
      }
    }
  }

  /** Adopted at these two moments, the second later, and not displaced since. */
  ghost predicate AdoptedAt(root: Path, ops: seq<CatalogueOp>, r: BaselineFileRecord, s: BaselineFileRecord, a: nat, b: nat) {
    a < b < |ops| && StillAdopted(root, ops, r, a) && StillAdopted(root, ops, s, b)
  }

  lemma NextInOrder(root: Path, list: Adopted, op: CatalogueOp, r: BaselineFileRecord, s: BaselineFileRecord)
    requires InOrder(Next(root, list, op), r, s)
    ensures r in list && !Displaces(root, op, r)
    ensures InOrder(list, r, s) || op == DoAdopt(s)
    ensures op == DoAdopt(s) || !Displaces(root, op, s)
  {
    match op
    case DoAdopt(record) =>
      var kept := Without(list, record.relativePath);
      var i, j :| 0 <= i < j < |kept + [record]| && (kept + [record])[i] == r && (kept + [record])[j] == s;
      assert kept[i] == r && kept[i] in kept;
      if j < |kept| {
        assert kept[j] == s && kept[j] in kept;
        assert InOrder(kept, r, s);
        WithoutInOrder(list, record.relativePath, r, s);
      }
    case DoForget(path) =>
      assert r in Without(list, path) && s in Without(list, path);
      WithoutInOrder(list, path, r, s);
    case DoClear =>
    case DoDiscard(stamps) =>
      assert r in Unchanged(root, list, stamps) && s in Unchanged(root, list, stamps);
      UnchangedInOrder(root, list, stamps, r, s);
  }

  /** After any run the records stand in the order in which they were adopted, oldest first. */
  lemma {:induction false} OldestFirst(root: Path, ops: seq<CatalogueOp>, r: BaselineFileRecord, s: BaselineFileRecord)
    requires InOrder(AfterOps(root, [], ops), r, s)
    ensures exists a, b :: AdoptedAt(root, ops, r, s, a, b)
  {
    var n := |ops| - 1;
    var before := AfterOps(root, [], ops[..n]);
    NextInOrder(root, before, ops[n], r, s);
    if ops[n] == DoAdopt(s) {
      AdoptedExactly(root, ops[..n], r);
      var a :| 0 <= a < n && StillAdopted(root, ops[..n], r, a);
      StillLater(root, ops, r, a);
      assert AdoptedAt(root, ops, r, s, a, n);
    } else {
      OldestFirst(root, ops[..n], r, s);
      var a, b :| AdoptedAt(root, ops[..n], r, s, a, b);
      StillLater(root, ops, r, a);
      StillLater(root, ops, s, b);
      assert AdoptedAt(root, ops, r, s, a, b);
    }
  }
}
