/** The index of the game's own files, used as the catalogue of an update. */
module ScannedCatalogue {
  import opened Bytes
  import opened FileStore
  import opened Content
  import opened PayloadPath
  import opened Assembly
  import opened Update
  import opened Differ
  import opened BaselineCatalogue

  /** The scanner takes pack files only. */
  predicate PackName(path: string) {
    |path| >= |PAYLOAD_EXTENSION| && ToUpper(path[|path| - |PAYLOAD_EXTENSION|..]) == ToUpper(PAYLOAD_EXTENSION)
  }

  ghost predicate AllPacks(list: Adopted) {
    forall r :: r in list ==> PackName(r.relativePath)
  }

  /** Every adopted record still describes its file. */
  ghost predicate RecordsHold(hash: Hasher, files: Files, root: Path, list: Adopted) {
    forall r :: r in list ==>
      && Join(root, r.relativePath) in files
      && forall k :: 0 <= k < |r.chunks| ==> MatchesChunk(hash, files[Join(root, r.relativePath)], r.chunks[k])
  }

  ghost function CatalogueOf(root: Path, list: Adopted): Catalogue {
    (digest: Digest) => Located(root, list, digest)
  }

  lemma PackIsNotStaging(root: Path, path: string)
    requires PackName(path)
    ensures !IsStagingName(Join(root, path))
  {
    var tail := path[|path| - 4..];
    assert Upper(tail[3]) == 'T' by {
      UpperLast(tail, PAYLOAD_EXTENSION);
    }
    var joined := Join(root, path);
    assert joined[|joined| - 1] == path[|path| - 1] == tail[3];
  }

  /** What is located is a chunk of an adopted record. */
  lemma {:induction false} LocatedFrom(root: Path, list: Adopted, digest: Digest) returns (r: BaselineFileRecord, k: nat)
    requires Located(root, list, digest).Some?
    ensures r in list && k < |r.chunks| && r.chunks[k].digest == digest
    ensures Located(root, list, digest).value == HeldLocation(Join(root, r.relativePath), r.chunks[k].offset, r.chunks[k].length)
    decreases list
  {
    if FirstWith(list[0].chunks, digest).Some? {
      r := list[0];
      k := FirstWithAt(r.chunks, digest);
    } else {
      r, k := LocatedFrom(root, list[1..], digest);
    }
  }

  lemma {:induction false} FirstWithAt(chunks: seq<ManifestChunk>, digest: Digest) returns (k: nat)
    requires FirstWith(chunks, digest).Some?
    ensures k < |chunks| && chunks[k] == FirstWith(chunks, digest).value && chunks[k].digest == digest
    decreases chunks
  {
    if chunks[0].digest == digest {
      k := 0;
    } else {
      var later := FirstWithAt(chunks[1..], digest);
      k := later + 1;
    }
  }

  /** A scanned catalogue never names a staging file. */
  lemma ScannedCatalogueApart(root: Path, list: Adopted)
    requires AllPacks(list)
    ensures CatalogueApart(CatalogueOf(root, list))
  {
    forall digest: Digest | Located(root, list, digest).Some?
      ensures !IsStagingName(Located(root, list, digest).value.file)
    {
      var r, _ := LocatedFrom(root, list, digest);
      PackIsNotStaging(root, r.relativePath);
    }
  }

  /** While the adopted records still describe their files, what it answers is there. */
  lemma ScannedCatalogueTruthful(hash: Hasher, files: Files, root: Path, list: Adopted)
    requires RecordsHold(hash, files, root, list)
    ensures CatalogueTruthful(hash, files, CatalogueOf(root, list))
  {
    forall digest: Digest | Located(root, list, digest).Some?
      ensures
        var location := Located(root, list, digest).value;
        && location.file in files
        && Slice(files[location.file], location.offset, location.length).Some?
        && hash(Slice(files[location.file], location.offset, location.length).value) == digest
    {
      var r, k := LocatedFrom(root, list, digest);
      assert MatchesChunk(hash, files[Join(root, r.relativePath)], r.chunks[k]);
    }
  }
}
