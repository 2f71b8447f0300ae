/** What the chunker describes with its default sizes is what the manifest decoder accepts. */
module DescribedManifest {
  import opened Wrappers
  import opened Bytes
  import opened Content
  import opened Chunker
  import opened DeltaSize
  import opened PayloadPath
  import Manifest

  function DefaultSettings(gear: GearTable): Settings {
    Settings(DEFAULT_SIZES, gear)
  }

  /** Every chunk but the last is longer than the minimum, so a file cannot have many. */
  function MostChunks(size: nat): nat {
    size / (DEFAULT_SIZES.minimum + 1) + 1
  }

  lemma {:induction false} SpansAreFew(spans: seq<ChunkSpan>, start: nat, stop: nat, least: nat)
    requires Chunker.Tiles(spans, start, stop) && least > 0
    requires forall k :: 0 <= k < |spans| - 1 ==> spans[k].length >= least
    ensures spans != [] ==> (|spans| - 1) * least <= stop - start
    decreases spans
  {
    if |spans| > 1 {
      var rest := spans[1..];
      SpansAreFew(rest, start + spans[0].length, stop, least);
      assert (|spans| - 1) * least == (|rest| - 1) * least + least;
    } else if |spans| == 1 {
      TilesInside(spans, start, stop);
    }
  }

  lemma {:induction false} ProductGrows(a: nat, b: nat, d: nat)
    requires a <= b
    ensures a * d <= b * d
  {
    if d > 0 {
      ProductGrows(a, b, d - 1);
      assert a * d == a * (d - 1) + a && b * d == b * (d - 1) + b;
    }
  }

  lemma SmallerFactor(a: nat, b: nat, d: nat)
    requires a * d < b * d
    ensures a < b
  {
    if b <= a {
      ProductGrows(b, a, d);
    }
  }

  lemma FewEnough(count: nat, size: nat, least: nat)
    requires least > 0 && count > 0 && (count - 1) * least <= size
    ensures count <= size / least + 1
  {
    var q := size / least;
    assert size == least * q + size % least;
    assert (q + 1) * least == least * q + least;
    SmallerFactor(count - 1, q + 1, least);
  }

  lemma DescribedCount(hash: Hasher, gear: GearTable, path: string, data: seq<byte>)
    ensures |Described(hash, DefaultSettings(gear), path, data).chunks| <= MostChunks(|data|)
  {
    var s := DefaultSettings(gear);
    SplitTiles(s, data);
    SpansAreInside(s, data);
    SpansAreFew(Spans(s, data), 0, |data|, s.sizes.minimum + 1);
    if Spans(s, data) != [] {
      FewEnough(|Spans(s, data)|, |data|, s.sizes.minimum + 1);
    }
  }

  lemma DescribedLengths(hash: Hasher, gear: GearTable, path: string, data: seq<byte>, k: nat)
    requires k < |Described(hash, DefaultSettings(gear), path, data).chunks|
    ensures Manifest.GoodLength(Described(hash, DefaultSettings(gear), path, data).chunks[k])
  {
    var s := DefaultSettings(gear);
    SplitTiles(s, data);
    DescribedChunk(hash, s, path, data, k);
    assert Spans(s, data)[k].length % UINT32 == Spans(s, data)[k].length;
  }

  /** A described file passes every check the decoder makes of a single file. */
  lemma DescribedGood(policy: Manifest.PathPolicy, hash: Hasher, gear: GearTable, path: string, data: seq<byte>)
    requires policy(path) == Ok(path) && |data| <= Manifest.MANIFEST_FILE_BYTES
    requires path == EXTENSION_FILE_NAME ==> Manifest.MIN_PACKAGE_BYTES <= |data| <= Manifest.MAX_PACKAGE_BYTES
    ensures Manifest.GoodFile(policy, Described(hash, DefaultSettings(gear), path, data))
  {
    var file := Described(hash, DefaultSettings(gear), path, data);
    SmallMaximumIsShort(DefaultSettings(gear), data);
    DescribedSound(hash, DefaultSettings(gear), path, data);
    forall k | 0 <= k < |file.chunks|
      ensures Manifest.GoodLength(file.chunks[k])
    {
      DescribedLengths(hash, gear, path, data, k);
    }
  }

  datatype SourceFile = SourceFile(path: string, data: seq<byte>)

  function DescribedAll(hash: Hasher, gear: GearTable, sources: seq<SourceFile>): (r: seq<ManifestFile>)
    ensures |r| == |sources|
  {
    if sources == [] then []
    else [Described(hash, DefaultSettings(gear), sources[0].path, sources[0].data)] + DescribedAll(hash, gear, sources[1..])
  }

  function MostChunksAll(sources: seq<SourceFile>): nat {
    if sources == [] then 0 else MostChunks(|sources[0].data|) + MostChunksAll(sources[1..])
  }

  predicate Publishable(policy: Manifest.PathPolicy, f: SourceFile) {
    && policy(f.path) == Ok(f.path)
    && |f.data| <= Manifest.MANIFEST_FILE_BYTES
    && (f.path == EXTENSION_FILE_NAME ==> Manifest.MIN_PACKAGE_BYTES <= |f.data| <= Manifest.MAX_PACKAGE_BYTES)
  }

  function ExtensionCount(sources: seq<SourceFile>): nat {
    if sources == [] then 0 else (if sources[0].path == EXTENSION_FILE_NAME then 1 else 0) + ExtensionCount(sources[1..])
  }

  lemma {:induction false} DescribedAllGood(policy: Manifest.PathPolicy, hash: Hasher, gear: GearTable, sources: seq<SourceFile>)
    requires forall i :: 0 <= i < |sources| ==> Publishable(policy, sources[i])
    ensures
      var files := DescribedAll(hash, gear, sources);
      && Manifest.GoodFiles(policy, files)
      && Manifest.ChunkTotal(files) <= MostChunksAll(sources)
      && Manifest.Extensions(files) == ExtensionCount(sources)
    decreases sources
  {
    if sources != [] {
      assert Publishable(policy, sources[0]);
      DescribedGood(policy, hash, gear, sources[0].path, sources[0].data);
      DescribedCount(hash, gear, sources[0].path, sources[0].data);
      DescribedAllGood(policy, hash, gear, sources[1..]);
      Manifest.TotalsAdd(Described(hash, DefaultSettings(gear), sources[0].path, sources[0].data), DescribedAll(hash, gear, sources[1..]));
    }
  }

  /** Publishing a folder and reading its manifest back gives the same manifest, for everything within the stated limits. */
  lemma PublishedManifestDecodes(image: Manifest.ImageCheck, hash: Hasher, gear: GearTable, sources: seq<SourceFile>, m: ModManifest)
    requires sources != [] && m.files == DescribedAll(hash, gear, sources) && Manifest.GoodDescription(m.description)
    requires forall i :: 0 <= i < |sources| ==> Publishable(Manifest.PAYLOAD_POLICY, sources[i])
    requires MostChunksAll(sources) <= Manifest.MANIFEST_CHUNK_COUNT && ExtensionCount(sources) <= 1
    ensures Manifest.Decoded(Manifest.PAYLOAD_POLICY, image, Manifest.Encoded(m)) == Ok(m)
  {
    Manifest.PayloadPolicySettles();
    DescribedAllGood(Manifest.PAYLOAD_POLICY, hash, gear, sources);
    Manifest.ManifestRoundTrip(Manifest.PAYLOAD_POLICY, image, m);
  }
}
