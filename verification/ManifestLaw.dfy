/** Which documents are accepted and what each one says, with every limit written out. */
module ManifestLaw {
  import opened Wrappers
  import opened Bytes
  import opened Content
  import opened Manifest

  // ---- Digits

  lemma NibbleExactly(c: char, n: int)
    requires DecodeNibble(c) == Some(n)
    ensures 0 <= n < 16 && c == "0123456789abcdef"[n]
  {
    assert "0123456789abcdef" == DIGITS;
    if '0' <= c <= '9' {
      assert DIGITS[..10] == "0123456789";
    }
  }

  lemma {:induction false} HexExactly(text: string, bytes: seq<byte>)
    ensures DecodeHex(text) == Some(bytes) <==> text == ToHex(bytes)
    decreases text
  {
    if text == ToHex(bytes) {
      DecodeHexRoundTrip(bytes);
    }
    if DecodeHex(text) == Some(bytes) && text != "" {
      HexExactly(text[2..], bytes[1..]);
      HexFirst(text, bytes);
      assert text == [text[0], text[1]] + text[2..];
    }
  }

  lemma HexFirst(text: string, bytes: seq<byte>)
    requires |text| >= 2 && DecodeHex(text) == Some(bytes) && bytes != []
    ensures DecodeHex(text[2..]) == Some(bytes[1..])
    ensures [text[0], text[1]] == [DIGITS[bytes[0] as int / 16], DIGITS[bytes[0] as int % 16]]
  {
    var high, low := DecodeNibble(text[0]).value, DecodeNibble(text[1]).value;
    NibbleExactly(text[0], high);
    NibbleExactly(text[1], low);
    ByteDigits(bytes[0], high, low);
  }

  lemma ByteDigits(b: byte, high: int, low: int)
    requires 0 <= high < 16 && 0 <= low < 16 && b == (high * 16 + low) as byte
    ensures b as int / 16 == high && b as int % 16 == low
  {
  }

  /** Exactly the lower-case spelling of so many bytes is read. */
  lemma FixedHexExactly(text: string, bytes: seq<byte>)
    ensures FromHex(text, |bytes|) == Some(bytes) <==> text == ToHex(bytes)
  {
    HexExactly(text, bytes);
  }

  // ---- Chunks

  /** An object with the digest in lower-case digits and a length of 1 byte to 16 MiB. */
  predicate ChunkReadsAs(j: Json, c: ManifestChunk) {
    && j.Object?
    && DIGEST in j.fields && j.fields[DIGEST] == Text(ToHex(c.digest))
    && LENGTH in j.fields && j.fields[LENGTH] == Unsigned(c.length)
    && 1 <= c.length <= 16777216
  }

  predicate ChunksReadAs(items: seq<Json>, chunks: seq<ManifestChunk>) {
    |items| == |chunks| && forall k :: 0 <= k < |items| ==> ChunkReadsAs(items[k], chunks[k])
  }

  lemma ChunkExactly(j: Json, cursor: nat, c: ManifestChunk)
    ensures DecodedChunk(j, cursor) == Ok(c) <==> ChunkReadsAs(j, c) && c.offset == cursor
  {
    if j.Object? && DIGEST in j.fields && j.fields[DIGEST].Text? {
      FixedHexExactly(j.fields[DIGEST].text, c.digest);
    }
  }

  lemma ChunksReadFirst(items: seq<Json>, chunks: seq<ManifestChunk>)
    requires items != [] && chunks != []
    ensures ChunksReadAs(items, chunks) <==> ChunkReadsAs(items[0], chunks[0]) && ChunksReadAs(items[1..], chunks[1..])
  {
    assert forall k :: 0 < k < |items| ==> items[k] == items[1..][k - 1];
    assert forall k :: 0 < k < |chunks| ==> chunks[k] == chunks[1..][k - 1];
  }

  lemma DecodedChunksFirst(items: seq<Json>, cursor: nat, chunks: seq<ManifestChunk>)
    requires items != [] && chunks != []
    ensures DecodedChunks(items, cursor) == Ok(chunks) <==>
      && DecodedChunk(items[0], cursor) == Ok(chunks[0])
      && DecodedChunks(items[1..], cursor + chunks[0].length) == Ok(chunks[1..])
  {
    assert chunks == [chunks[0]] + chunks[1..];
  }

  /** Chunks that tile a stretch are read exactly from items that say so. */
  lemma {:induction false} ChunksExactly(items: seq<Json>, chunks: seq<ManifestChunk>, start: nat, stop: nat)
    requires ChunksTile(chunks, start, stop)
    ensures DecodedChunks(items, start) == Ok(chunks) <==> ChunksReadAs(items, chunks)
    decreases chunks
  {
    if items != [] && chunks != [] {
      ChunkExactly(items[0], start, chunks[0]);
      ChunksExactly(items[1..], chunks[1..], start + chunks[0].length, stop);
      DecodedChunksFirst(items, start, chunks);
      ChunksReadFirst(items, chunks);
    }
  }

  // ---- Files

  const PACKAGE: string := "blacktearemos_extensions.dll"

  /** A payload path, a size of at most 64 GiB that suits a package, and chunks that tile it. */
  ghost predicate FileReadsAs(policy: PathPolicy, j: Json, f: ManifestFile) {
    && j.Object?
    && PATH in j.fields && j.fields[PATH].Text? && policy(j.fields[PATH].text) == Ok(f.path)
    && SIZE in j.fields && j.fields[SIZE] == Unsigned(f.size)
    && f.size <= 68719476736
    && (f.path == PACKAGE ==> 98 <= f.size <= 134221920)
    && CHUNKS in j.fields && j.fields[CHUNKS].Array? && ChunksReadAs(j.fields[CHUNKS].items, f.chunks)
    && ChunksTile(f.chunks, 0, f.size)
  }

  /** A file read behind others. */
  function StepTo(f: ManifestFile, chunkTotal: nat, declared: bool): FileStep {
    FileStep(f, chunkTotal + |f.chunks|, declared || f.path == PACKAGE)
  }

  lemma ChunksAndLayout(items: seq<Json>, chunks: seq<ManifestChunk>, size: nat)
    ensures
      var r := DecodedChunks(items, 0);
      r == Ok(chunks) && LayoutError(chunks, 0, size).None? <==> ChunksReadAs(items, chunks) && ChunksTile(chunks, 0, size)
  {
    LayoutErrorExactly(chunks, 0, size);
    if ChunksTile(chunks, 0, size) {
      ChunksExactly(items, chunks, 0, size);
    }
  }

  lemma FileExactly(policy: PathPolicy, j: Json, chunkTotal: nat, declared: bool, f: ManifestFile)
    ensures
      DecodedFile(policy, j, chunkTotal, declared) == Ok(StepTo(f, chunkTotal, declared))
      <==> FileReadsAs(policy, j, f) && chunkTotal + |f.chunks| <= 16384 && !(declared && f.path == PACKAGE)
  {
    if j.Object? && CHUNKS in j.fields && j.fields[CHUNKS].Array? {
      ChunksAndLayout(j.fields[CHUNKS].items, f.chunks, f.size);
    }
  }

  /** Whatever a file decodes to, the totals are carried on. */
  lemma FileCarriesOn(policy: PathPolicy, j: Json, chunkTotal: nat, declared: bool)
    requires DecodedFile(policy, j, chunkTotal, declared).Ok?
    ensures
      var step := DecodedFile(policy, j, chunkTotal, declared).value;
      step == StepTo(step.file, chunkTotal, declared)
  {
  }

  function CountChunks(files: seq<ManifestFile>): nat {
    if files == [] then 0 else |files[0].chunks| + CountChunks(files[1..])
  }

  function CountPackages(files: seq<ManifestFile>): nat {
    if files == [] then 0 else (if files[0].path == PACKAGE then 1 else 0) + CountPackages(files[1..])
  }

  ghost predicate FilesReadAs(policy: PathPolicy, items: seq<Json>, files: seq<ManifestFile>) {
    |items| == |files| && forall i :: 0 <= i < |items| ==> FileReadsAs(policy, items[i], files[i])
  }

  lemma FilesReadFirst(policy: PathPolicy, items: seq<Json>, files: seq<ManifestFile>)
    requires items != [] && files != []
    ensures FilesReadAs(policy, items, files) <==>
      FileReadsAs(policy, items[0], files[0]) && FilesReadAs(policy, items[1..], files[1..])
  {
    assert forall k :: 0 < k < |items| ==> items[k] == items[1..][k - 1];
    assert forall k :: 0 < k < |files| ==> files[k] == files[1..][k - 1];
  }

  lemma DecodedFilesFirst(policy: PathPolicy, items: seq<Json>, chunkTotal: nat, declared: bool, files: seq<ManifestFile>)
    requires items != [] && files != []
    ensures
      var step := StepTo(files[0], chunkTotal, declared);
      DecodedFiles(policy, items, chunkTotal, declared) == Ok(files) <==>
        && DecodedFile(policy, items[0], chunkTotal, declared) == Ok(step)
        && step.chunkTotal <= 16384
        && DecodedFiles(policy, items[1..], step.chunkTotal, step.declared) == Ok(files[1..])
  {
    assert files == [files[0]] + files[1..];
    if DecodedFile(policy, items[0], chunkTotal, declared).Ok? {
      FileCarriesOn(policy, items[0], chunkTotal, declared);
    }
  }

  /** At most 16384 chunks and one package, those before included. */
  predicate Fit(files: seq<ManifestFile>, chunkTotal: nat, declared: bool) {
    chunkTotal + CountChunks(files) <= 16384 && CountPackages(files) + (if declared then 1 else 0) <= 1
  }

  lemma FitFirst(files: seq<ManifestFile>, chunkTotal: nat, declared: bool)
    requires files != []
    ensures
      var f := files[0];
      Fit(files, chunkTotal, declared) <==>
        && chunkTotal + |f.chunks| <= 16384 && !(declared && f.path == PACKAGE)
        && Fit(files[1..], chunkTotal + |f.chunks|, declared || f.path == PACKAGE)
  {
  }

  ghost predicate AllReadAs(policy: PathPolicy, items: seq<Json>, chunkTotal: nat, declared: bool, files: seq<ManifestFile>) {
    FilesReadAs(policy, items, files) && Fit(files, chunkTotal, declared)
  }

  lemma AllReadFirst(policy: PathPolicy, items: seq<Json>, chunkTotal: nat, declared: bool, files: seq<ManifestFile>)
    requires items != [] && files != []
    ensures
      var step := StepTo(files[0], chunkTotal, declared);
      AllReadAs(policy, items, chunkTotal, declared, files) <==>
        && DecodedFile(policy, items[0], chunkTotal, declared) == Ok(step)
        && step.chunkTotal <= 16384
        && AllReadAs(policy, items[1..], step.chunkTotal, step.declared, files[1..])
  {
    FileExactly(policy, items[0], chunkTotal, declared, files[0]);
    FilesReadFirst(policy, items, files);
    FitFirst(files, chunkTotal, declared);
  }

  /** Files are read exactly from items that say so, while there are at most 16384 chunks and one package in all. */
  lemma {:induction false} FilesExactly(policy: PathPolicy, items: seq<Json>, chunkTotal: nat, declared: bool, files: seq<ManifestFile>)
    requires chunkTotal <= 16384
    ensures DecodedFiles(policy, items, chunkTotal, declared) == Ok(files) <==> AllReadAs(policy, items, chunkTotal, declared, files)
    decreases items
  {
    if items == [] || files == [] {
      NothingRead(policy, items, chunkTotal, declared, files);
    } else {
      var step := StepTo(files[0], chunkTotal, declared);
      DecodedFilesFirst(policy, items, chunkTotal, declared, files);
      AllReadFirst(policy, items, chunkTotal, declared, files);
      if step.chunkTotal <= 16384 {
        FilesExactly(policy, items[1..], step.chunkTotal, step.declared, files[1..]);
      }
    }
  }

  lemma NothingRead(policy: PathPolicy, items: seq<Json>, chunkTotal: nat, declared: bool, files: seq<ManifestFile>)
    requires chunkTotal <= 16384 && (items == [] || files == [])
    ensures DecodedFiles(policy, items, chunkTotal, declared) == Ok(files) <==> AllReadAs(policy, items, chunkTotal, declared, files)
  {
  }

  // ---- Documents

  /** Absent, or a text the image check accepts within its limit. */
  predicate ImageFits(image: ImageCheck, fields: map<Name, Json>, name: Name, limit: nat) {
    name in fields ==> fields[name].Text? && image(fields[name].text, limit)
  }

  /** The description: absent for none, otherwise a text of at most 4096 bytes without a NUL. */
  predicate Describes(fields: map<Name, Json>, description: string) {
    && (if DESCRIPTION in fields then fields[DESCRIPTION] == Text(description) else description == "")
    && |description| <= 4096
    && forall i :: 0 <= i < |description| ==> description[i] as int != 0
  }

  ghost predicate ReadsAs(policy: PathPolicy, image: ImageCheck, document: Json, m: ModManifest) {
    && document.Object?
    && var fields := document.fields;
    && PUBLISHER in fields && fields[PUBLISHER] == Text(ToHex(m.publisher))
    && MOD in fields && fields[MOD] == Text(m.modName)
    && VERSION in fields && fields[VERSION] == Unsigned(m.version)
    && FILES in fields && fields[FILES].Array? && FilesReadAs(policy, fields[FILES].items, m.files)
    && 0 < |m.files| && Fit(m.files, 0, false)
    && Describes(fields, m.description)
    && ImageFits(image, fields, THUMBNAIL, 65536)
    && ImageFits(image, fields, PREVIEW, 393216)
  }

  /** Everything but the files. */
  predicate HeaderReadsAs(image: ImageCheck, document: Json, publisher: Fingerprint, modName: string, version: nat, description: string) {
    && document.Object?
    && var fields := document.fields;
    && PUBLISHER in fields && fields[PUBLISHER] == Text(ToHex(publisher))
    && MOD in fields && fields[MOD] == Text(modName)
    && VERSION in fields && fields[VERSION] == Unsigned(version)
    && FILES in fields && fields[FILES].Array? && fields[FILES].items != []
    && Describes(fields, description)
    && ImageFits(image, fields, THUMBNAIL, 65536)
    && ImageFits(image, fields, PREVIEW, 393216)
  }

  lemma HeaderExactly(image: ImageCheck, document: Json, publisher: Fingerprint, modName: string, version: nat, description: string)
    ensures HeaderReadsAs(image, document, publisher, modName, version, description) <==>
      && HeaderError(image, document).None?
      && FromHex(document.fields[PUBLISHER].text, 8) == Some(publisher)
      && document.fields[MOD].text == modName
      && document.fields[VERSION].number == version
      && DescriptionOf(document.fields) == Ok(description)
  {
    if document.Object? && PUBLISHER in document.fields && document.fields[PUBLISHER].Text? {
      FixedHexExactly(document.fields[PUBLISHER].text, publisher);
    }
  }

  /** A document is accepted as a manifest exactly when it says that manifest, within every limit. */
  lemma DecodedExactly(policy: PathPolicy, image: ImageCheck, document: Json, m: ModManifest)
    ensures Decoded(policy, image, document) == Ok(m) <==> ReadsAs(policy, image, document, m)
  {
    HeaderExactly(image, document, m.publisher, m.modName, m.version, m.description);
    if document.Object? && FILES in document.fields && document.fields[FILES].Array? {
      FilesExactly(policy, document.fields[FILES].items, 0, false, m.files);
    }
  }
}
