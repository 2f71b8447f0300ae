/** The manifest document: what is written, what is accepted back, and within which limits. */
module Manifest {
  import opened Wrappers
  import opened Sequences
  import opened Bytes
  import opened Content
  import opened PayloadPath

  // ---- Documents

  /** The names the codec knows in an object; anything else is only carried. */
  datatype Name =
    | PUBLISHER | MOD | VERSION | FILES | PATH | SIZE | CHUNKS | DIGEST | LENGTH | DESCRIPTION | THUMBNAIL | PREVIEW
    | OTHER(name: string)

  datatype Json =
    | Null
    | Boolean(value: bool)
    | Unsigned(number: nat)
    | Negative(magnitude: nat)
    | Fraction(real)
    | Text(text: string)
    | Array(items: seq<Json>)
    | Object(fields: map<Name, Json>)

  datatype DecodeError =
    | Malformed | FieldMissing | FieldWrongType | PublisherRejected | NoFiles | PathRejected | TooManyChunks | ChunkLayoutInvalid

  const DESCRIPTION_BYTES: nat := 4096
  const MANIFEST_CHUNK_COUNT: nat := 16384
  const MANIFEST_CHUNK_LENGTH_BYTES: nat := 16 * 1024 * 1024
  const MANIFEST_FILE_BYTES: nat := 64 * 1024 * 1024 * 1024
  const THUMBNAIL_BYTES: nat := 64 * 1024
  const PREVIEW_IMAGE_BYTES: nat := 384 * 1024
  const MIN_PACKAGE_BYTES: nat := 32 + 64 + 2
  const MAX_PACKAGE_BYTES: nat := 128 * 1024 * 1024 + 4096 + 64 + 32

  /** Which paths a manifest may name, and how they are spelled. */
  type PathPolicy = string -> Result<string, PathError>

  /** Whether a text decodes to an image of at most so many bytes. */
  type ImageCheck = (string, nat) -> bool

  // ---- Encoding

  function EncodedChunk(c: ManifestChunk): Json {
    Object(map[DIGEST := Text(ToHex(c.digest)), LENGTH := Unsigned(c.length)])
  }

  function EncodedChunks(chunks: seq<ManifestChunk>): (r: seq<Json>)
    ensures |r| == |chunks|
  {
    if chunks == [] then [] else [EncodedChunk(chunks[0])] + EncodedChunks(chunks[1..])
  }

  function EncodedFile(f: ManifestFile): Json {
    Object(map[PATH := Text(f.path), SIZE := Unsigned(f.size), CHUNKS := Array(EncodedChunks(f.chunks))])
  }

  function EncodedFiles(files: seq<ManifestFile>): (r: seq<Json>)
    ensures |r| == |files|
  {
    if files == [] then [] else [EncodedFile(files[0])] + EncodedFiles(files[1..])
  }

  function Encoded(m: ModManifest): Json {
    Object(map[
      PUBLISHER := Text(ToHex(m.publisher)),
      MOD := Text(m.modName),
      VERSION := Unsigned(m.version),
      DESCRIPTION := Text(m.description),
      FILES := Array(EncodedFiles(m.files))])
  }

  // ---- Decoding

  function DecodedChunk(j: Json, cursor: nat): Result<ManifestChunk, DecodeError> {
    if !j.Object? then Err(FieldWrongType)
    else if DIGEST !in j.fields || LENGTH !in j.fields then Err(FieldMissing)
    else if !j.fields[DIGEST].Text? || !j.fields[LENGTH].Unsigned? then Err(FieldWrongType)
    else
      var digest := FromHex(j.fields[DIGEST].text, 32);
      var length := j.fields[LENGTH].number;
      if digest.None? then Err(ChunkLayoutInvalid)
      else if length == 0 || length > MANIFEST_CHUNK_LENGTH_BYTES then Err(ChunkLayoutInvalid)
      else Ok(ManifestChunk(digest.value, cursor, length))
  }

  /** Offsets are not stored: each chunk starts where the one before it ends. */
  function DecodedChunks(items: seq<Json>, cursor: nat): (r: Result<seq<ManifestChunk>, DecodeError>)
    ensures r.Ok? ==> |r.value| == |items|
    decreases items
  {
    if items == [] then Ok([])
    else
      var first := DecodedChunk(items[0], cursor);
      if first.Err? then Err(first.error)
      else
        var rest := DecodedChunks(items[1..], cursor + first.value.length);
        if rest.Err? then rest else Ok([first.value] + rest.value)
  }

  /** Chunks lie end to end from `cursor` and end with the file. */
  function LayoutError(chunks: seq<ManifestChunk>, cursor: nat, size: nat): Option<DecodeError>
    decreases chunks
  {
    if chunks == [] then (if cursor != size then Some(ChunkLayoutInvalid) else None)
    else if chunks[0].length == 0 || chunks[0].offset != cursor then Some(ChunkLayoutInvalid)
    else LayoutError(chunks[1..], cursor + chunks[0].length, size)
  }

  /** A decoded file, the chunks counted so far, and whether the extension has been declared. */
  datatype FileStep = FileStep(file: ManifestFile, chunkTotal: nat, declared: bool)

  predicate ExtensionRefused(path: string, size: nat, declared: bool) {
    path == EXTENSION_FILE_NAME && (declared || size < MIN_PACKAGE_BYTES || size > MAX_PACKAGE_BYTES)
  }

  function DecodedFile(policy: PathPolicy, j: Json, chunkTotal: nat, declared: bool): Result<FileStep, DecodeError> {
    if !j.Object? then Err(FieldWrongType)
    else if PATH !in j.fields || SIZE !in j.fields || CHUNKS !in j.fields then Err(FieldMissing)
    else if !j.fields[PATH].Text? || !j.fields[SIZE].Unsigned? || !j.fields[CHUNKS].Array? then Err(FieldWrongType)
    else
      var normalised := policy(j.fields[PATH].text);
      var size := j.fields[SIZE].number;
      var items := j.fields[CHUNKS].items;
      if normalised.Err? then Err(PathRejected)
      else if ExtensionRefused(normalised.value, size, declared) then Err(PathRejected)
      else if size > MANIFEST_FILE_BYTES then Err(ChunkLayoutInvalid)
      else if chunkTotal + |items| > MANIFEST_CHUNK_COUNT then Err(TooManyChunks)
      else
        var chunks := DecodedChunks(items, 0);
        if chunks.Err? then Err(chunks.error)
        else if LayoutError(chunks.value, 0, size).Some? then Err(LayoutError(chunks.value, 0, size).value)
        else
          Ok(FileStep(ManifestFile(normalised.value, size, chunks.value), chunkTotal + |items|,
                      declared || normalised.value == EXTENSION_FILE_NAME))
  }

  function DecodedFiles(policy: PathPolicy, items: seq<Json>, chunkTotal: nat, declared: bool): (r: Result<seq<ManifestFile>, DecodeError>)
    ensures r.Ok? ==> |r.value| == |items|
    decreases items
  {
    if items == [] then Ok([])
    else
      var first := DecodedFile(policy, items[0], chunkTotal, declared);
      if first.Err? then Err(first.error)
      else
        var rest := DecodedFiles(policy, items[1..], first.value.chunkTotal, first.value.declared);
        if rest.Err? then rest else Ok([first.value.file] + rest.value)
  }

  /** Images are checked but not part of this model. */
  function ImageError(image: ImageCheck, fields: map<Name, Json>, name: Name, limit: nat): Option<DecodeError> {
    if name !in fields then None
    else if !fields[name].Text? then Some(FieldWrongType)
    else if !image(fields[name].text, limit) then Some(Malformed)
    else None
  }

  function DescriptionOf(fields: map<Name, Json>): Result<string, DecodeError> {
    if DESCRIPTION !in fields then Ok("")
    else if !fields[DESCRIPTION].Text? then Err(FieldWrongType)
    else if !GoodDescription(fields[DESCRIPTION].text) then Err(Malformed)
    else Ok(fields[DESCRIPTION].text)
  }

  predicate GoodDescription(text: string) {
    |text| <= DESCRIPTION_BYTES && '\0' !in text
  }

  function HeaderError(image: ImageCheck, document: Json): Option<DecodeError> {
    if !document.Object? then Some(Malformed)
    else
      var fields := document.fields;
      if PUBLISHER !in fields || MOD !in fields || VERSION !in fields || FILES !in fields then Some(FieldMissing)
      else if !fields[PUBLISHER].Text? || !fields[MOD].Text? then Some(FieldWrongType)
      else if !fields[VERSION].Unsigned? || !fields[FILES].Array? then Some(FieldWrongType)
      else if ImageError(image, fields, THUMBNAIL, THUMBNAIL_BYTES).Some? then ImageError(image, fields, THUMBNAIL, THUMBNAIL_BYTES)
      else if ImageError(image, fields, PREVIEW, PREVIEW_IMAGE_BYTES).Some? then ImageError(image, fields, PREVIEW, PREVIEW_IMAGE_BYTES)
      else if DescriptionOf(fields).Err? then Some(DescriptionOf(fields).error)
      else if FromHex(fields[PUBLISHER].text, 8).None? then Some(PublisherRejected)
      else if fields[FILES].items == [] then Some(NoFiles)
      else None
  }

  function Decoded(policy: PathPolicy, image: ImageCheck, document: Json): Result<ModManifest, DecodeError> {
    if HeaderError(image, document).Some? then Err(HeaderError(image, document).value)
    else
      var fields := document.fields;
      var files := DecodedFiles(policy, fields[FILES].items, 0, false);
      if files.Err? then Err(files.error)
      else
        Ok(ModManifest(FromHex(fields[PUBLISHER].text, 8).value, fields[MOD].text, fields[VERSION].number,
                       files.value, DescriptionOf(fields).value))
  }

  // ---- The codec's loops

  class ManifestCodec {
    const policy: PathPolicy
    const image: ImageCheck

    constructor (policy: PathPolicy, image: ImageCheck)
      ensures this.policy == policy && this.image == image
    {
      this.policy, this.image := policy, image;
    }

    method Encode(m: ModManifest) returns (document: Json)
      ensures document == Encoded(m)
    {
      var fields := map[
        PUBLISHER := Text(ToHex(m.publisher)),
        MOD := Text(m.modName),
        VERSION := Unsigned(m.version),
        DESCRIPTION := Text(m.description)];
      var files: seq<Json> := [];
      for i := 0 to |m.files|
        invariant files + EncodedFiles(m.files[i..]) == EncodedFiles(m.files)
      {
        var file := m.files[i];
        assert m.files[i..][0] == file && m.files[i..][1..] == m.files[i + 1..];
        var chunks := EncodeChunks(file.chunks);
        files := files + [Object(map[PATH := Text(file.path), SIZE := Unsigned(file.size), CHUNKS := Array(chunks)])];
      }
      assert files + [] == files;
      document := Object(fields[FILES := Array(files)]);
      assert fields[FILES := Array(files)] == Encoded(m).fields;
    }

    method EncodeChunks(list: seq<ManifestChunk>) returns (chunks: seq<Json>)
      ensures chunks == EncodedChunks(list)
    {
      chunks := [];
      for k := 0 to |list|
        invariant chunks + EncodedChunks(list[k..]) == EncodedChunks(list)
      {
        assert list[k..][0] == list[k] && list[k..][1..] == list[k + 1..];
        chunks := chunks + [Object(map[DIGEST := Text(ToHex(list[k].digest)), LENGTH := Unsigned(list[k].length)])];
      }
    }

    method ValidateChunkLayout(file: ManifestFile) returns (r: Option<DecodeError>)
      ensures r == LayoutError(file.chunks, 0, file.size)
    {
      var cursor: nat := 0;
      for k := 0 to |file.chunks|
        invariant LayoutError(file.chunks, 0, file.size) == LayoutError(file.chunks[k..], cursor, file.size)
      {
        var chunk := file.chunks[k];
        assert file.chunks[k..][0] == chunk && file.chunks[k..][1..] == file.chunks[k + 1..];
        if chunk.length == 0 {
          return Some(ChunkLayoutInvalid);
        }
        if chunk.offset != cursor {
          return Some(ChunkLayoutInvalid);
        }
        cursor := cursor + chunk.length;
      }
      if cursor != file.size {
        return Some(ChunkLayoutInvalid);
      }
      return None;
    }

    method DecodeChunks(items: seq<Json>) returns (r: Result<seq<ManifestChunk>, DecodeError>)
      ensures r == DecodedChunks(items, 0)
    {
      var chunks: seq<ManifestChunk> := [];
      var cursor: nat := 0;
      ghost var rest := items;
      AheadOfNone(DecodedChunks(items, 0));
      for k := 0 to |items|
        invariant rest == items[k..]
        invariant DecodedChunks(items, 0) == Ahead(chunks, DecodedChunks(rest, cursor))
      {
        var j := items[k];
        ChunkStep(chunks, rest, cursor);
        assert rest[1..] == items[k + 1..];
        rest := rest[1..];
        if !j.Object? {
          return Err(FieldWrongType);
        }
        if DIGEST !in j.fields || LENGTH !in j.fields {
          return Err(FieldMissing);
        }
        if !j.fields[DIGEST].Text? || !j.fields[LENGTH].Unsigned? {
          return Err(FieldWrongType);
        }
        var digest := FromHex(j.fields[DIGEST].text, 32);
        if digest.None? {
          return Err(ChunkLayoutInvalid);
        }
        var length := j.fields[LENGTH].number;
        if length == 0 || length > MANIFEST_CHUNK_LENGTH_BYTES {
          return Err(ChunkLayoutInvalid);
        }
        chunks := chunks + [ManifestChunk(digest.value, cursor, length)];
        cursor := cursor + length;
      }
      assert chunks + [] == chunks;
      return Ok(chunks);
    }

    method DecodeFile(j: Json, chunkTotal: nat, declared: bool) returns (r: Result<FileStep, DecodeError>)
      ensures r == DecodedFile(policy, j, chunkTotal, declared)
    {
      if !j.Object? {
        return Err(FieldWrongType);
      }
      if PATH !in j.fields || SIZE !in j.fields || CHUNKS !in j.fields {
        return Err(FieldMissing);
      }
      if !j.fields[PATH].Text? || !j.fields[SIZE].Unsigned? || !j.fields[CHUNKS].Array? {
        return Err(FieldWrongType);
      }
      var normalised := policy(j.fields[PATH].text);
      if normalised.Err? {
        return Err(PathRejected);
      }
      var size := j.fields[SIZE].number;
      var extension := declared;
      if normalised.value == EXTENSION_FILE_NAME {
        if declared || size < MIN_PACKAGE_BYTES || size > MAX_PACKAGE_BYTES {
          return Err(PathRejected);
        }
        extension := true;
      }
      if size > MANIFEST_FILE_BYTES {
        return Err(ChunkLayoutInvalid);
      }
      var total := chunkTotal + |j.fields[CHUNKS].items|;
      if total > MANIFEST_CHUNK_COUNT {
        return Err(TooManyChunks);
      }
      var chunks := DecodeChunks(j.fields[CHUNKS].items);
      if chunks.Err? {
        return Err(chunks.error);
      }
      var file := ManifestFile(normalised.value, size, chunks.value);
      var layout := ValidateChunkLayout(file);
      if layout.Some? {
        return Err(layout.value);
      }
      return Ok(FileStep(file, total, extension));
    }

    method Decode(document: Json) returns (r: Result<ModManifest, DecodeError>)
      ensures r == Decoded(policy, image, document)
    {
      var refused := HeaderError(image, document);
      if refused.Some? {
        return Err(refused.value);
      }
      var fields := document.fields;
      var items := fields[FILES].items;
      var files: seq<ManifestFile> := [];
      var chunkTotal: nat := 0;
      var declared := false;
      ghost var rest := items;
      AheadOfNone(DecodedFiles(policy, items, 0, false));
      for i := 0 to |items|
        invariant rest == items[i..]
        invariant DecodedFiles(policy, items, 0, false) == Ahead(files, DecodedFiles(policy, rest, chunkTotal, declared))
      {
        FilesStep(policy, files, rest, chunkTotal, declared);
        assert rest[1..] == items[i + 1..];
        rest := rest[1..];
        var step := DecodeFile(items[i], chunkTotal, declared);
        if step.Err? {
          return Err(step.error);
        }
        files := files + [step.value.file];
        chunkTotal, declared := step.value.chunkTotal, step.value.declared;
      }
      assert files + [] == files;
      return Ok(ModManifest(FromHex(fields[PUBLISHER].text, 8).value, fields[MOD].text, fields[VERSION].number,
                            files, DescriptionOf(fields).value));
    }
  }

  lemma ChunkStep(chunks: seq<ManifestChunk>, rest: seq<Json>, cursor: nat)
    requires rest != []
    ensures
      var first := DecodedChunk(rest[0], cursor);
      Ahead(chunks, DecodedChunks(rest, cursor))
        == if first.Err? then Err(first.error)
           else Ahead(chunks + [first.value], DecodedChunks(rest[1..], cursor + first.value.length))
  {
    var first := DecodedChunk(rest[0], cursor);
    if first.Ok? {
      var later := DecodedChunks(rest[1..], cursor + first.value.length);
      assert DecodedChunks(rest, cursor) == Ahead([first.value], later);
      AheadTwice(chunks, [first.value], later);
    }
  }

  lemma FilesStep(policy: PathPolicy, files: seq<ManifestFile>, rest: seq<Json>, chunkTotal: nat, declared: bool)
    requires rest != []
    ensures
      var first := DecodedFile(policy, rest[0], chunkTotal, declared);
      Ahead(files, DecodedFiles(policy, rest, chunkTotal, declared))
        == if first.Err? then Err(first.error)
           else Ahead(files + [first.value.file], DecodedFiles(policy, rest[1..], first.value.chunkTotal, first.value.declared))
  {
    var first := DecodedFile(policy, rest[0], chunkTotal, declared);
    if first.Ok? {
      var later := DecodedFiles(policy, rest[1..], first.value.chunkTotal, first.value.declared);
      assert DecodedFiles(policy, rest, chunkTotal, declared) == Ahead([first.value.file], later);
      AheadTwice(files, [first.value.file], later);
    }
  }

  // ---- Which manifests survive

  predicate GoodLength(c: ManifestChunk) {
    0 < c.length <= MANIFEST_CHUNK_LENGTH_BYTES
  }

  ghost predicate GoodFile(policy: PathPolicy, f: ManifestFile) {
    && policy(f.path) == Ok(f.path)
    && f.size <= MANIFEST_FILE_BYTES
    && (f.path == EXTENSION_FILE_NAME ==> MIN_PACKAGE_BYTES <= f.size <= MAX_PACKAGE_BYTES)
    && (forall k :: 0 <= k < |f.chunks| ==> GoodLength(f.chunks[k]))
    && ChunksTile(f.chunks, 0, f.size)
  }

  function ChunkTotal(files: seq<ManifestFile>): nat {
    if files == [] then 0 else |files[0].chunks| + ChunkTotal(files[1..])
  }

  function Extensions(files: seq<ManifestFile>): nat {
    if files == [] then 0 else (if files[0].path == EXTENSION_FILE_NAME then 1 else 0) + Extensions(files[1..])
  }

  ghost predicate GoodFiles(policy: PathPolicy, files: seq<ManifestFile>) {
    forall i :: 0 <= i < |files| ==> GoodFile(policy, files[i])
  }

  /** Everything the decoder insists on; nothing in it mentions encoding or decoding. */
  ghost predicate WellFormed(policy: PathPolicy, m: ModManifest) {
    && m.files != []
    && GoodFiles(policy, m.files)
    && ChunkTotal(m.files) <= MANIFEST_CHUNK_COUNT
    && Extensions(m.files) <= 1
    && GoodDescription(m.description)
  }

  /** Spelling a path twice changes nothing. */
  ghost predicate Settles(policy: PathPolicy) {
    forall path :: policy(path).Ok? ==> policy(policy(path).value) == policy(path)
  }

  lemma ChunkRoundTrip(c: ManifestChunk)
    requires GoodLength(c)
    ensures DecodedChunk(EncodedChunk(c), c.offset) == Ok(c)
  {
    HexRoundTrip(c.digest);
  }

  lemma {:induction false} ChunksRoundTrip(chunks: seq<ManifestChunk>, cursor: nat, size: nat)
    requires ChunksTile(chunks, cursor, size) && forall k :: 0 <= k < |chunks| ==> GoodLength(chunks[k])
    ensures DecodedChunks(EncodedChunks(chunks), cursor) == Ok(chunks)
    decreases chunks
  {
    if chunks != [] {
      assert GoodLength(chunks[0]);
      ChunkRoundTrip(chunks[0]);
      ChunksRoundTrip(chunks[1..], cursor + chunks[0].length, size);
      ChunkStep([], EncodedChunks(chunks), cursor);
      AheadOfNone(DecodedChunks(EncodedChunks(chunks), cursor));
      assert EncodedChunks(chunks)[1..] == EncodedChunks(chunks[1..]);
      assert [] + [chunks[0]] + chunks[1..] == chunks;
    }
  }

  lemma {:induction false} LayoutErrorExactly(chunks: seq<ManifestChunk>, cursor: nat, size: nat)
    ensures LayoutError(chunks, cursor, size).None? <==> ChunksTile(chunks, cursor, size)
    decreases chunks
  {
    if chunks != [] {
      LayoutErrorExactly(chunks[1..], cursor + chunks[0].length, size);
    }
  }

  lemma FileRoundTrip(policy: PathPolicy, f: ManifestFile, chunkTotal: nat, declared: bool)
    requires GoodFile(policy, f) && chunkTotal + |f.chunks| <= MANIFEST_CHUNK_COUNT
    requires declared ==> f.path != EXTENSION_FILE_NAME
    ensures DecodedFile(policy, EncodedFile(f), chunkTotal, declared)
         == Ok(FileStep(f, chunkTotal + |f.chunks|, declared || f.path == EXTENSION_FILE_NAME))
  {
    ChunksRoundTrip(f.chunks, 0, f.size);
    LayoutErrorExactly(f.chunks, 0, f.size);
  }

  lemma DecodedInFront(policy: PathPolicy, f: ManifestFile, items: seq<Json>, files: seq<ManifestFile>, chunkTotal: nat, declared: bool, step: FileStep)
    requires DecodedFile(policy, EncodedFile(f), chunkTotal, declared) == Ok(step) && step.file == f
    requires DecodedFiles(policy, items, step.chunkTotal, step.declared) == Ok(files)
    ensures DecodedFiles(policy, [EncodedFile(f)] + items, chunkTotal, declared) == Ok([f] + files)
  {
    var all := [EncodedFile(f)] + items;
    assert all[0] == EncodedFile(f) && all[1..] == items;
  }

  lemma {:induction false} FilesRoundTrip(policy: PathPolicy, files: seq<ManifestFile>, chunkTotal: nat, declared: bool)
    requires GoodFiles(policy, files) && chunkTotal + ChunkTotal(files) <= MANIFEST_CHUNK_COUNT
    requires Extensions(files) + (if declared then 1 else 0) <= 1
    ensures DecodedFiles(policy, EncodedFiles(files), chunkTotal, declared) == Ok(files)
    decreases files
  {
    if files != [] {
      var f, more := files[0], files[1..];
      var step := FileStep(f, chunkTotal + |f.chunks|, declared || f.path == EXTENSION_FILE_NAME);
      FileRoundTrip(policy, f, chunkTotal, declared);
      FilesRoundTrip(policy, more, step.chunkTotal, step.declared);
      DecodedInFront(policy, f, EncodedFiles(more), more, chunkTotal, declared, step);
      assert [f] + more == files;
    }
  }

  lemma HeaderRoundTrip(image: ImageCheck, m: ModManifest)
    ensures HeaderError(image, Encoded(m)).None? <==> m.files != [] && GoodDescription(m.description)
    ensures FromHex(ToHex(m.publisher), 8) == Some(m.publisher)
  {
    HexRoundTrip(m.publisher);
  }

  // ---- What acceptance guarantees

  lemma {:induction false} DecodedChunksGood(items: seq<Json>, cursor: nat)
    requires DecodedChunks(items, cursor).Ok?
    ensures forall k :: 0 <= k < |items| ==> GoodLength(DecodedChunks(items, cursor).value[k])
    decreases items
  {
    if items != [] {
      var first := DecodedChunk(items[0], cursor).value;
      DecodedChunksGood(items[1..], cursor + first.length);
      var all := DecodedChunks(items, cursor).value;
      forall k | 0 <= k < |items|
        ensures GoodLength(all[k])
      {
        assert k > 0 ==> all[k] == DecodedChunks(items[1..], cursor + first.length).value[k - 1];
      }
    }
  }

  lemma DecodedFileGood(policy: PathPolicy, j: Json, chunkTotal: nat, declared: bool)
    requires Settles(policy) && DecodedFile(policy, j, chunkTotal, declared).Ok?
    ensures
      var r := DecodedFile(policy, j, chunkTotal, declared).value;
      && GoodFile(policy, r.file)
      && r.chunkTotal == chunkTotal + |r.file.chunks| <= MANIFEST_CHUNK_COUNT
      && (declared ==> r.file.path != EXTENSION_FILE_NAME)
      && r.declared == (declared || r.file.path == EXTENSION_FILE_NAME)
  {
    var r := DecodedFile(policy, j, chunkTotal, declared).value;
    DecodedChunksGood(j.fields[CHUNKS].items, 0);
    LayoutErrorExactly(r.file.chunks, 0, r.file.size);
  }

  lemma {:induction false} DecodedFilesGood(policy: PathPolicy, items: seq<Json>, chunkTotal: nat, declared: bool)
    requires Settles(policy) && DecodedFiles(policy, items, chunkTotal, declared).Ok? && chunkTotal <= MANIFEST_CHUNK_COUNT
    ensures
      var files := DecodedFiles(policy, items, chunkTotal, declared).value;
      && GoodFiles(policy, files)
      && chunkTotal + ChunkTotal(files) <= MANIFEST_CHUNK_COUNT
      && Extensions(files) + (if declared then 1 else 0) <= 1
    decreases items
  {
    if items != [] {
      DecodedFileGood(policy, items[0], chunkTotal, declared);
      var first := DecodedFile(policy, items[0], chunkTotal, declared).value;
      DecodedFilesGood(policy, items[1..], first.chunkTotal, first.declared);
      var rest := DecodedFiles(policy, items[1..], first.chunkTotal, first.declared).value;
      var files := DecodedFiles(policy, items, chunkTotal, declared).value;
      assert files == [first.file] + rest && files[1..] == rest;
    }
  }

  /** Whatever is accepted is well formed. */
  lemma AcceptedWellFormed(policy: PathPolicy, image: ImageCheck, document: Json)
    requires Settles(policy) && Decoded(policy, image, document).Ok?
    ensures WellFormed(policy, Decoded(policy, image, document).value)
  {
    DecodedFilesGood(policy, document.fields[FILES].items, 0, false);
  }

  /** A manifest survives encoding and decoding exactly when it is well formed. */
  lemma ManifestRoundTrip(policy: PathPolicy, image: ImageCheck, m: ModManifest)
    requires Settles(policy)
    ensures Decoded(policy, image, Encoded(m)) == Ok(m) <==> WellFormed(policy, m)
  {
    HeaderRoundTrip(image, m);
    if WellFormed(policy, m) {
      FilesRoundTrip(policy, m.files, 0, false);
    }
    if Decoded(policy, image, Encoded(m)) == Ok(m) {
      AcceptedWellFormed(policy, image, Encoded(m));
    }
  }

  /** A document once accepted may be written again and again: it keeps meaning the same manifest. */
  lemma ReencodingIsStable(policy: PathPolicy, image: ImageCheck, document: Json)
    requires Settles(policy) && Decoded(policy, image, document).Ok?
    ensures Decoded(policy, image, Encoded(Decoded(policy, image, document).value)) == Decoded(policy, image, document)
  {
    AcceptedWellFormed(policy, image, document);
    ManifestRoundTrip(policy, image, Decoded(policy, image, document).value);
  }

  // ---- Limits

  function LengthTotal(chunks: seq<ManifestChunk>): nat {
    if chunks == [] then 0 else chunks[0].length + LengthTotal(chunks[1..])
  }

  /** The running offset never passes 2 to the 38, so it fits its 64 bits whatever the document says. */
  lemma {:induction false} RunningOffsetBounded(items: seq<Json>, cursor: nat)
    requires DecodedChunks(items, cursor).Ok?
    ensures LengthTotal(DecodedChunks(items, cursor).value) <= |items| * MANIFEST_CHUNK_LENGTH_BYTES
    ensures |items| <= MANIFEST_CHUNK_COUNT ==> LengthTotal(DecodedChunks(items, cursor).value) <= 0x40_0000_0000
    decreases items
  {
    if items != [] {
      var first := DecodedChunk(items[0], cursor).value;
      RunningOffsetBounded(items[1..], cursor + first.length);
      var rest := DecodedChunks(items[1..], cursor + first.length).value;
      assert ([first] + rest)[1..] == rest;
    }
  }

  /** In an accepted manifest every chunk lies inside its file, and no file is over 64 GiB. */
  lemma {:induction false} TiledInside(chunks: seq<ManifestChunk>, start: nat, stop: nat)
    requires ChunksTile(chunks, start, stop)
    ensures start <= stop && forall k :: 0 <= k < |chunks| ==> start <= chunks[k].offset && chunks[k].offset + chunks[k].length <= stop
    decreases chunks
  {
    if chunks != [] {
      TiledInside(chunks[1..], start + chunks[0].length, stop);
    }
  }

  lemma AcceptedOffsets(policy: PathPolicy, image: ImageCheck, document: Json, i: nat, k: nat)
    requires Settles(policy) && Decoded(policy, image, document).Ok?
    requires
      var m := Decoded(policy, image, document).value;
      i < |m.files| && k < |m.files[i].chunks|
    ensures
      var f := Decoded(policy, image, document).value.files[i];
      f.chunks[k].offset + f.chunks[k].length <= f.size <= 0x10_0000_0000
  {
    AcceptedWellFormed(policy, image, document);
    var f := Decoded(policy, image, document).value.files[i];
    assert GoodFile(policy, f);
    TiledInside(f.chunks, 0, f.size);
  }

  // ---- The real path policy

  const PAYLOAD_POLICY: PathPolicy := (path: string) => Normalise(path)

  lemma PayloadPolicySettles()
    ensures Settles(PAYLOAD_POLICY)
  {
    forall path | PAYLOAD_POLICY(path).Ok?
      ensures PAYLOAD_POLICY(PAYLOAD_POLICY(path).value) == PAYLOAD_POLICY(path)
    {
      NormaliseIdempotent(path);
    }
  }

  lemma TotalsAdd(f: ManifestFile, files: seq<ManifestFile>)
    ensures ChunkTotal([f] + files) == |f.chunks| + ChunkTotal(files)
    ensures Extensions([f] + files) == (if f.path == EXTENSION_FILE_NAME then 1 else 0) + Extensions(files)
  {
    assert ([f] + files)[1..] == files;
  }

  /** Nothing stops a document from naming one path twice. */
  lemma RepeatedPathAccepted(image: ImageCheck, m: ModManifest, f: ManifestFile)
    requires GoodFile(PAYLOAD_POLICY, f) && f.path != EXTENSION_FILE_NAME && 2 * |f.chunks| <= MANIFEST_CHUNK_COUNT
    requires m.files == [f, f] && GoodDescription(m.description)
    ensures Decoded(PAYLOAD_POLICY, image, Encoded(m)) == Ok(m)
  {
    PayloadPolicySettles();
    TotalsAdd(f, []);
    TotalsAdd(f, [f]);
    assert [f] + [f] == m.files && [f] + [] == [f];
    ManifestRoundTrip(PAYLOAD_POLICY, image, m);
  }
}
