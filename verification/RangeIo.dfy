/** Reading and writing torrent blocks through the chunk tables. */
module RangeIo {
  import opened Wrappers
  import opened Sequences
  import opened Bytes
  import opened FileStore
  import opened ChunkLocator

  datatype StorageRole = SeedRead | FetchWrite

  datatype ReadOutcome = Success | Absent | Fault

  /** One stretch of a block inside one torrent file (its index and its name), as the torrent layout maps it. */
  datatype FileSlice = FileSlice(file: nat, name: string, offset: nat, size: nat, pad: bool)

  function SliceTotal(slices: seq<FileSlice>): nat {
    if slices == [] then 0 else slices[0].size + SliceTotal(slices[1..])
  }

  // ---- Writing

  datatype WriteResult = WriteResult(files: Files, ok: bool)

  function WriteLocations(files: Files, locations: seq<ChunkLocation>, offset: nat, bytes: seq<byte>): WriteResult
    decreases locations
  {
    if locations == [] then WriteResult(files, true)
    else if offset + |bytes| > locations[0].length then WriteResult(files, false)
    else
      var l := locations[0];
      WriteLocations(
        files[l.file := Overwritten(ContentAt(files, l.file), l.offset + offset, bytes)], locations[1..], offset, bytes)
  }

  function WriteSlice(files: Files, table: Table, savePath: Path, slice: FileSlice, bytes: seq<byte>): WriteResult {
    if slice.pad then WriteResult(files, true)
    else
      var locations := Lookup(table, slice.name);
      if locations != [] then WriteLocations(files, locations, slice.offset, bytes)
      else
        var path := Join(savePath, slice.name);
        WriteResult(files[path := Overwritten(ContentAt(files, path), slice.offset, bytes)], true)
  }

  function WriteSlices(files: Files, table: Table, savePath: Path, slices: seq<FileSlice>, bytes: seq<byte>): WriteResult
    requires SliceTotal(slices) <= |bytes|
    decreases slices
  {
    if slices == [] then WriteResult(files, bytes == [])
    else
      var first := WriteSlice(files, table, savePath, slices[0], bytes[..slices[0].size]);
      if !first.ok then first
      else WriteSlices(first.files, table, savePath, slices[1..], bytes[slices[0].size..])
  }

  lemma WriteUnfolds(
    files: Files, table: Table, savePath: Path, slices: seq<FileSlice>, bytes: seq<byte>,
    rest: seq<FileSlice>, head: seq<byte>, tail: seq<byte>)
    requires slices != [] && rest == slices[1..] && bytes == head + tail && |head| == slices[0].size && SliceTotal(rest) <= |tail|
    ensures
      var first := WriteSlice(files, table, savePath, slices[0], head);
      WriteSlices(files, table, savePath, slices, bytes)
        == if first.ok then WriteSlices(first.files, table, savePath, rest, tail) else first
  {
    assert bytes[..slices[0].size] == head && bytes[slices[0].size..] == tail;
  }

  lemma WriteNext(
    files: Files, table: Table, savePath: Path, slices: seq<FileSlice>, source: seq<byte>, i: nat, consumed: nat,
    slice: FileSlice, bytes: seq<byte>) returns (first: WriteResult)
    requires i < |slices| && consumed + SliceTotal(slices[i..]) <= |source|
    requires slice == slices[i] && consumed + slice.size <= |source| && bytes == source[consumed..consumed + slice.size]
    ensures SliceTotal(slices[i..]) == slice.size + SliceTotal(slices[i + 1..])
    ensures first == WriteSlice(files, table, savePath, slice, bytes)
    ensures WriteSlices(files, table, savePath, slices[i..], source[consumed..])
         == if first.ok then WriteSlices(first.files, table, savePath, slices[i + 1..], source[consumed + slice.size..]) else first
  {
    var left, rest, end := slices[i..], slices[i + 1..], consumed + slice.size;
    assert left != [] && left[0] == slice && left[1..] == rest;
    first := WriteSlice(files, table, savePath, slice, bytes);
    assert source[consumed..] == bytes + source[end..];
    WriteUnfolds(files, table, savePath, left, source[consumed..], rest, bytes, source[end..]);
  }

  lemma WriteDone(files: Files, table: Table, savePath: Path, slices: seq<FileSlice>, source: seq<byte>, consumed: nat)
    requires consumed <= |source|
    ensures WriteSlices(files, table, savePath, slices[|slices|..], source[consumed..]) == WriteResult(files, consumed == |source|)
  {
  }

  // ---- Reading

  function ReadRange(files: Files, path: Path, offset: nat, size: nat): Option<seq<byte>> {
    if path in files then Slice(files[path], offset, size) else None
  }

  function ReadSlice(files: Files, seeded: Table, fetched: Table, savePath: Path, role: StorageRole, slice: FileSlice)
    : (r: Result<seq<byte>, ReadOutcome>)
    ensures r.Ok? ==> |r.value| == slice.size
    ensures r.Err? ==> r.error != Success
  {
    if slice.pad then Ok(Zeros(slice.size))
    else if role == FetchWrite then ReadFetched(files, fetched, savePath, slice)
    else
      var locations := Lookup(seeded, slice.name);
      if locations == [] then Err(Fault)
      else if slice.offset + slice.size > locations[0].length then Err(Fault)
      else
        match ReadRange(files, locations[0].file, locations[0].offset + slice.offset, slice.size)
        case None => Err(Fault)
        case Some(bytes) => Ok(bytes)
  }

  function ReadFetched(files: Files, table: Table, savePath: Path, slice: FileSlice): (r: Result<seq<byte>, ReadOutcome>)
    ensures r.Ok? ==> |r.value| == slice.size
    ensures r.Err? ==> r.error != Success
  {
    var locations := Lookup(table, slice.name);
    if locations == [] then
      match ReadRange(files, Join(savePath, slice.name), slice.offset, slice.size)
      case None => Err(Absent)
      case Some(bytes) => Ok(bytes)
    else if slice.offset + slice.size > locations[0].length then Err(Fault)
    else
      match ReadRange(files, locations[0].file, locations[0].offset + slice.offset, slice.size)
      case None => Err(Absent)
      case Some(bytes) => Ok(bytes)
  }

  function ReadSlices(files: Files, seeded: Table, fetched: Table, savePath: Path, role: StorageRole, slices: seq<FileSlice>)
    : (r: Result<seq<byte>, ReadOutcome>)
    ensures r.Ok? ==> |r.value| == SliceTotal(slices)
    ensures r.Err? ==> r.error != Success
  {
    if slices == [] then Ok([])
    else
      match ReadSlice(files, seeded, fetched, savePath, role, slices[0])
      case Err(outcome) => Err(outcome)
      case Ok(bytes) => Ahead(bytes, ReadSlices(files, seeded, fetched, savePath, role, slices[1..]))
  }

  /** Everything before this slice could be read, and it could not. */
  predicate FailsFirst(files: Files, seeded: Table, fetched: Table, savePath: Path, role: StorageRole, slices: seq<FileSlice>, i: nat)
  {
    && i < |slices|
    && (forall k :: 0 <= k < i ==> ReadSlice(files, seeded, fetched, savePath, role, slices[k]).Ok?)
    && ReadSlice(files, seeded, fetched, savePath, role, slices[i]).Err?
  }

  /** The file of the last slice that is not padding. */
  function LastNamed(slices: seq<FileSlice>, named: nat): nat {
    if slices == [] then named
    else if slices[|slices| - 1].pad then LastNamed(slices[..|slices| - 1], named)
    else slices[|slices| - 1].file
  }

  /** The first `i` slices could be read and gave these bytes. */
  ghost predicate ReadSoFar(
    files: Files, seeded: Table, fetched: Table, savePath: Path, role: StorageRole, slices: seq<FileSlice>, i: nat, served: seq<byte>)
  {
    && i <= |slices|
    && (forall k :: 0 <= k < i ==> ReadSlice(files, seeded, fetched, savePath, role, slices[k]).Ok?)
    && ReadSlices(files, seeded, fetched, savePath, role, slices)
         == Ahead(served, ReadSlices(files, seeded, fetched, savePath, role, slices[i..]))
  }

  lemma ReadFails(
    files: Files, seeded: Table, fetched: Table, savePath: Path, role: StorageRole, slices: seq<FileSlice>, i: nat, served: seq<byte>)
    requires i < |slices| && ReadSoFar(files, seeded, fetched, savePath, role, slices, i, served)
    requires ReadSlice(files, seeded, fetched, savePath, role, slices[i]).Err?
    ensures FailsFirst(files, seeded, fetched, savePath, role, slices, i)
    ensures ReadSlices(files, seeded, fetched, savePath, role, slices)
         == Err(ReadSlice(files, seeded, fetched, savePath, role, slices[i]).error)
    ensures !slices[i].pad
  {
  }

  lemma ReadAll(
    files: Files, seeded: Table, fetched: Table, savePath: Path, role: StorageRole, slices: seq<FileSlice>, served: seq<byte>)
    requires ReadSoFar(files, seeded, fetched, savePath, role, slices, |slices|, served)
    ensures ReadSlices(files, seeded, fetched, savePath, role, slices) == Ok(served)
  {
    assert served + [] == served;
  }

  lemma ReadOneMore(
    files: Files, seeded: Table, fetched: Table, savePath: Path, role: StorageRole, slices: seq<FileSlice>, i: nat, served: seq<byte>)
    requires i < |slices| && ReadSoFar(files, seeded, fetched, savePath, role, slices, i, served)
    requires ReadSlice(files, seeded, fetched, savePath, role, slices[i]).Ok?
    ensures ReadSoFar(files, seeded, fetched, savePath, role, slices, i + 1,
                      served + ReadSlice(files, seeded, fetched, savePath, role, slices[i]).value)
  {
    assert slices[i..][1..] == slices[i + 1..];
    AheadTwice(served, ReadSlice(files, seeded, fetched, savePath, role, slices[i]).value,
               ReadSlices(files, seeded, fetched, savePath, role, slices[i + 1..]));
  }

  lemma LastNamedStep(slices: seq<FileSlice>, i: nat, named: nat)
    requires i < |slices|
    ensures LastNamed(slices[..i + 1], named) == if slices[i].pad then LastNamed(slices[..i], named) else slices[i].file
  {
    assert slices[..i + 1][..i] == slices[..i];
  }

  class ChunkRangeIo {
    const locator: Locator
    const disk: Disk

    constructor (locator: Locator, disk: Disk)
      ensures this.locator == locator && this.disk == disk
    {
      this.locator := locator;
      this.disk := disk;
    }

    method WriteOne(slice: FileSlice, savePath: Path, bytes: seq<byte>) returns (ok: bool)
      modifies disk
      ensures WriteResult(disk.files, ok) == WriteSlice(old(disk.files), locator.destinations, savePath, slice, bytes)
    {
      if slice.pad {
        return true;
      }
      var locations := Lookup(locator.destinations, slice.name);
      if locations == [] {
        disk.WriteAt(Join(savePath, slice.name), slice.offset, bytes);
        return true;
      }
      for k := 0 to |locations|
        invariant WriteLocations(old(disk.files), locations, slice.offset, bytes)
               == WriteLocations(disk.files, locations[k..], slice.offset, bytes)
      {
        var location := locations[k];
        assert locations[k..][1..] == locations[k + 1..];
        if slice.offset + |bytes| > location.length {
          return false;
        }
        disk.WriteAt(location.file, location.offset + slice.offset, bytes);
      }
      return true;
    }

    /** `slices` is the torrent layout's answer for the block, in order and as long as the block. */
    method Write(slices: seq<FileSlice>, savePath: Path, role: StorageRole, source: seq<byte>) returns (ok: bool)
      requires SliceTotal(slices) <= |source|
      modifies disk
      ensures role != FetchWrite ==> !ok && disk.files == old(disk.files)
      ensures role == FetchWrite ==>
        WriteResult(disk.files, ok) == WriteSlices(old(disk.files), locator.destinations, savePath, slices, source)
    {
      if role != FetchWrite {
        return false;
      }
      ghost var table := locator.destinations;
      ghost var outcome := WriteSlices(disk.files, table, savePath, slices, source);
      var consumed: nat := 0;
      assert slices[0..] == slices && source[0..] == source;
      for i := 0 to |slices|
        invariant consumed + SliceTotal(slices[i..]) <= |source|
        invariant outcome == WriteSlices(disk.files, table, savePath, slices[i..], source[consumed..])
      {
        var slice := slices[i];
        var bytes := source[consumed..consumed + slice.size];
        ghost var first := WriteNext(disk.files, table, savePath, slices, source, i, consumed, slice, bytes);
        ok := WriteOne(slice, savePath, bytes);
        assert WriteResult(disk.files, ok) == first;
        if !ok {
          return;
        }
        assert outcome == WriteSlices(disk.files, table, savePath, slices[i + 1..], source[consumed + slice.size..]);
        consumed := consumed + slice.size;
      }
      WriteDone(disk.files, table, savePath, slices, source, consumed);
      return consumed == |source|;
    }

    static method CopyInto(target: array<byte>, at: nat, bytes: seq<byte>)
      requires at + |bytes| <= target.Length
      modifies target
      ensures target[..at + |bytes|] == old(target[..at]) + bytes
    {
      forall k | 0 <= k < |bytes| {
        target[at + k] := bytes[k];
      }
      assert target[..at] == old(target[..at]);
      assert target[at..at + |bytes|] == bytes;
    }

    /** The first slice to fail is named by its file; `named` is what the caller's file index held before. */
    method Read(slices: seq<FileSlice>, savePath: Path, role: StorageRole, target: array<byte>, named: nat)
      returns (outcome: ReadOutcome, failedFile: nat)
      requires SliceTotal(slices) <= target.Length
      modifies target
      ensures
        match ReadSlices(disk.files, locator.locations, locator.destinations, savePath, role, slices)
        case Err(failure) =>
          && outcome == failure
          && exists i: nat ::
               && FailsFirst(disk.files, locator.locations, locator.destinations, savePath, role, slices, i)
               && failedFile == slices[i].file
        case Ok(bytes) =>
          && target[..|bytes|] == bytes
          && outcome == (if |bytes| == target.Length then Success else Fault)
          && failedFile == LastNamed(slices, named)
    {
      ghost var files, seeded, fetched := disk.files, locator.locations, locator.destinations;
      failedFile := named;
      var written: nat := 0;
      AheadOfNone(ReadSlices(files, seeded, fetched, savePath, role, slices));
      assert target[..0] == [] && slices[0..] == slices;
      for i := 0 to |slices|
        invariant written + SliceTotal(slices[i..]) <= target.Length
        invariant ReadSoFar(files, seeded, fetched, savePath, role, slices, i, target[..written])
        invariant failedFile == LastNamed(slices[..i], named)
      {
        assert slices[i..][1..] == slices[i + 1..];
        LastNamedStep(slices, i, named);
        if !slices[i].pad {
          failedFile := slices[i].file;
        }
        var read := ReadSlice(disk.files, locator.locations, locator.destinations, savePath, role, slices[i]);
        if read.Err? {
          ReadFails(files, seeded, fetched, savePath, role, slices, i, target[..written]);
          return read.error, failedFile;
        }
        ReadOneMore(files, seeded, fetched, savePath, role, slices, i, target[..written]);
        CopyInto(target, written, read.value);
        written := written + slices[i].size;
      }
      ReadAll(files, seeded, fetched, savePath, role, slices, target[..written]);
      assert slices[..|slices|] == slices;
      return if written == target.Length then Success else Fault, failedFile;
    }
  }
}
