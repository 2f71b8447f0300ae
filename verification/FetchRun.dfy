/** Runs of block writes: what the destination files hold after each of them. */
module FetchRun {
  import opened Wrappers
  import opened Bytes
  import opened FileStore
  import opened ChunkLocator
  import opened RangeIo

  /** Two table entries share a byte of a file. */
  predicate Meet(a: ChunkLocation, b: ChunkLocation) {
    a.file == b.file && a.offset < b.offset + b.length && b.offset < a.offset + a.length
  }

  ghost predicate EntryApart(locations: seq<ChunkLocation>) {
    forall i, j :: 0 <= i < j < |locations| ==> !Meet(locations[i], locations[j])
  }

  /** Destinations are pairwise disjoint, within one chunk and between chunks. */
  ghost predicate TableApart(table: Table) {
    && (forall name :: name in table ==> EntryApart(table[name]))
    && (forall m, n, a, b :: m in table && n in table && m != n && a in table[m] && b in table[n] ==> !Meet(a, b))
  }

  predicate Inside(files: Files, l: ChunkLocation) {
    l.file in files && l.offset + l.length <= |files[l.file]|
  }

  ghost predicate TableInside(table: Table, files: Files, savePath: Path) {
    forall name, l :: name in table && l in table[name] ==> Inside(files, l) && !Under(l.file, savePath)
  }

  predicate CoversByte(l: ChunkLocation, file: Path, i: nat) {
    l.file == file && l.offset <= i < l.offset + l.length
  }

  ghost predicate TableCovers(table: Table, file: Path, i: nat) {
    exists name, l :: name in table && l in table[name] && CoversByte(l, file, i)
  }

  // ---- One stretch of one chunk

  /** Byte i of a file after a stretch of a chunk went to all its destinations. */
  function ByteAfter(files: Files, locations: seq<ChunkLocation>, offset: nat, bytes: seq<byte>, file: Path, i: nat): byte
    requires file in files && i < |files[file]|
  {
    if locations == [] then files[file][i]
    else if locations[0].file == file && locations[0].offset + offset <= i < locations[0].offset + offset + |bytes| then
      bytes[i - locations[0].offset - offset]
    else ByteAfter(files, locations[1..], offset, bytes, file, i)
  }

  /** Same paths, same sizes. */
  ghost predicate SameShape(a: Files, b: Files) {
    a.Keys == b.Keys && forall q :: q in a ==> |a[q]| == |b[q]|
  }

  function WroteOne(files: Files, l: ChunkLocation, offset: nat, bytes: seq<byte>): Files {
    files[l.file := Overwritten(ContentAt(files, l.file), l.offset + offset, bytes)]
  }

  lemma WriteOneLocation(files: Files, l: ChunkLocation, offset: nat, bytes: seq<byte>)
    requires Inside(files, l) && offset + |bytes| <= l.length
    ensures SameShape(WroteOne(files, l, offset, bytes), files)
  {
  }

  lemma {:induction false} WriteLocationsBytes(
    files: Files, locations: seq<ChunkLocation>, offset: nat, bytes: seq<byte>, q: Path, i: nat)
    requires EntryApart(locations) && forall l :: l in locations ==> Inside(files, l)
    requires WriteLocations(files, locations, offset, bytes).ok
    ensures
      var after := WriteLocations(files, locations, offset, bytes).files;
      && SameShape(after, files)
      && (q in files && i < |files[q]| ==> after[q][i] == ByteAfter(files, locations, offset, bytes, q, i))
    decreases locations
  {
    if locations != [] {
      var l := locations[0];
      var next := WroteOne(files, l, offset, bytes);
      WriteLocationsFit(files, locations, offset, bytes);
      WriteOneLocation(files, l, offset, bytes);
      forall m | m in locations[1..]
        ensures Inside(next, m)
      {
        assert m in locations;
      }
      WriteLocationsBytes(next, locations[1..], offset, bytes, q, i);
      if q in files && i < |files[q]| {
        ByteAfterNext(files, next, locations, offset, bytes, q, i);
      }
    }
  }

  /** A byte inside the first destination is not touched again by the later ones. */
  lemma ByteAfterNext(
    files: Files, next: Files, locations: seq<ChunkLocation>, offset: nat, bytes: seq<byte>, q: Path, i: nat)
    requires locations != [] && EntryApart(locations) && Inside(files, locations[0])
    requires offset + |bytes| <= locations[0].length
    requires next == WroteOne(files, locations[0], offset, bytes)
    requires forall l :: l in locations ==> offset + |bytes| <= l.length
    requires q in files && q in next && i < |files[q]| && i < |next[q]|
    ensures ByteAfter(next, locations[1..], offset, bytes, q, i) == ByteAfter(files, locations, offset, bytes, q, i)
  {
    var l := locations[0];
    if l.file == q && l.offset + offset <= i < l.offset + offset + |bytes| {
      forall m | m in locations[1..]
        ensures !CoversByte(m, q, i)
      {
        var k :| 0 <= k < |locations[1..]| && locations[1..][k] == m;
        assert !Meet(locations[0], locations[k + 1]);
      }
      ByteUntouched(next, locations[1..], offset, bytes, q, i);
    } else {
      ByteAfterSame(files, next, locations[1..], offset, bytes, q, i);
    }
  }

  lemma {:induction false} ByteUntouched(files: Files, locations: seq<ChunkLocation>, offset: nat, bytes: seq<byte>, q: Path, i: nat)
    requires q in files && i < |files[q]|
    requires forall l :: l in locations ==> !CoversByte(l, q, i) && offset + |bytes| <= l.length
    ensures ByteAfter(files, locations, offset, bytes, q, i) == files[q][i]
  {
    if locations != [] {
      assert locations[0] in locations;
      ByteUntouched(files, locations[1..], offset, bytes, q, i);
    }
  }

  lemma {:induction false} ByteAfterSame(
    a: Files, b: Files, locations: seq<ChunkLocation>, offset: nat, bytes: seq<byte>, q: Path, i: nat)
    requires q in a && q in b && i < |a[q]| && i < |b[q]| && a[q][i] == b[q][i]
    ensures ByteAfter(a, locations, offset, bytes, q, i) == ByteAfter(b, locations, offset, bytes, q, i)
  {
    if locations != [] {
      ByteAfterSame(a, b, locations[1..], offset, bytes, q, i);
    }
  }

  lemma {:induction false} WriteLocationsFit(files: Files, locations: seq<ChunkLocation>, offset: nat, bytes: seq<byte>)
    requires WriteLocations(files, locations, offset, bytes).ok
    ensures forall l :: l in locations ==> offset + |bytes| <= l.length
    decreases locations
  {
    if locations != [] {
      var l := locations[0];
      WriteLocationsFit(WroteOne(files, l, offset, bytes), locations[1..], offset, bytes);
    }
  }

  lemma {:induction false} ByteAfterHit(files: Files, locations: seq<ChunkLocation>, offset: nat, bytes: seq<byte>, l: ChunkLocation, o: nat)
    requires EntryApart(locations) && l in locations && Inside(files, l) && o < l.length
    requires forall m :: m in locations ==> offset + |bytes| <= m.length
    ensures ByteAfter(files, locations, offset, bytes, l.file, l.offset + o)
         == if offset <= o < offset + |bytes| then bytes[o - offset] else files[l.file][l.offset + o]
  {
    if locations[0] == l {
      forall m | m in locations[1..]
        ensures !CoversByte(m, l.file, l.offset + o)
      {
        var k :| 0 <= k < |locations[1..]| && locations[1..][k] == m;
        assert !Meet(locations[0], locations[k + 1]);
      }
      ByteUntouched(files, locations[1..], offset, bytes, l.file, l.offset + o);
    } else {
      var k :| 0 <= k < |locations| && locations[k] == l;
      assert !Meet(locations[0], locations[k]);
      assert !CoversByte(locations[0], l.file, l.offset + o);
      assert locations[1..][k - 1] == l;
      ByteAfterHit(files, locations[1..], offset, bytes, l, o);
    }
  }

  // ---- What has been written so far, chunk by chunk

  /** The last byte written at each offset of each chunk. */
  type Store = map<(string, nat), byte>

  function KeyOf(table: Table, name: string): (key: string)
    ensures Lookup(table, name) == At(table, key)
  {
    if WithSlashes(name) in table then WithSlashes(name) else LeafOf(WithSlashes(name))
  }

  function Stored(store: Store, key: string, offset: nat, bytes: seq<byte>): (r: Store)
    ensures forall k, o :: (k, o) in r <==> (k, o) in store || (k == key && offset <= o < offset + |bytes|)
    ensures forall k, o :: (k, o) in r ==>
      r[(k, o)] == if k == key && offset <= o < offset + |bytes| then bytes[o - offset] else store[(k, o)]
  {
    store + map o | offset <= o < offset + |bytes| :: (key, o) := bytes[o - offset]
  }

  function StoreSlice(store: Store, table: Table, slice: FileSlice, bytes: seq<byte>): Store {
    if slice.pad || Lookup(table, slice.name) == [] then store
    else Stored(store, KeyOf(table, slice.name), slice.offset, bytes)
  }

  function StoreSlices(store: Store, table: Table, slices: seq<FileSlice>, bytes: seq<byte>): Store
    requires SliceTotal(slices) <= |bytes|
    decreases slices
  {
    if slices == [] then store
    else
      StoreSlices(StoreSlice(store, table, slices[0], bytes[..slices[0].size]), table, slices[1..], bytes[slices[0].size..])
  }

  // ---- The invariant

  function Expected(store: Store, name: string, o: nat, original: byte): byte {
    if (name, o) in store then store[(name, o)] else original
  }

  ghost predicate MirrorsByte(files: Files, base: Files, store: Store, name: string, l: ChunkLocation, o: nat) {
    && Inside(files, l)
    && Inside(base, l)
    && (o < l.length ==> files[l.file][l.offset + o] == Expected(store, name, o, base[l.file][l.offset + o]))
  }

  ghost predicate KeepsByte(files: Files, base: Files, table: Table, q: Path, i: nat) {
    q in base && i < |base[q]| && !TableCovers(table, q, i) ==> q in files && i < |files[q]| && files[q][i] == base[q][i]
  }

  ghost predicate ShapeOff(files: Files, base: Files, savePath: Path) {
    forall q :: !Under(q, savePath) ==> (q in files <==> q in base) && (q in base ==> |files[q]| == |base[q]|)
  }

  /**
   * Every destination holds the last byte written at each chunk offset, and its original byte where
   * none was; outside the destinations nothing moved, except below the torrent's own folder.
   */
  ghost predicate Mirrors(files: Files, base: Files, table: Table, savePath: Path, store: Store) {
    && (forall name, l, o: nat :: name in table && l in table[name] ==> MirrorsByte(files, base, store, name, l, o))
    && (forall q, i: nat :: !Under(q, savePath) ==> KeepsByte(files, base, table, q, i))
    && ShapeOff(files, base, savePath)
  }

  lemma WriteMirrorsByte(
    files: Files, base: Files, table: Table, store: Store, key: string, offset: nat, bytes: seq<byte>,
    name: string, l: ChunkLocation, o: nat)
    requires TableApart(table) && key in table && name in table && l in table[name]
    requires (forall m :: m in table[key] ==> Inside(files, m)) && WriteLocations(files, table[key], offset, bytes).ok
    requires MirrorsByte(files, base, store, name, l, o)
    ensures MirrorsByte(WriteLocations(files, table[key], offset, bytes).files, base, Stored(store, key, offset, bytes), name, l, o)
  {
    DestinationByte(files, table, key, offset, bytes, name, l, o);
  }

  lemma WriteKeepsByte(
    files: Files, base: Files, table: Table, key: string, offset: nat, bytes: seq<byte>, q: Path, i: nat)
    requires TableApart(table) && key in table
    requires (forall m :: m in table[key] ==> Inside(files, m)) && WriteLocations(files, table[key], offset, bytes).ok
    requires KeepsByte(files, base, table, q, i)
    ensures KeepsByte(WriteLocations(files, table[key], offset, bytes).files, base, table, q, i)
  {
    if q in base && i < |base[q]| && !TableCovers(table, q, i) {
      UncoveredByte(files, table, key, offset, bytes, q, i);
    }
  }

  lemma WriteToDestinations(
    files: Files, base: Files, table: Table, savePath: Path, store: Store, key: string, offset: nat, bytes: seq<byte>)
    requires TableApart(table) && Mirrors(files, base, table, savePath, store)
    requires key in table && WriteLocations(files, table[key], offset, bytes).ok
    ensures Mirrors(WriteLocations(files, table[key], offset, bytes).files, base, table, savePath, Stored(store, key, offset, bytes))
  {
    var after := WriteLocations(files, table[key], offset, bytes).files;
    forall l | l in table[key]
      ensures Inside(files, l)
    {
      assert MirrorsByte(files, base, store, key, l, 0);
    }
    forall name, l, o: nat | name in table && l in table[name]
      ensures MirrorsByte(after, base, Stored(store, key, offset, bytes), name, l, o)
    {
      assert MirrorsByte(files, base, store, name, l, o);
      WriteMirrorsByte(files, base, table, store, key, offset, bytes, name, l, o);
    }
    forall q, i: nat | !Under(q, savePath)
      ensures KeepsByte(after, base, table, q, i)
    {
      assert KeepsByte(files, base, table, q, i);
      WriteKeepsByte(files, base, table, key, offset, bytes, q, i);
    }
    assert ShapeOff(after, base, savePath) by {
      WriteLocationsBytes(files, table[key], offset, bytes, "", 0);
    }
  }

  lemma OtherNameClear(table: Table, key: string, name: string, l: ChunkLocation, o: nat)
    requires TableApart(table) && key in table && name in table && name != key && l in table[name] && o < l.length
    ensures forall m :: m in table[key] ==> !CoversByte(m, l.file, l.offset + o)
  {
    forall m | m in table[key]
      ensures !CoversByte(m, l.file, l.offset + o)
    {
      assert !Meet(m, l);
    }
  }

  lemma DestinationByteAfter(
    files: Files, table: Table, key: string, offset: nat, bytes: seq<byte>, name: string, l: ChunkLocation, o: nat)
    requires TableApart(table) && key in table && name in table && l in table[name]
    requires Inside(files, l) && o < l.length && forall m :: m in table[key] ==> offset + |bytes| <= m.length
    ensures ByteAfter(files, table[key], offset, bytes, l.file, l.offset + o)
         == if name == key && offset <= o < offset + |bytes| then bytes[o - offset] else files[l.file][l.offset + o]
  {
    if name == key {
      ByteAfterHit(files, table[key], offset, bytes, l, o);
    } else {
      OtherNameClear(table, key, name, l, o);
      ByteUntouched(files, table[key], offset, bytes, l.file, l.offset + o);
    }
  }

  lemma DestinationByte(
    files: Files, table: Table, key: string, offset: nat, bytes: seq<byte>, name: string, l: ChunkLocation, o: nat)
    requires TableApart(table) && key in table && name in table && l in table[name]
    requires (forall m :: m in table[key] ==> Inside(files, m)) && Inside(files, l)
    requires WriteLocations(files, table[key], offset, bytes).ok
    ensures
      var after := WriteLocations(files, table[key], offset, bytes).files;
      && Inside(after, l)
      && (o < l.length ==>
            after[l.file][l.offset + o]
              == if name == key && offset <= o < offset + |bytes| then bytes[o - offset] else files[l.file][l.offset + o])
  {
    WriteLocationsFit(files, table[key], offset, bytes);
    WriteLocationsBytes(files, table[key], offset, bytes, l.file, l.offset + o);
    if o < l.length {
      DestinationByteAfter(files, table, key, offset, bytes, name, l, o);
    }
  }

  lemma UncoveredByte(files: Files, table: Table, key: string, offset: nat, bytes: seq<byte>, q: Path, i: nat)
    requires TableApart(table) && key in table && !TableCovers(table, q, i)
    requires forall m :: m in table[key] ==> Inside(files, m)
    requires q in files && i < |files[q]| && WriteLocations(files, table[key], offset, bytes).ok
    ensures
      var after := WriteLocations(files, table[key], offset, bytes).files;
      q in after && i < |after[q]| && after[q][i] == files[q][i]
  {
    var locations := table[key];
    WriteLocationsFit(files, locations, offset, bytes);
    WriteLocationsBytes(files, locations, offset, bytes, q, i);
    forall m | m in locations
      ensures !CoversByte(m, q, i)
    {
      assert CoversByte(m, q, i) ==> TableCovers(table, q, i);
    }
    ByteUntouched(files, locations, offset, bytes, q, i);
  }

  lemma WriteBelowSavePath(
    files: Files, base: Files, table: Table, savePath: Path, store: Store, path: Path, content: seq<byte>)
    requires TableInside(table, base, savePath) && Under(path, savePath)
    requires Mirrors(files, base, table, savePath, store)
    ensures Mirrors(files[path := content], base, table, savePath, store)
  {
    var after := files[path := content];
    forall name, l, o: nat | name in table && l in table[name]
      ensures MirrorsByte(after, base, store, name, l, o)
    {
      assert MirrorsByte(files, base, store, name, l, o);
    }
    forall q, i: nat | !Under(q, savePath)
      ensures KeepsByte(after, base, table, q, i)
    {
      assert KeepsByte(files, base, table, q, i);
    }
  }

  lemma WriteSliceMirrors(
    files: Files, base: Files, table: Table, savePath: Path, store: Store, slice: FileSlice, bytes: seq<byte>)
    requires TableApart(table) && TableInside(table, base, savePath)
    requires Mirrors(files, base, table, savePath, store)
    requires WriteSlice(files, table, savePath, slice, bytes).ok
    ensures Mirrors(WriteSlice(files, table, savePath, slice, bytes).files, base, table, savePath, StoreSlice(store, table, slice, bytes))
  {
    if !slice.pad {
      var key := KeyOf(table, slice.name);
      if Lookup(table, slice.name) != [] {
        WriteToDestinations(files, base, table, savePath, store, key, slice.offset, bytes);
      } else {
        var path := Join(savePath, slice.name);
        assert savePath + "/" <= path;
        WriteBelowSavePath(files, base, table, savePath, store, path, Overwritten(ContentAt(files, path), slice.offset, bytes));
      }
    }
  }

  lemma {:induction false} WriteSlicesMirrors(
    files: Files, base: Files, table: Table, savePath: Path, store: Store, slices: seq<FileSlice>, bytes: seq<byte>)
    requires TableApart(table) && TableInside(table, base, savePath)
    requires Mirrors(files, base, table, savePath, store)
    requires SliceTotal(slices) <= |bytes| && WriteSlices(files, table, savePath, slices, bytes).ok
    ensures Mirrors(WriteSlices(files, table, savePath, slices, bytes).files, base, table, savePath,
      StoreSlices(store, table, slices, bytes))
    decreases slices
  {
    if slices != [] {
      var head := bytes[..slices[0].size];
      var first := WriteSlice(files, table, savePath, slices[0], head);
      WriteSliceMirrors(files, base, table, savePath, store, slices[0], head);
      WriteSlicesMirrors(first.files, base, table, savePath, StoreSlice(store, table, slices[0], head), slices[1..], bytes[slices[0].size..]);
    }
  }

  // ---- Whole runs

  datatype Block = Block(slices: seq<FileSlice>, bytes: seq<byte>)

  ghost predicate WellMapped(blocks: seq<Block>) {
    forall i :: 0 <= i < |blocks| ==> SliceTotal(blocks[i].slices) <= |blocks[i].bytes|
  }

  /** The disk after writing block after block, stopping at the first failure. */
  function WriteBlocks(files: Files, table: Table, savePath: Path, blocks: seq<Block>): WriteResult
    requires WellMapped(blocks)
    decreases blocks
  {
    if blocks == [] then WriteResult(files, true)
    else
      assert SliceTotal(blocks[0].slices) <= |blocks[0].bytes|;
      var first := WriteSlices(files, table, savePath, blocks[0].slices, blocks[0].bytes);
      if !first.ok then first else WriteBlocks(first.files, table, savePath, blocks[1..])
  }

  function StoreBlocks(store: Store, table: Table, blocks: seq<Block>): Store
    requires WellMapped(blocks)
    decreases blocks
  {
    if blocks == [] then store
    else
      assert SliceTotal(blocks[0].slices) <= |blocks[0].bytes|;
      StoreBlocks(StoreSlices(store, table, blocks[0].slices, blocks[0].bytes), table, blocks[1..])
  }

  lemma {:induction false} BlocksMirror(
    files: Files, base: Files, table: Table, savePath: Path, store: Store, blocks: seq<Block>)
    requires TableApart(table) && TableInside(table, base, savePath) && WellMapped(blocks)
    requires Mirrors(files, base, table, savePath, store)
    requires WriteBlocks(files, table, savePath, blocks).ok
    ensures Mirrors(WriteBlocks(files, table, savePath, blocks).files, base, table, savePath, StoreBlocks(store, table, blocks))
    decreases blocks
  {
    if blocks != [] {
      assert SliceTotal(blocks[0].slices) <= |blocks[0].bytes|;
      var first := WriteSlices(files, table, savePath, blocks[0].slices, blocks[0].bytes);
      WriteSlicesMirrors(files, base, table, savePath, store, blocks[0].slices, blocks[0].bytes);
      BlocksMirror(first.files, base, table, savePath,
        StoreSlices(store, table, blocks[0].slices, blocks[0].bytes), blocks[1..]);
    }
  }

  lemma MirrorsStart(files: Files, table: Table, savePath: Path)
    requires TableInside(table, files, savePath)
    ensures Mirrors(files, files, table, savePath, map[])
  {
  }

  /** Every successful run of block writes from a fresh fetch leaves the disk mirroring what was written. */
  lemma FreshRunMirrors(files: Files, table: Table, savePath: Path, blocks: seq<Block>)
    requires TableApart(table) && TableInside(table, files, savePath) && WellMapped(blocks)
    requires WriteBlocks(files, table, savePath, blocks).ok
    ensures Mirrors(WriteBlocks(files, table, savePath, blocks).files, files, table, savePath, StoreBlocks(map[], table, blocks))
  {
    MirrorsStart(files, table, savePath);
    BlocksMirror(files, files, table, savePath, map[], blocks);
  }

  /** All destinations of a chunk agree on every byte written so far. */
  lemma DestinationsAgree(
    files: Files, base: Files, table: Table, savePath: Path, store: Store, name: string, a: ChunkLocation, b: ChunkLocation, o: nat)
    requires Mirrors(files, base, table, savePath, store) && name in table && a in table[name] && b in table[name]
    requires o < a.length && o < b.length && (name, o) in store
    ensures Inside(files, a) && Inside(files, b)
    ensures files[a.file][a.offset + o] == store[(name, o)] == files[b.file][b.offset + o]
  {
    assert MirrorsByte(files, base, store, name, a, o) && MirrorsByte(files, base, store, name, b, o);
  }

  /** Reading a stretch of a chunk back returns the last bytes written to it. */
  lemma ReadReturnsWritten(
    files: Files, base: Files, table: Table, savePath: Path, store: Store, slice: FileSlice)
    requires Mirrors(files, base, table, savePath, store) && !slice.pad
    requires Lookup(table, slice.name) != [] && slice.offset + slice.size <= Lookup(table, slice.name)[0].length
    requires forall o :: slice.offset <= o < slice.offset + slice.size ==> (KeyOf(table, slice.name), o) in store
    ensures
      var r := ReadFetched(files, table, savePath, slice);
      r.Ok? && forall o :: slice.offset <= o < slice.offset + slice.size ==>
        r.value[o - slice.offset] == store[(KeyOf(table, slice.name), o)]
  {
    var key := KeyOf(table, slice.name);
    var l := table[key][0];
    assert l in table[key];
    assert MirrorsByte(files, base, store, key, l, 0);
    forall o | slice.offset <= o < slice.offset + slice.size
      ensures files[l.file][l.offset + o] == store[(key, o)]
    {
      assert MirrorsByte(files, base, store, key, l, o);
    }
  }

  // ---- Which reads succeed, and what they give

  /** The stretch of a chunk lies inside it, and its place on disk holds that many bytes. */
  predicate Holds(files: Files, place: ChunkLocation, slice: FileSlice) {
    && slice.offset + slice.size <= place.length
    && place.file in files
    && place.offset + slice.offset + slice.size <= |files[place.file]|
  }

  /** Seeding reads a chunk at the first place registered for it, and faults exactly when that place does not hold it. */
  lemma SeedReadExactly(files: Files, seeded: Table, fetched: Table, savePath: Path, slice: FileSlice)
    requires !slice.pad
    ensures
      var r, places := ReadSlice(files, seeded, fetched, savePath, SeedRead, slice), Lookup(seeded, slice.name);
      if |places| > 0 && Holds(files, places[0], slice) then
        var from := places[0].offset + slice.offset;
        r == Ok(files[places[0].file][from..from + slice.size])
      else r == Err(Fault)
  {
  }

  /**
   * A fetch reads a chunk back from its first destination, and anything else from its own folder; it faults only
   * past the end of a chunk, and otherwise reports what is not there as absent.
   */
  lemma FetchReadExactly(files: Files, seeded: Table, fetched: Table, savePath: Path, slice: FileSlice)
    requires !slice.pad
    ensures
      var r, places := ReadSlice(files, seeded, fetched, savePath, FetchWrite, slice), Lookup(fetched, slice.name);
      var own := ChunkLocation(savePath + "/" + slice.name, 0, slice.offset + slice.size);
      var place := if |places| > 0 then places[0] else own;
      if slice.offset + slice.size > place.length then r == Err(Fault)
      else if Holds(files, place, slice) then
        var from := place.offset + slice.offset;
        r == Ok(files[place.file][from..from + slice.size])
      else r == Err(Absent)
  {
  }

  /** Padding is never on disk: it reads as zeros and writing it changes nothing. */
  lemma PaddingMeaning(files: Files, seeded: Table, fetched: Table, savePath: Path, role: StorageRole, slice: FileSlice, bytes: seq<byte>)
    requires slice.pad
    ensures
      match ReadSlice(files, seeded, fetched, savePath, role, slice)
      case Err(_) => false
      case Ok(zeros) => |zeros| == slice.size && forall i :: 0 <= i < slice.size ==> zeros[i] == 0
    ensures WriteSlice(files, fetched, savePath, slice, bytes) == WriteResult(files, true)
  {
  }

  /** What has no destination goes to its own file below the save path, touches nothing else, and is read back from there. */
  lemma OwnFileReadBack(files: Files, seeded: Table, fetched: Table, savePath: Path, slice: FileSlice, bytes: seq<byte>)
    requires !slice.pad && Lookup(fetched, slice.name) == [] && |bytes| == slice.size > 0
    ensures
      var w := WriteSlice(files, fetched, savePath, slice, bytes);
      && w.ok
      && ReadSlice(w.files, seeded, fetched, savePath, FetchWrite, slice) == Ok(bytes)
      && (forall q :: q != savePath + "/" + slice.name ==> (q in w.files <==> q in files) && (q in files ==> w.files[q] == files[q]))
      && forall i :: 0 <= i < |ContentAt(files, savePath + "/" + slice.name)| && !(slice.offset <= i < slice.offset + slice.size) ==>
        i < |w.files[savePath + "/" + slice.name]|
        && w.files[savePath + "/" + slice.name][i] == ContentAt(files, savePath + "/" + slice.name)[i]
  {
    var path := savePath + "/" + slice.name;
    var w := WriteSlice(files, fetched, savePath, slice, bytes);
    assert w.files == files[path := Overwritten(ContentAt(files, path), slice.offset, bytes)];
    FetchReadExactly(w.files, seeded, fetched, savePath, slice);
  }

  /** A stretch reaching past the end of some destination is refused, whatever was written to the ones before it. */
  lemma {:induction false} WriteRefusedExactly(files: Files, locations: seq<ChunkLocation>, offset: nat, bytes: seq<byte>)
    ensures WriteLocations(files, locations, offset, bytes).ok <==>
      forall k :: 0 <= k < |locations| ==> offset + |bytes| <= locations[k].length
    decreases locations
  {
    if locations != [] && offset + |bytes| <= locations[0].length {
      var l := locations[0];
      WriteRefusedExactly(
        files[l.file := Overwritten(ContentAt(files, l.file), l.offset + offset, bytes)], locations[1..], offset, bytes);
      assert locations == [l] + locations[1..];
    }
  }
}
