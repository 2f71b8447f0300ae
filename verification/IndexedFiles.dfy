/** The index service and its catalogue together: what a waiter that is told true can rely on. */
module IndexedFiles {
  import opened Wrappers
  import opened FileStore
  import opened BaselineCatalogue
  import opened BaselineScheduler

  /** What became of a file; an indexed one whose stamp changed later is discarded. */
  datatype Fate = Indexed(record: BaselineFileRecord) | Failed | Discarded

  /** The scheduler, the adopted records, what the worker made of the file it holds, and the fates so far by path. */
  datatype Indexing = Indexing(
    work: Work,
    adopted: Adopted,
    described: Option<Option<BaselineFileRecord>>,
    fates: map<string, Fate>)

  /** The worker adopts before it completes, so waiters may come, leave and discard in between. */
  datatype IndexOp =
    | DoWork(op: SchedulerOp)
    | DoDescribe(record: Option<BaselineFileRecord>)
    | DoFinish
    | DoDiscard(stamps: Path -> Option<FileStamp>)

  predicate Possible(j: Indexing, op: IndexOp) {
    match op
    case DoWork(s) => !s.DoComplete? && Enabled(j.work, s)
    case DoDescribe(record) =>
      && j.work.active.Some? && j.described.None?
      && (record.Some? ==> record.value.relativePath == j.work.active.value.relativePath)
    case DoFinish => j.work.active.Some? && j.described.Some?
    case DoDiscard(_) => true
  }

  function FateOf(record: Option<BaselineFileRecord>): Fate {
    match record
    case None => Failed
    case Some(r) => Indexed(r)
  }

  function Remaining(root: Path, stamps: Path -> Option<FileStamp>, fate: Fate): Fate {
    if fate.Indexed? && !Current(root, stamps, fate.record) then Discarded else fate
  }

  function After(root: Path, j: Indexing, op: IndexOp): Indexing
    requires Possible(j, op)
  {
    match op
    case DoWork(s) => j.(work := Stepped(j.work, s))
    case DoDescribe(record) =>
      j.(adopted := WithRecord(j.adopted, record),
         described := Some(record),
         fates := j.fates[j.work.active.value.relativePath := FateOf(record)])
    case DoFinish => j.(work := Completed(j.work, j.described.value.Some?), described := None)
    case DoDiscard(stamps) =>
      j.(adopted := Unchanged(root, j.adopted, stamps),
         fates := map path | path in j.fates :: Remaining(root, stamps, j.fates[path]))
  }

  predicate PossibleAll(root: Path, j: Indexing, ops: seq<IndexOp>)
    decreases ops
  {
    ops == [] || (Possible(j, ops[0]) && PossibleAll(root, After(root, j, ops[0]), ops[1..]))
  }

  function AfterAll(root: Path, j: Indexing, ops: seq<IndexOp>): Indexing
    requires PossibleAll(root, j, ops)
    decreases ops
  {
    if ops == [] then j else AfterAll(root, After(root, j, ops[0]), ops[1..])
  }

  function FatesOf(records: Adopted): map<string, Fate> {
    if records == [] then map[] else FatesOf(records[1..])[records[0].relativePath := Indexed(records[0])]
  }

  /** The state after restoring into an empty catalogue. */
  function Started(w: Work, entries: seq<Entry>, loaded: Adopted): Indexing {
    Indexing(RestoredWork(w, entries, ByPath(loaded)), RestoredList([], entries, loaded), None, FatesOf(Sorted(entries, ByPath(loaded)).adopt))
  }

  // ---- What every reachable state keeps

  /** The catalogue holds exactly the records of the files whose fate is to be indexed. */
  ghost predicate CatalogueAgrees(adopted: Adopted, fates: map<string, Fate>) {
    && (forall r :: r in adopted ==> r.relativePath in fates && fates[r.relativePath] == Indexed(r))
    && (forall path :: path in fates && fates[path].Indexed? ==> fates[path].record in adopted && fates[path].record.relativePath == path)
  }

  /** A file's fate is known exactly when the worker is done with it, or holds it and has described it. */
  ghost predicate FateKnown(j: Indexing, e: Entry) {
    e.relativePath in j.fates <==> KeyOf(e) in j.work.done || (j.described.Some? && j.work.active == Some(e))
  }

  ghost predicate Followed(j: Indexing, entries: seq<Entry>) {
    && Sound(j.work, Keys(entries)) && j.work.restored
    && CatalogueAgrees(j.adopted, j.fates)
    && (forall e :: e in entries ==> FateKnown(j, e))
    && (forall e :: e in j.work.queue ==> e in entries)
    && (j.work.active.Some? ==> j.work.active.value in entries)
    && (j.described.Some? ==> j.work.active.Some?)
  }

  lemma SameKeySameEntry(entries: seq<Entry>, a: Entry, b: Entry)
    requires DistinctKeys(entries) && a in entries && b in entries && KeyOf(a) == KeyOf(b)
    ensures a == b
  {
    var i :| 0 <= i < |entries| && entries[i] == a;
    var k :| 0 <= k < |entries| && entries[k] == b;
    assert i == k;
  }

  lemma WorkStepFollowed(j: Indexing, s: SchedulerOp, entries: seq<Entry>)
    requires Followed(j, entries) && Possible(j, DoWork(s))
    ensures Followed(j.(work := Stepped(j.work, s)), entries)
  {
    StepSound(j.work, s, Keys(entries));
    var next := j.(work := Stepped(j.work, s));
    forall e | e in entries
      ensures FateKnown(next, e)
    {
      assert FateKnown(j, e);
    }
    forall e | e in next.work.queue
      ensures e in entries
    {
      assert e in j.work.queue;
    }
    if next.work.active.Some? && j.work.active.None? {
      assert next.work.active.value == j.work.queue[0] && j.work.queue[0] in j.work.queue;
    }
  }

  lemma DescribedAgrees(adopted: Adopted, fates: map<string, Fate>, path: string, record: Option<BaselineFileRecord>)
    requires CatalogueAgrees(adopted, fates) && path !in fates
    requires record.Some? ==> record.value.relativePath == path
    ensures CatalogueAgrees(WithRecord(adopted, record), fates[path := FateOf(record)])
  {
  }

  lemma DescribeFollowed(j: Indexing, record: Option<BaselineFileRecord>, entries: seq<Entry>, root: Path)
    requires DistinctKeys(entries) && Followed(j, entries) && Possible(j, DoDescribe(record))
    ensures Followed(After(root, j, DoDescribe(record)), entries)
  {
    var held := j.work.active.value;
    var next := After(root, j, DoDescribe(record));
    assert FateKnown(j, held);
    assert KeyOf(held) in j.work.pending;
    DescribedAgrees(j.adopted, j.fates, held.relativePath, record);
    forall e | e in entries
      ensures FateKnown(next, e)
    {
      assert FateKnown(j, e);
      if e.relativePath == held.relativePath {
        SameKeySameEntry(entries, e, held);
      }
    }
  }

  lemma FinishFollowed(j: Indexing, entries: seq<Entry>, root: Path)
    requires DistinctKeys(entries) && Followed(j, entries) && Possible(j, DoFinish)
    ensures Followed(After(root, j, DoFinish), entries)
  {
    var held := j.work.active.value;
    var next := After(root, j, DoFinish);
    CompleteSound(j.work, j.described.value.Some?, Keys(entries));
    forall e | e in entries
      ensures FateKnown(next, e)
    {
      assert FateKnown(j, e);
      if KeyOf(e) == KeyOf(held) {
        SameKeySameEntry(entries, e, held);
      }
    }
  }

  lemma DiscardFollowed(j: Indexing, stamps: Path -> Option<FileStamp>, entries: seq<Entry>, root: Path)
    requires Followed(j, entries)
    ensures Followed(After(root, j, IndexOp.DoDiscard(stamps)), entries)
  {
    var next := After(root, j, IndexOp.DoDiscard(stamps));
    assert next.fates.Keys == j.fates.Keys;
    forall e | e in entries
      ensures FateKnown(next, e)
    {
      assert FateKnown(j, e);
    }
  }

  lemma StepFollowed(root: Path, j: Indexing, op: IndexOp, entries: seq<Entry>)
    requires DistinctKeys(entries) && Followed(j, entries) && Possible(j, op)
    ensures Followed(After(root, j, op), entries)
  {
    match op {
      case DoWork(s) => WorkStepFollowed(j, s, entries);
      case DoDescribe(record) => DescribeFollowed(j, record, entries, root);
      case DoFinish => FinishFollowed(j, entries, root);
      case DoDiscard(stamps) => DiscardFollowed(j, stamps, entries, root);
    }
  }

  lemma {:induction false} RunFollowed(root: Path, j: Indexing, ops: seq<IndexOp>, entries: seq<Entry>)
    requires DistinctKeys(entries) && Followed(j, entries) && PossibleAll(root, j, ops)
    ensures Followed(AfterAll(root, j, ops), entries)
    decreases ops
  {
    if ops != [] {
      StepFollowed(root, j, ops[0], entries);
      RunFollowed(root, After(root, j, ops[0]), ops[1..], entries);
    }
  }

  // ---- Restoring

  ghost predicate Keyed(records: map<string, BaselineFileRecord>) {
    forall path :: path in records ==> records[path].relativePath == path
  }

  lemma {:induction false} ByPathKeyed(loaded: Adopted)
    ensures Keyed(ByPath(loaded))
  {
    if loaded != [] {
      ByPathKeyed(loaded[..|loaded| - 1]);
    }
  }

  ghost predicate HasPath(list: Adopted, path: string) {
    exists r :: r in list && r.relativePath == path
  }

  /** What is adopted, queued and left over, record by record and file by file. */
  lemma {:induction false} SortedSplits(entries: seq<Entry>, records: map<string, BaselineFileRecord>)
    requires DistinctKeys(entries) && Keyed(records)
    ensures Splits(entries, records, Sorted(entries, records))
    decreases entries
  {
    if entries != [] {
      var e, rest := entries[0], entries[1..];
      if IsCurrent(records, e) {
        SortedSplits(rest, records - {e.relativePath});
        AdoptedInFront(e, rest, records, Sorted(rest, records - {e.relativePath}));
      } else {
        SortedSplits(rest, records);
        QueuedInFront(e, rest, records, Sorted(rest, records));
      }
      assert entries == [e] + rest;
    }
  }

  /** The scan found a file of this path and stamp. */
  ghost predicate Scanned(entries: seq<Entry>, path: string, stamp: FileStamp) {
    exists e :: e in entries && e.relativePath == path && e.stamp == stamp
  }

  ghost predicate Splits(entries: seq<Entry>, records: map<string, BaselineFileRecord>, s: Sorting) {
    && DistinctPaths(s.adopt)
    && (forall r :: r in s.adopt <==> r.relativePath in records && records[r.relativePath] == r && Scanned(entries, r.relativePath, r.stamp))
    && (forall e :: e in s.queue <==> e in entries && !(e.relativePath in records && records[e.relativePath].stamp == e.stamp))
    && (forall path :: path in s.left <==> path in records && !Scanned(entries, path, records[path].stamp))
  }

  lemma HeadPathAlone(e: Entry, rest: seq<Entry>)
    requires DistinctKeys([e] + rest)
    ensures forall other :: other in rest ==> other.relativePath != e.relativePath
  {
    forall other | other in rest
      ensures other.relativePath != e.relativePath
    {
      var i :| 0 <= i < |rest| && rest[i] == other;
      assert ([e] + rest)[0] == e && ([e] + rest)[i + 1] == other;
    }
  }

  lemma ScannedInFront(e: Entry, rest: seq<Entry>, path: string, stamp: FileStamp)
    ensures Scanned([e] + rest, path, stamp) <==> (e.relativePath == path && e.stamp == stamp) || Scanned(rest, path, stamp)
  {
    var all := [e] + rest;
    assert e in all;
    if o :| o in rest && o.relativePath == path && o.stamp == stamp {
      assert o in all;
    }
  }

  lemma AdoptedInFront(e: Entry, rest: seq<Entry>, records: map<string, BaselineFileRecord>, s: Sorting)
    requires DistinctKeys([e] + rest) && Keyed(records) && IsCurrent(records, e)
    requires Splits(rest, records - {e.relativePath}, s)
    ensures Splits([e] + rest, records, Sorting([records[e.relativePath]] + s.adopt, s.queue, s.left))
  {
    HeadPathAlone(e, rest);
    var head := records[e.relativePath];
    forall i | 0 <= i < |s.adopt|
      ensures s.adopt[i].relativePath != head.relativePath
    {
      assert s.adopt[i] in s.adopt;
    }
    forall r: BaselineFileRecord
      ensures Scanned([e] + rest, r.relativePath, r.stamp) <==>
        (e.relativePath == r.relativePath && e.stamp == r.stamp) || Scanned(rest, r.relativePath, r.stamp)
    {
      ScannedInFront(e, rest, r.relativePath, r.stamp);
    }
    forall path | path in records
      ensures path in s.left <==> !Scanned([e] + rest, path, records[path].stamp)
    {
      ScannedInFront(e, rest, path, records[path].stamp);
    }
  }

  lemma QueuedInFront(e: Entry, rest: seq<Entry>, records: map<string, BaselineFileRecord>, s: Sorting)
    requires DistinctKeys([e] + rest) && Keyed(records) && !IsCurrent(records, e) && Splits(rest, records, s)
    ensures Splits([e] + rest, records, Sorting(s.adopt, [e] + s.queue, s.left))
  {
    forall r: BaselineFileRecord
      ensures Scanned([e] + rest, r.relativePath, r.stamp) <==>
        (e.relativePath == r.relativePath && e.stamp == r.stamp) || Scanned(rest, r.relativePath, r.stamp)
    {
      ScannedInFront(e, rest, r.relativePath, r.stamp);
    }
    forall path | path in records
      ensures Scanned([e] + rest, path, records[path].stamp) <==> Scanned(rest, path, records[path].stamp)
    {
      ScannedInFront(e, rest, path, records[path].stamp);
    }
  }

  /** A file's path is adopted exactly when the file is not queued. */
  lemma AdoptedOrQueued(entries: seq<Entry>, records: map<string, BaselineFileRecord>, s: Sorting, e: Entry)
    requires DistinctKeys(entries) && Keyed(records) && Splits(entries, records, s) && e in entries
    ensures HasPath(s.adopt, e.relativePath) <==> e !in s.queue
  {
    if HasPath(s.adopt, e.relativePath) {
      var r :| r in s.adopt && r.relativePath == e.relativePath;
      var o :| o in entries && o.relativePath == r.relativePath && o.stamp == r.stamp;
      SameKeySameEntry(entries, o, e);
    } else if e !in s.queue {
      assert Scanned(entries, e.relativePath, e.stamp);
    }
  }

  // ---- What restoring keeps, queues and throws away

  /** The store's record for its path: the first one loaded. */
  ghost predicate FirstStored(loaded: Adopted, r: BaselineFileRecord) {
    exists i :: 0 <= i < |loaded| && loaded[i] == r && forall k :: 0 <= k < i ==> loaded[k].relativePath != r.relativePath
  }

  lemma {:induction false} ByPathExactly(loaded: Adopted, r: BaselineFileRecord)
    ensures r.relativePath in ByPath(loaded) && ByPath(loaded)[r.relativePath] == r <==> FirstStored(loaded, r)
    ensures r.relativePath in ByPath(loaded) <==> HasPath(loaded, r.relativePath)
  {
    if loaded != [] {
      var last := |loaded| - 1;
      ByPathExactly(loaded[..last], r);
      FirstStoredEarlier(loaded, r);
      HasPathEarlier(loaded, r.relativePath);
    }
  }

  lemma HasPathEarlier(loaded: Adopted, path: string)
    requires loaded != []
    ensures HasPath(loaded, path) <==> HasPath(loaded[..|loaded| - 1], path) || loaded[|loaded| - 1].relativePath == path
  {
    var last := |loaded| - 1;
    assert loaded == loaded[..last] + [loaded[last]];
    assert loaded[last] in loaded;
  }

  lemma FirstStoredEarlier(loaded: Adopted, r: BaselineFileRecord)
    requires loaded != []
    ensures
      var earlier := loaded[..|loaded| - 1];
      FirstStored(loaded, r) <==> FirstStored(earlier, r) || (loaded[|loaded| - 1] == r && !HasPath(earlier, r.relativePath))
  {
    var last := |loaded| - 1;
    var earlier := loaded[..last];
    assert forall k :: 0 <= k < last ==> earlier[k] == loaded[k];
    if FirstStored(loaded, r) {
      var i :| 0 <= i < |loaded| && loaded[i] == r && forall k :: 0 <= k < i ==> loaded[k].relativePath != r.relativePath;
      if i < last {
        assert earlier[i] == r;
      }
    }
    if FirstStored(earlier, r) {
      var i :| 0 <= i < |earlier| && earlier[i] == r && forall k :: 0 <= k < i ==> earlier[k].relativePath != r.relativePath;
      assert loaded[i] == r;
    }
    if loaded[last] == r && !HasPath(earlier, r.relativePath) {
      forall k | 0 <= k < last
        ensures loaded[k].relativePath != r.relativePath
      {
        assert earlier[k] in earlier;
      }
    }
  }

  lemma {:induction false} AdoptAllHas(list: Adopted, records: Adopted, r: BaselineFileRecord)
    requires DistinctPaths(records)
    ensures r in AdoptAll(list, records) <==> r in records || (r in list && !HasPath(records, r.relativePath))
    decreases records
  {
    if records != [] {
      var first, rest := records[0], records[1..];
      AdoptAllHas(Without(list, first.relativePath) + [first], rest, r);
      assert HasPath(records, r.relativePath) <==> first.relativePath == r.relativePath || HasPath(rest, r.relativePath) by {
        assert first in records;
      }
      assert forall k :: 0 <= k < |rest| ==> rest[k] == records[k + 1] && rest[k].relativePath != first.relativePath;
    }
  }

  /**
   * Restoring adopts exactly the stored records whose file the scan found with the same stamp, in place of whatever
   * the catalogue had for their paths; it queues exactly the files that have no such record, and removes exactly the
   * stored records that have no such file.
   */
  lemma RestoreMeaning(w: Work, list: Adopted, entries: seq<Entry>, loaded: Adopted)
    requires DistinctKeys(entries)
    ensures forall r :: r in RestoredList(list, entries, loaded) <==>
      || (FirstStored(loaded, r) && Scanned(entries, r.relativePath, r.stamp))
      || (r in list && !exists o :: FirstStored(loaded, o) && o.relativePath == r.relativePath && Scanned(entries, o.relativePath, o.stamp))
    ensures forall e :: e in RestoredWork(w, entries, ByPath(loaded)).queue <==>
      e in entries && !exists r :: FirstStored(loaded, r) && r.relativePath == e.relativePath && r.stamp == e.stamp
    ensures forall path :: path in RemovedNames(entries, loaded) <==>
      exists r :: FirstStored(loaded, r) && r.relativePath == path && !Scanned(entries, path, r.stamp)
  {
    var records := ByPath(loaded);
    var s := Sorted(entries, records);
    ByPathKeyed(loaded);
    SortedSplits(entries, records);
    forall r: BaselineFileRecord
      ensures r.relativePath in records && records[r.relativePath] == r <==> FirstStored(loaded, r)
    {
      ByPathExactly(loaded, r);
    }
    forall r: BaselineFileRecord
      ensures r in RestoredList(list, entries, loaded) <==> r in s.adopt || (r in list && !HasPath(s.adopt, r.relativePath))
    {
      AdoptAllHas(list, s.adopt, r);
    }
    forall path | path in records
      ensures FirstStored(loaded, records[path])
    {
      ByPathExactly(loaded, records[path]);
    }
  }

  lemma {:induction false} AdoptAllDistinct(list: Adopted, records: Adopted)
    requires DistinctPaths(list + records)
    ensures AdoptAll(list, records) == list + records
    decreases records
  {
    if records == [] {
      assert list + [] == list;
    } else {
      var r := records[0];
      var all := list + records;
      assert all[|list|] == r;
      forall a | a in list
        ensures a.relativePath != r.relativePath
      {
        var i :| 0 <= i < |list| && list[i] == a;
        assert all[i] == a;
      }
      WithoutAbsent(list, r.relativePath);
      assert list + [r] + records[1..] == all;
      AdoptAllDistinct(list + [r], records[1..]);
    }
  }

  lemma {:induction false} FatesAgree(records: Adopted)
    requires DistinctPaths(records)
    ensures CatalogueAgrees(records, FatesOf(records))
    ensures forall path :: path in FatesOf(records) <==> HasPath(records, path)
  {
    if records != [] {
      var r, rest := records[0], records[1..];
      FatesAgree(rest);
      forall a | a in rest
        ensures a.relativePath != r.relativePath
      {
        var i :| 0 <= i < |rest| && rest[i] == a;
        assert records[i + 1] == a;
      }
      forall path
        ensures path in FatesOf(records) <==> HasPath(records, path)
      {
        assert HasPath(records, path) <==> path == r.relativePath || HasPath(rest, path) by {
          assert r in records;
        }
      }
    }
  }

  lemma QueuedKey(entries: seq<Entry>, queue: seq<Entry>, e: Entry)
    requires DistinctKeys(entries) && e in entries && forall q :: q in queue ==> q in entries
    ensures KeyOf(e) in Keys(queue) <==> e in queue
  {
    KeysIn(queue, KeyOf(e));
    if KeyOf(e) in Keys(queue) {
      var q :| q in queue && KeyOf(q) == KeyOf(e);
      SameKeySameEntry(entries, q, e);
    }
  }

  lemma StartFollowed(w: Work, entries: seq<Entry>, loaded: Adopted)
    requires DistinctKeys(entries)
    ensures Followed(Started(w, entries, loaded), entries)
  {
    var records := ByPath(loaded);
    var s := Sorted(entries, records);
    var j := Started(w, entries, loaded);
    RestoreSound(w, entries, records);
    ByPathKeyed(loaded);
    SortedSplits(entries, records);
    assert [] + s.adopt == s.adopt;
    AdoptAllDistinct([], s.adopt);
    FatesAgree(s.adopt);
    forall e | e in entries
      ensures FateKnown(j, e)
    {
      QueuedKey(entries, s.queue, e);
      KeysIn(entries, KeyOf(e));
      AdoptedOrQueued(entries, records, s, e);
    }
  }

  // ---- What a waiter can rely on

  /** What the catalogue has of a file: every chunk of its record for an indexed one, nothing for any other. */
  ghost predicate Known(root: Path, j: Indexing, path: string) {
    && path in j.fates
    && match j.fates[path]
       case Indexed(r) => r.relativePath == path && r in j.adopted && forall c :: c in r.chunks ==> Located(root, j.adopted, c.digest).Some?
       case _ => forall r :: r in j.adopted ==> r.relativePath != path
  }

  lemma IndexedIsLocated(root: Path, list: Adopted, r: BaselineFileRecord)
    requires r in list
    ensures forall c :: c in r.chunks ==> Located(root, list, c.digest).Some?
  {
    forall c | c in r.chunks
      ensures Located(root, list, c.digest).Some?
    {
      var i :| 0 <= i < |list| && list[i] == r;
      assert Has(list[i], c.digest);
      LocatedExactly(root, list, c.digest);
    }
  }

  lemma FateIsKnown(root: Path, j: Indexing, path: string)
    requires CatalogueAgrees(j.adopted, j.fates) && path in j.fates
    ensures Known(root, j, path)
  {
    if j.fates[path].Indexed? {
      IndexedIsLocated(root, j.adopted, j.fates[path].record);
    }
  }

  /** A waiter may be told true exactly when the worker is done with every file of the scan that is wanted. */
  lemma WaitTrueExactly(w: Work, entries: seq<Entry>, loaded: Adopted, root: Path, ops: seq<IndexOp>, wanted: set<string>)
    requires DistinctKeys(entries) && PossibleAll(root, Started(w, entries, loaded), ops)
    ensures
      var j := AfterAll(root, Started(w, entries, loaded), ops);
      AllIndexed(j.work, wanted) <==>
        forall e :: e in entries && KeyOf(e) in wanted ==> e.relativePath in j.fates && j.work.active != Some(e)
  {
    var j := AfterAll(root, Started(w, entries, loaded), ops);
    StartFollowed(w, entries, loaded);
    RunFollowed(root, Started(w, entries, loaded), ops, entries);
    DoneExactly(j, entries, wanted);
  }

  lemma DoneExactly(j: Indexing, entries: seq<Entry>, wanted: set<string>)
    requires DistinctKeys(entries) && Followed(j, entries)
    ensures AllIndexed(j.work, wanted) <==>
      forall e :: e in entries && KeyOf(e) in wanted ==> e.relativePath in j.fates && j.work.active != Some(e)
  {
    AwaitTrueExactly(j.work, wanted, Keys(entries));
    forall e | e in entries
      ensures KeyOf(e) in j.work.done <==> e.relativePath in j.fates && j.work.active != Some(e)
    {
      assert FateKnown(j, e);
      if j.work.active == Some(e) {
        assert KeyOf(e) in j.work.pending;
      }
    }
    forall key | key in wanted * Keys(entries)
      ensures exists e :: e in entries && KeyOf(e) == key
    {
      KeysIn(entries, key);
    }
    forall e | e in entries
      ensures KeyOf(e) in Keys(entries)
    {
      KeysIn(entries, KeyOf(e));
    }
  }

  /**
   * Once a waiter is told true, and whatever is discarded afterwards, every wanted file of the scan is known: each
   * chunk of an indexed one is located in the catalogue, and of one that could not be described or has changed since
   * the catalogue holds nothing.
   */
  lemma AwaitedFilesAreLocated(w: Work, entries: seq<Entry>, loaded: Adopted, root: Path, ops: seq<IndexOp>, wanted: set<string>, e: Entry)
    requires DistinctKeys(entries) && PossibleAll(root, Started(w, entries, loaded), ops)
    requires AllIndexed(AfterAll(root, Started(w, entries, loaded), ops).work, wanted)
    requires e in entries && KeyOf(e) in wanted
    ensures Known(root, AfterAll(root, Started(w, entries, loaded), ops), e.relativePath)
  {
    var j := AfterAll(root, Started(w, entries, loaded), ops);
    WaitTrueExactly(w, entries, loaded, root, ops, wanted);
    StartFollowed(w, entries, loaded);
    RunFollowed(root, Started(w, entries, loaded), ops, entries);
    FateIsKnown(root, j, e.relativePath);
  }
}
