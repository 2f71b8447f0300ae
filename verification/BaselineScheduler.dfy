/** Indexing the game's own files: a queue one worker drains, reordered for whoever is waiting. */
module BaselineScheduler {
  import opened Wrappers
  import opened FileStore
  import opened BaselineCatalogue

  type Entry = BaselineFileEntry

  function Lowered(c: char): char {
    if c == '\\' then '/'
    else if 'A' <= c <= 'Z' then (c as int + 32) as char
    else c
  }

  /** The spelling paths are compared by. */
  function PathKey(path: string): (key: string)
    ensures |key| == |path|
  {
    seq(|path|, i requires 0 <= i < |path| => Lowered(path[i]))
  }

  method NormalisePath(path: string) returns (normalised: string)
    ensures normalised == PathKey(path)
  {
    normalised := path;
    for i := 0 to |path|
      invariant |normalised| == |path|
      invariant forall k :: 0 <= k < i ==> normalised[k] == Lowered(path[k])
      invariant forall k :: i <= k < |path| ==> normalised[k] == path[k]
    {
      normalised := normalised[i := Lowered(normalised[i])];
    }
  }

  function KeyOf(e: Entry): string {
    PathKey(e.relativePath)
  }

  /** The scheduler's shared state; `active` is what the worker holds, `done` the keys it has finished with. */
  datatype Work = Work(
    queue: seq<Entry>,
    pending: set<string>,
    priority: set<string>,
    active: Option<Entry>,
    done: set<string>,
    totalFiles: nat,
    indexedFiles: nat,
    failedFiles: nat,
    totalBytes: nat,
    indexedBytes: nat,
    waiters: nat,
    restored: bool,
    stopping: bool)

  predicate Preferred(priority: set<string>, e: Entry) {
    KeyOf(e) in priority
  }

  function Chosen(queue: seq<Entry>, priority: set<string>, preferred: bool): (r: seq<Entry>)
    ensures forall e :: e in r <==> e in queue && Preferred(priority, e) == preferred
  {
    if queue == [] then []
    else (if Preferred(priority, queue[0]) == preferred then [queue[0]] else []) + Chosen(queue[1..], priority, preferred)
  }

  /** A stable partition: preferred entries first, each half in its old order. */
  function Partitioned(queue: seq<Entry>, priority: set<string>): seq<Entry> {
    Chosen(queue, priority, true) + Chosen(queue, priority, false)
  }

  function Awaited(w: Work, wanted: set<string>): Work {
    w.(priority := w.priority + wanted,
       queue := Partitioned(w.queue, w.priority + wanted),
       waiters := w.waiters + 1)
  }

  function Claimed(w: Work): Work {
    if w.stopping || w.queue == [] then w else w.(queue := w.queue[1..], active := Some(w.queue[0]))
  }

  function Completed(w: Work, indexed: bool): Work
    requires w.active.Some?
  {
    var e := w.active.value;
    var c := w.(pending := w.pending - {KeyOf(e)}, active := None, done := w.done + {KeyOf(e)});
    if indexed then c.(indexedFiles := w.indexedFiles + 1, indexedBytes := w.indexedBytes + e.stamp.size)
    else c.(failedFiles := w.failedFiles + 1)
  }

  /** What a waiter checks each time it wakes. */
  predicate AllIndexed(w: Work, wanted: set<string>) {
    w.restored && w.pending !! wanted
  }

  // ---- Restoring

  /** Records still good, files left to index, and records to throw away. */
  datatype Sorting = Sorting(adopt: Adopted, queue: seq<Entry>, left: map<string, BaselineFileRecord>)

  predicate IsCurrent(records: map<string, BaselineFileRecord>, e: Entry) {
    e.relativePath in records && records[e.relativePath].stamp == e.stamp
  }

  function Sorted(entries: seq<Entry>, records: map<string, BaselineFileRecord>): Sorting
    decreases entries
  {
    if entries == [] then Sorting([], [], records)
    else if IsCurrent(records, entries[0]) then
      var rest := Sorted(entries[1..], records - {entries[0].relativePath});
      Sorting([records[entries[0].relativePath]] + rest.adopt, rest.queue, rest.left)
    else
      var rest := Sorted(entries[1..], records);
      Sorting(rest.adopt, [entries[0]] + rest.queue, rest.left)
  }

  function Keys(entries: seq<Entry>): set<string> {
    if entries == [] then {} else {KeyOf(entries[0])} + Keys(entries[1..])
  }

  function SizeOf(entries: seq<Entry>): nat {
    if entries == [] then 0 else entries[0].stamp.size + SizeOf(entries[1..])
  }

  /** What the restoring loop builds. */
  datatype Tally = Tally(
    waiting: seq<Entry>,
    keys: set<string>,
    count: nat,
    size: nat,
    good: nat,
    left: map<string, BaselineFileRecord>)

  function TallyOf(entries: seq<Entry>, s: Sorting): Tally
    requires SizeOf(s.queue) <= SizeOf(entries)
  {
    Tally(s.queue, Keys(s.queue), |s.adopt|, SizeOf(entries), SizeOf(entries) - SizeOf(s.queue), s.left)
  }

  /** The state once the queue is in place; whoever already waits keeps priority. */
  function Filled(w: Work, entries: seq<Entry>, t: Tally): Work {
    w.(queue := Partitioned(t.waiting, w.priority),
       pending := t.keys,
       active := None,
       done := Keys(entries) - t.keys,
       totalFiles := |entries|,
       indexedFiles := t.count,
       failedFiles := 0,
       totalBytes := t.size,
       indexedBytes := t.good,
       restored := true)
  }

  function RestoredWork(w: Work, entries: seq<Entry>, records: map<string, BaselineFileRecord>): Work {
    SortedBytes(entries, records);
    Filled(w, entries, TallyOf(entries, Sorted(entries, records)))
  }

  /** Records in store order, the first for a path winning. */
  function ByPath(loaded: Adopted): map<string, BaselineFileRecord> {
    if loaded == [] then map[]
    else
      var last := |loaded| - 1;
      var earlier := ByPath(loaded[..last]);
      if loaded[last].relativePath in earlier then earlier else earlier[loaded[last].relativePath := loaded[last]]
  }

  lemma {:induction false} SortedBytes(entries: seq<Entry>, records: map<string, BaselineFileRecord>)
    ensures SizeOf(Sorted(entries, records).queue) <= SizeOf(entries)
    decreases entries
  {
    if entries != [] {
      if IsCurrent(records, entries[0]) {
        SortedBytes(entries[1..], records - {entries[0].relativePath});
      } else {
        SortedBytes(entries[1..], records);
        assert ([entries[0]] + Sorted(entries[1..], records).queue)[1..] == Sorted(entries[1..], records).queue;
      }
    }
  }

  function AdoptAll(list: Adopted, records: Adopted): Adopted
    decreases records
  {
    if records == [] then list
    else AdoptAll(Without(list, records[0].relativePath) + [records[0]], records[1..])
  }

  /** The catalogue's list after restoring. */
  function RestoredList(list: Adopted, entries: seq<Entry>, loaded: Adopted): Adopted {
    AdoptAll(list, Sorted(entries, ByPath(loaded)).adopt)
  }

  /** The records restoring removes from the store. */
  function RemovedNames(entries: seq<Entry>, loaded: Adopted): set<string> {
    Sorted(entries, ByPath(loaded)).left.Keys
  }

  /** The catalogue's list once a file is described, or could not be. */
  function WithRecord(list: Adopted, record: Option<BaselineFileRecord>): Adopted {
    match record
    case None => list
    case Some(r) => Without(list, r.relativePath) + [r]
  }

  class BaselineIndexService {
    const catalogue: BaselineChunkCatalogue
    var queue: seq<Entry>
    var pending: set<string>
    var priority: set<string>
    var active: Option<Entry>
    var totalFiles: nat
    var indexedFiles: nat
    var failedFiles: nat
    var totalBytes: nat
    var indexedBytes: nat
    var waiters: nat
    var restored: bool
    var stopping: bool
    ghost var done: set<string>

    ghost function State(): Work
      reads this
    {
      Work(queue, pending, priority, active, done, totalFiles, indexedFiles, failedFiles, totalBytes, indexedBytes, waiters, restored, stopping)
    }

    constructor (catalogue: BaselineChunkCatalogue)
      ensures this.catalogue == catalogue && State() == NEW_WORK
    {
      this.catalogue := catalogue;
      queue, pending, priority, active := [], {}, {}, None;
      totalFiles, indexedFiles, failedFiles, totalBytes, indexedBytes := 0, 0, 0, 0, 0;
      waiters, restored, stopping := 0, false, false;
      done := {};
    }

    method Prioritise()
      modifies this`queue
      ensures queue == Partitioned(old(queue), priority)
    {
      queue := Partitioned(queue, priority);
    }

    /** Scans and loads, adopts every record that still matches its file, and queues the rest. */
    method Restore(entries: seq<Entry>, loaded: Adopted) returns (removed: set<string>)
      requires catalogue.Valid()
      modifies this, catalogue
      ensures catalogue.Valid()
      ensures State() == RestoredWork(old(State()), entries, ByPath(loaded))
      ensures catalogue.adopted == RestoredList(old(catalogue.adopted), entries, loaded)
      ensures removed == RemovedNames(entries, loaded)
    {
      var records := LoadRecords(loaded);
      var t := SortEntries(entries, records);
      Fill(t, entries);
      removed := t.left.Keys;
    }

    /** The locked end of restoring. */
    method Fill(t: Tally, entries: seq<Entry>)
      modifies this
      ensures State() == Filled(old(State()), entries, t)
    {
      ghost var filled := Filled(old(State()), entries, t);
      SetCounts(t, |entries|);
      queue, pending, active, restored := t.waiting, t.keys, None, true;
      done := Keys(entries) - t.keys;
      Prioritise();
      assert queue == filled.queue && pending == filled.pending && active == filled.active && done == filled.done;
    }

    method SetCounts(t: Tally, total: nat)
      modifies this`totalFiles, this`indexedFiles, this`failedFiles, this`totalBytes, this`indexedBytes
      ensures totalFiles == total && indexedFiles == t.count && failedFiles == 0
      ensures totalBytes == t.size && indexedBytes == t.good
    {
      totalFiles, indexedFiles, failedFiles := total, t.count, 0;
      totalBytes, indexedBytes := t.size, t.good;
    }

    method LoadRecords(loaded: Adopted) returns (records: map<string, BaselineFileRecord>)
      ensures records == ByPath(loaded)
    {
      records := map[];
      for k := 0 to |loaded|
        invariant records == ByPath(loaded[..k])
      {
        assert loaded[..k + 1][..k] == loaded[..k];
        if loaded[k].relativePath !in records {
          records := records[loaded[k].relativePath := loaded[k]];
        }
      }
      assert loaded[..|loaded|] == loaded;
    }

    method SortEntries(entries: seq<Entry>, records: map<string, BaselineFileRecord>) returns (t: Tally)
      requires catalogue.Valid()
      modifies catalogue
      ensures catalogue.Valid()
      ensures SizeOf(Sorted(entries, records).queue) <= SizeOf(entries) && t == TallyOf(entries, Sorted(entries, records))
      ensures catalogue.adopted == AdoptAll(old(catalogue.adopted), Sorted(entries, records).adopt)
    {
      t := Tally([], {}, 0, 0, 0, records);
      ghost var adopted: Adopted := [];
      StartSorting(entries, records);
      for k := 0 to |entries|
        invariant catalogue.Valid() && catalogue.adopted == AdoptAll(old(catalogue.adopted), adopted)
        invariant SortedUpTo(entries, records, k, adopted, t)
      {
        SortedOneMore(entries, records, k, adopted, t);
        AdoptAllAppend(old(catalogue.adopted), adopted, RecordOr(t.left, entries[k]));
        if IsCurrent(t.left, entries[k]) {
          adopted := adopted + [t.left[entries[k].relativePath]];
        }
        t := SortOne(entries[k], t);
      }
      SortingDone(entries, records, adopted, t);
    }

    method SortOne(e: Entry, t: Tally) returns (after: Tally)
      requires catalogue.Valid()
      modifies catalogue
      ensures catalogue.Valid()
      ensures after == Tallied(t, e)
      ensures catalogue.adopted
           == if IsCurrent(t.left, e) then Without(old(catalogue.adopted), t.left[e.relativePath].relativePath) + [t.left[e.relativePath]]
              else old(catalogue.adopted)
    {
      after := t.(size := t.size + e.stamp.size);
      if e.relativePath in t.left && t.left[e.relativePath].stamp == e.stamp {
        catalogue.Adopt(t.left[e.relativePath]);
        after := after.(count := t.count + 1, good := t.good + e.stamp.size, left := t.left - {e.relativePath});
      } else {
        var key := NormalisePath(e.relativePath);
        after := after.(waiting := t.waiting + [e], keys := t.keys + {key});
      }
    }

    method Claim() returns (claimed: Option<(Entry, bool)>)
      requires active.None?
      modifies this`queue, this`active
      ensures State() == Claimed(old(State()))
      ensures claimed == if old(stopping) || old(queue) == [] then None else Some((old(queue)[0], waiters > 0))
    {
      if stopping || queue == [] {
        return None;
      }
      var entry := queue[0];
      queue := queue[1..];
      active := Some(entry);
      return Some((entry, waiters > 0));
    }

    method Complete(entry: Entry, indexed: bool)
      requires active == Some(entry)
      modifies this
      ensures State() == Completed(old(State()), indexed)
    {
      var key := NormalisePath(entry.relativePath);
      pending := pending - {key};
      done := done + {key};
      active := None;
      if indexed {
        indexedFiles := indexedFiles + 1;
        indexedBytes := indexedBytes + entry.stamp.size;
      } else {
        failedFiles := failedFiles + 1;
      }
    }

    method CollectWanted(payloadPaths: seq<string>) returns (wanted: set<string>)
      ensures wanted == WantedKeys(payloadPaths)
    {
      wanted := {};
      for i := 0 to |payloadPaths|
        invariant wanted == WantedKeys(payloadPaths[..i])
      {
        assert payloadPaths[..i + 1] == payloadPaths[..i] + [payloadPaths[i]];
        WantedAppend(payloadPaths[..i], payloadPaths[i]);
        var key := NormalisePath(payloadPaths[i]);
        wanted := wanted + {key};
      }
      assert payloadPaths[..|payloadPaths|] == payloadPaths;
    }

    /** The first locked part of waiting: what is wanted moves ahead. */
    method AwaitBegin(payloadPaths: seq<string>) returns (wanted: set<string>)
      modifies this
      ensures wanted == WantedKeys(payloadPaths)
      ensures State() == Awaited(old(State()), wanted)
    {
      wanted := CollectWanted(payloadPaths);
      priority := priority + wanted;
      Prioritise();
      waiters := waiters + 1;
    }

    method AwaitCheck(wanted: set<string>) returns (indexed: bool)
      ensures indexed == AllIndexed(State(), wanted)
    {
      return restored && pending !! wanted;
    }

    /** The waiter leaves; records whose files have changed meanwhile are dropped. */
    method AwaitEnd(stamps: Path -> Option<FileStamp>)
      requires waiters > 0 && catalogue.Valid()
      modifies this`waiters, catalogue
      ensures State() == old(State()).(waiters := old(waiters) - 1)
      ensures catalogue.Valid() && catalogue.adopted == Unchanged(catalogue.packRoot, old(catalogue.adopted), stamps)
    {
      waiters := waiters - 1;
      catalogue.DiscardChanged(stamps);
    }

    /** One turn of the worker: claim, describe, adopt what was described, complete. */
    method IndexNext(describe: Entry -> Option<BaselineFileRecord>) returns (more: bool)
      requires active.None? && catalogue.Valid()
      modifies this, catalogue
      ensures catalogue.Valid() && more == (!old(stopping) && old(queue) != [])
      ensures !more ==> State() == old(State()) && catalogue.adopted == old(catalogue.adopted)
      ensures more ==>
        var record := describe(old(queue)[0]);
        && State() == Completed(Claimed(old(State())), record.Some?)
        && catalogue.adopted == WithRecord(old(catalogue.adopted), record)
    {
      var claimed := Claim();
      if claimed.None? {
        return false;
      }
      var record := describe(claimed.value.0);
      if record.Some? {
        catalogue.Adopt(record.value);
      }
      Complete(claimed.value.0, record.Some?);
      return true;
    }

    method Stop()
      modifies this`stopping
      ensures State() == old(State()).(stopping := true)
    {
      stopping := true;
    }
  }

  function WantedKeys(paths: seq<string>): set<string> {
    set i | 0 <= i < |paths| :: PathKey(paths[i])
  }

  lemma WantedAppend(paths: seq<string>, path: string)
    ensures WantedKeys(paths + [path]) == WantedKeys(paths) + {PathKey(path)}
  {
    var all := paths + [path];
    assert all[|paths|] == path && forall i :: 0 <= i < |paths| ==> all[i] == paths[i];
  }

  function Before(adopt: Adopted, queue: seq<Entry>, rest: Sorting): Sorting {
    Sorting(adopt + rest.adopt, queue + rest.queue, rest.left)
  }

  /** One entry's effect on the tally. */
  function Tallied(t: Tally, e: Entry): Tally {
    if IsCurrent(t.left, e) then
      t.(size := t.size + e.stamp.size, count := t.count + 1, good := t.good + e.stamp.size, left := t.left - {e.relativePath})
    else
      t.(size := t.size + e.stamp.size, waiting := t.waiting + [e], keys := t.keys + {KeyOf(e)})
  }

  ghost predicate SortedUpTo(entries: seq<Entry>, records: map<string, BaselineFileRecord>, k: nat, adopted: Adopted, t: Tally)
    requires k <= |entries|
  {
    && t.count == |adopted| && t.keys == Keys(t.waiting)
    && t.size == SizeOf(entries[..k]) && t.good + SizeOf(t.waiting) == t.size
    && Sorted(entries, records) == Before(adopted, t.waiting, Sorted(entries[k..], t.left))
  }

  /** The record of a current entry; for any other, some record. */
  ghost function RecordOr(left: map<string, BaselineFileRecord>, e: Entry): BaselineFileRecord {
    if e.relativePath in left then left[e.relativePath] else BaselineFileRecord(e.relativePath, e.stamp, [])
  }

  lemma SortedOneMore(entries: seq<Entry>, records: map<string, BaselineFileRecord>, k: nat, adopted: Adopted, t: Tally)
    requires k < |entries| && SortedUpTo(entries, records, k, adopted, t)
    ensures SortedUpTo(entries, records, k + 1,
                       if IsCurrent(t.left, entries[k]) then adopted + [t.left[entries[k].relativePath]] else adopted,
                       Tallied(t, entries[k]))
  {
    SortStep(adopted, t.waiting, entries, k, t.left);
    assert entries[..k + 1] == entries[..k] + [entries[k]];
    SizeAppend(entries[..k], entries[k]);
    SizeAppend(t.waiting, entries[k]);
    KeysAppend(t.waiting, entries[k]);
  }

  lemma SortingDone(entries: seq<Entry>, records: map<string, BaselineFileRecord>, adopted: Adopted, t: Tally)
    requires SortedUpTo(entries, records, |entries|, adopted, t)
    ensures Sorted(entries, records) == Sorting(adopted, t.waiting, t.left)
    ensures SizeOf(t.waiting) <= SizeOf(entries) && t == TallyOf(entries, Sorted(entries, records))
  {
    EndSorting(adopted, t.waiting, t.left);
    assert entries[..|entries|] == entries && entries[|entries|..] == [];
  }

  lemma StartSorting(entries: seq<Entry>, records: map<string, BaselineFileRecord>)
    ensures SortedUpTo(entries, records, 0, [], Tally([], {}, 0, 0, 0, records))
  {
    assert entries[0..] == entries && entries[..0] == [];
    var s := Sorted(entries, records);
    assert [] + s.adopt == s.adopt && [] + s.queue == s.queue;
  }

  lemma EndSorting(adopt: Adopted, queue: seq<Entry>, left: map<string, BaselineFileRecord>)
    ensures Before(adopt, queue, Sorted([], left)) == Sorting(adopt, queue, left)
  {
    assert adopt + [] == adopt && queue + [] == queue;
  }

  lemma SortStep(adopt: Adopted, queue: seq<Entry>, entries: seq<Entry>, k: nat, left: map<string, BaselineFileRecord>)
    requires k < |entries|
    ensures Before(adopt, queue, Sorted(entries[k..], left))
         == if IsCurrent(left, entries[k])
            then Before(adopt + [left[entries[k].relativePath]], queue, Sorted(entries[k + 1..], left - {entries[k].relativePath}))
            else Before(adopt, queue + [entries[k]], Sorted(entries[k + 1..], left))
  {
    var here := entries[k..];
    assert here[0] == entries[k] && here[1..] == entries[k + 1..];
    if IsCurrent(left, entries[k]) {
      var rest := Sorted(here[1..], left - {entries[k].relativePath});
      assert adopt + ([left[entries[k].relativePath]] + rest.adopt) == adopt + [left[entries[k].relativePath]] + rest.adopt;
    } else {
      var rest := Sorted(here[1..], left);
      assert queue + ([entries[k]] + rest.queue) == queue + [entries[k]] + rest.queue;
    }
  }

  lemma {:induction false} SizeAppend(entries: seq<Entry>, e: Entry)
    ensures SizeOf(entries + [e]) == SizeOf(entries) + e.stamp.size
  {
    if entries == [] {
      assert (entries + [e])[1..] == [];
    } else {
      assert (entries + [e])[1..] == entries[1..] + [e];
      SizeAppend(entries[1..], e);
    }
  }

  lemma {:induction false} KeysAppend(entries: seq<Entry>, e: Entry)
    ensures Keys(entries + [e]) == Keys(entries) + {KeyOf(e)}
  {
    if entries == [] {
      assert (entries + [e])[1..] == [];
    } else {
      assert (entries + [e])[1..] == entries[1..] + [e];
      KeysAppend(entries[1..], e);
    }
  }

  lemma {:induction false} AdoptAllAppend(list: Adopted, records: Adopted, r: BaselineFileRecord)
    ensures AdoptAll(list, records + [r]) == Without(AdoptAll(list, records), r.relativePath) + [r]
    decreases records
  {
    if records == [] {
      assert (records + [r])[1..] == [];
    } else {
      assert (records + [r])[1..] == records[1..] + [r];
      AdoptAllAppend(Without(list, records[0].relativePath) + [records[0]], records[1..], r);
    }
  }

  const NEW_WORK: Work := Work([], {}, {}, None, {}, 0, 0, 0, 0, 0, 0, false, false)

  // ---- What every reachable state keeps

  ghost predicate DistinctKeys(entries: seq<Entry>) {
    forall i, j :: 0 <= i < j < |entries| ==> KeyOf(entries[i]) != KeyOf(entries[j])
  }

  /** Nothing unpreferred stands before anything preferred. */
  ghost predicate PreferredFirst(queue: seq<Entry>, priority: set<string>) {
    forall i, j :: 0 <= i < j < |queue| && Preferred(priority, queue[j]) ==> Preferred(priority, queue[i])
  }

  function ActiveKey(w: Work): set<string> {
    if w.active.Some? then {KeyOf(w.active.value)} else {}
  }

  function ActiveBytes(w: Work): nat {
    if w.active.Some? then w.active.value.stamp.size else 0
  }

  /** `scanned` are the keys of every file the scan found. */
  ghost predicate Sound(w: Work, scanned: set<string>) {
    && DistinctKeys(w.queue)
    && PreferredFirst(w.queue, w.priority)
    && ActiveKey(w) !! Keys(w.queue)
    && w.pending == Keys(w.queue) + ActiveKey(w)
    && (if w.restored then Counted(w, scanned) else w.queue == [] && w.active.None?)
  }

  ghost predicate Counted(w: Work, scanned: set<string>) {
    && w.indexedFiles + w.failedFiles + |w.queue| + (if w.active.Some? then 1 else 0) == w.totalFiles
    && w.indexedBytes + SizeOf(w.queue) + ActiveBytes(w) <= w.totalBytes
    && w.done !! w.pending
    && w.done + w.pending == scanned
  }

  datatype SchedulerOp =
    | DoClaim
    | DoComplete(indexed: bool)
    | DoAwait(wanted: set<string>)
    | DoLeave
    | DoStop

  /** One worker: it claims with empty hands and completes what it holds. */
  predicate Enabled(w: Work, op: SchedulerOp) {
    match op
    case DoClaim => w.restored && w.active.None?
    case DoComplete(_) => w.active.Some?
    case DoAwait(_) => true
    case DoLeave => w.waiters > 0
    case DoStop => true
  }

  function Stepped(w: Work, op: SchedulerOp): Work
    requires Enabled(w, op)
  {
    match op
    case DoClaim => Claimed(w)
    case DoComplete(indexed) => Completed(w, indexed)
    case DoAwait(wanted) => Awaited(w, wanted)
    case DoLeave => w.(waiters := w.waiters - 1)
    case DoStop => w.(stopping := true)
  }

  predicate EnabledAll(w: Work, ops: seq<SchedulerOp>)
    decreases ops
  {
    ops == [] || (Enabled(w, ops[0]) && EnabledAll(Stepped(w, ops[0]), ops[1..]))
  }

  function Ran(w: Work, ops: seq<SchedulerOp>): Work
    requires EnabledAll(w, ops)
    decreases ops
  {
    if ops == [] then w else Ran(Stepped(w, ops[0]), ops[1..])
  }

  lemma {:induction false} KeysIn(entries: seq<Entry>, key: string)
    ensures key in Keys(entries) <==> exists e :: e in entries && KeyOf(e) == key
  {
    if entries != [] {
      KeysIn(entries[1..], key);
      assert entries[0] in entries;
      if key in Keys(entries[1..]) {
        var e :| e in entries[1..] && KeyOf(e) == key;
        assert e in entries;
      }
    }
  }

  // ---- Partitioning

  lemma {:induction false} ChosenDistinct(queue: seq<Entry>, priority: set<string>, preferred: bool)
    requires DistinctKeys(queue)
    ensures DistinctKeys(Chosen(queue, priority, preferred))
  {
    if queue != [] {
      ChosenDistinct(queue[1..], priority, preferred);
      var rest := Chosen(queue[1..], priority, preferred);
      forall k | 0 <= k < |rest|
        ensures KeyOf(rest[k]) != KeyOf(queue[0])
      {
        assert rest[k] in rest && rest[k] in queue[1..];
        var j :| 0 <= j < |queue[1..]| && queue[1..][j] == rest[k];
        assert queue[j + 1] == rest[k];
      }
    }
  }

  lemma PartitionedSound(queue: seq<Entry>, priority: set<string>)
    requires DistinctKeys(queue)
    ensures DistinctKeys(Partitioned(queue, priority))
    ensures PreferredFirst(Partitioned(queue, priority), priority)
    ensures Keys(Partitioned(queue, priority)) == Keys(queue)
  {
    var a := Chosen(queue, priority, true);
    var b := Chosen(queue, priority, false);
    ChosenDistinct(queue, priority, true);
    ChosenDistinct(queue, priority, false);
    assert forall i :: 0 <= i < |a| ==> a[i] in a;
    assert forall i :: 0 <= i < |b| ==> b[i] in b;
    forall key
      ensures key in Keys(a + b) <==> key in Keys(queue)
    {
      KeysIn(a + b, key);
      KeysIn(queue, key);
    }
  }

  lemma ChosenStep(queue: seq<Entry>, priority: set<string>, preferred: bool)
    requires queue != []
    ensures Chosen(queue, priority, preferred)
         == (if Preferred(priority, queue[0]) == preferred then [queue[0]] else []) + Chosen(queue[1..], priority, preferred)
    ensures SizeOf(Chosen(queue, priority, preferred))
         == (if Preferred(priority, queue[0]) == preferred then queue[0].stamp.size else 0) + SizeOf(Chosen(queue[1..], priority, preferred))
  {
    var rest := Chosen(queue[1..], priority, preferred);
    assert [] + rest == rest && ([queue[0]] + rest)[1..] == rest;
  }

  lemma {:induction false} ChosenSizes(queue: seq<Entry>, priority: set<string>)
    ensures |Chosen(queue, priority, true)| + |Chosen(queue, priority, false)| == |queue|
    ensures SizeOf(Chosen(queue, priority, true)) + SizeOf(Chosen(queue, priority, false)) == SizeOf(queue)
  {
    if queue != [] {
      ChosenSizes(queue[1..], priority);
      ChosenStep(queue, priority, true);
      ChosenStep(queue, priority, false);
    }
  }

  lemma {:induction false} SizeConcat(a: seq<Entry>, b: seq<Entry>)
    ensures SizeOf(a + b) == SizeOf(a) + SizeOf(b)
  {
    if a == [] {
      assert a + b == b;
    } else {
      assert (a + b)[1..] == a[1..] + b;
      SizeConcat(a[1..], b);
    }
  }

  lemma PartitionedSizes(queue: seq<Entry>, priority: set<string>)
    ensures |Partitioned(queue, priority)| == |queue|
    ensures SizeOf(Partitioned(queue, priority)) == SizeOf(queue)
  {
    ChosenSizes(queue, priority);
    SizeConcat(Chosen(queue, priority, true), Chosen(queue, priority, false));
  }

  // ---- Steps

  lemma AwaitSound(w: Work, wanted: set<string>, scanned: set<string>)
    requires Sound(w, scanned)
    ensures Sound(Awaited(w, wanted), scanned)
  {
    PartitionedSound(w.queue, w.priority + wanted);
    PartitionedSizes(w.queue, w.priority + wanted);
  }

  lemma HeadKey(queue: seq<Entry>)
    requires DistinctKeys(queue) && queue != []
    ensures KeyOf(queue[0]) !in Keys(queue[1..])
  {
    KeysIn(queue[1..], KeyOf(queue[0]));
  }

  lemma ClaimSound(w: Work, scanned: set<string>)
    requires Sound(w, scanned) && Enabled(w, DoClaim)
    ensures Sound(Claimed(w), scanned)
  {
    if !w.stopping && w.queue != [] {
      HeadKey(w.queue);
    }
  }

  lemma CompleteSound(w: Work, indexed: bool, scanned: set<string>)
    requires Sound(w, scanned) && w.active.Some?
    ensures Sound(Completed(w, indexed), scanned)
  {
  }

  lemma StepSound(w: Work, op: SchedulerOp, scanned: set<string>)
    requires Sound(w, scanned) && Enabled(w, op)
    ensures Sound(Stepped(w, op), scanned)
  {
    match op {
      case DoClaim => ClaimSound(w, scanned);
      case DoComplete(indexed) => CompleteSound(w, indexed, scanned);
      case DoAwait(wanted) => AwaitSound(w, wanted, scanned);
      case _ =>
    }
  }

  /** Files, bytes and pending paths stay accounted for over every run. */
  lemma {:induction false} SchedulerSafety(w: Work, ops: seq<SchedulerOp>, scanned: set<string>)
    requires Sound(w, scanned) && EnabledAll(w, ops)
    ensures Sound(Ran(w, ops), scanned)
    decreases ops
  {
    if ops != [] {
      StepSound(w, ops[0], scanned);
      SchedulerSafety(Stepped(w, ops[0]), ops[1..], scanned);
    }
  }

  lemma {:induction false} SortedSound(entries: seq<Entry>, records: map<string, BaselineFileRecord>)
    requires DistinctKeys(entries)
    ensures
      var s := Sorted(entries, records);
      && DistinctKeys(s.queue)
      && (forall e :: e in s.queue ==> e in entries)
      && |s.adopt| + |s.queue| == |entries|
    decreases entries
  {
    if entries != [] {
      var records' := if IsCurrent(records, entries[0]) then records - {entries[0].relativePath} else records;
      SortedSound(entries[1..], records');
      var rest := Sorted(entries[1..], records').queue;
      forall k | 0 <= k < |rest|
        ensures KeyOf(rest[k]) != KeyOf(entries[0])
      {
        assert rest[k] in rest && rest[k] in entries[1..];
        var j :| 0 <= j < |entries[1..]| && entries[1..][j] == rest[k];
        assert entries[j + 1] == rest[k];
      }
    }
  }

  /** Restoring, whoever is already waiting, starts from a sound state. */
  lemma RestoreSound(w: Work, entries: seq<Entry>, records: map<string, BaselineFileRecord>)
    requires DistinctKeys(entries)
    ensures Sound(RestoredWork(w, entries, records), Keys(entries))
  {
    var s := Sorted(entries, records);
    SortedSound(entries, records);
    SortedBytes(entries, records);
    PartitionedSound(s.queue, w.priority);
    PartitionedSizes(s.queue, w.priority);
    forall key | key in Keys(s.queue)
      ensures key in Keys(entries)
    {
      KeysIn(s.queue, key);
      KeysIn(entries, key);
    }
  }

  // ---- What waiting means

  /** Waiting succeeds exactly when every wanted file the scan found has been finished with. */
  lemma AwaitTrueExactly(w: Work, wanted: set<string>, scanned: set<string>)
    requires Sound(w, scanned) && w.restored
    ensures AllIndexed(w, wanted) <==> wanted * scanned <= w.done
  {
    assert w.pending == scanned - w.done;
    assert w.pending * wanted == wanted * scanned - w.done;
  }

  /** No file nobody asked for is claimed while one that was asked for waits. */
  lemma PreferredClaimedFirst(w: Work, scanned: set<string>, e: Entry)
    requires Sound(w, scanned) && Enabled(w, DoClaim) && Claimed(w).active.Some?
    requires e in Claimed(w).queue && Preferred(w.priority, e)
    ensures Preferred(w.priority, Claimed(w).active.value)
  {
    var j :| 0 <= j < |w.queue[1..]| && w.queue[1..][j] == e;
    assert w.queue[j + 1] == e;
  }

  ghost predicate InOrderIn(queue: seq<Entry>, first: Entry, second: Entry) {
    exists a, b :: 0 <= a < b < |queue| && queue[a] == first && queue[b] == second
  }

  lemma OrderedLater(queue: seq<Entry>, first: Entry, second: Entry)
    requires queue != []
    ensures InOrderIn(queue[1..], first, second) ==> InOrderIn(queue, first, second)
    ensures first == queue[0] && second in queue[1..] ==> InOrderIn(queue, first, second)
  {
    if InOrderIn(queue[1..], first, second) {
      var a, b :| 0 <= a < b < |queue[1..]| && queue[1..][a] == first && queue[1..][b] == second;
      assert queue[a + 1] == first && queue[b + 1] == second;
    }
    if first == queue[0] && second in queue[1..] {
      var b :| 0 <= b < |queue[1..]| && queue[1..][b] == second;
      assert queue[0] == first && queue[b + 1] == second;
    }
  }

  /** Within each half files keep the order they stood in before anyone asked. */
  lemma {:induction false} PartitionKeepsOrder(queue: seq<Entry>, priority: set<string>, preferred: bool, i: nat, j: nat)
    requires i < j < |Chosen(queue, priority, preferred)|
    ensures InOrderIn(queue, Chosen(queue, priority, preferred)[i], Chosen(queue, priority, preferred)[j])
    decreases queue
  {
    var all := Chosen(queue, priority, preferred);
    var rest := Chosen(queue[1..], priority, preferred);
    OrderedLater(queue, all[i], all[j]);
    ChosenStep(queue, priority, preferred);
    if Preferred(priority, queue[0]) != preferred {
      PartitionKeepsOrder(queue[1..], priority, preferred, i, j);
    } else if i > 0 {
      PartitionKeepsOrder(queue[1..], priority, preferred, i - 1, j - 1);
    } else {
      assert all[j] == rest[j - 1] && rest[j - 1] in rest;
    }
  }

  // ---- How long a waiter waits

  /** The worker finishing what it holds and taking one file after another, with each file's outcome. */
  function Drained(w: Work, outcomes: seq<bool>): Work
    decreases outcomes
  {
    if outcomes == [] then w
    else if w.active.Some? then Drained(Completed(w, outcomes[0]), outcomes[1..])
    else if w.stopping || w.queue == [] then w
    else Drained(Completed(Claimed(w), outcomes[0]), outcomes[1..])
  }

  function PreferredCount(w: Work): nat {
    |Chosen(w.queue, w.priority, true)|
  }

  lemma NothingPreferred(w: Work, wanted: set<string>, scanned: set<string>)
    requires Sound(w, scanned) && w.restored && w.active.None? && wanted <= w.priority
    requires PreferredCount(w) == 0
    ensures AllIndexed(w, wanted)
  {
    forall key | key in w.pending
      ensures key !in wanted
    {
      KeysIn(w.queue, key);
      var e :| e in w.queue && KeyOf(e) == key;
      assert !Preferred(w.priority, e);
    }
  }

  lemma HeadIsPreferred(w: Work, scanned: set<string>)
    requires Sound(w, scanned) && PreferredCount(w) > 0
    ensures w.queue != [] && Preferred(w.priority, w.queue[0])
    ensures |Chosen(w.queue[1..], w.priority, true)| == PreferredCount(w) - 1
  {
    var e := Chosen(w.queue, w.priority, true)[0];
    assert e in Chosen(w.queue, w.priority, true);
    var j :| 0 <= j < |w.queue| && w.queue[j] == e;
    assert Preferred(w.priority, w.queue[0]);
  }

  /** Files to finish before a waiter is served: the preferred ones, and the one the worker holds. */
  function Ahead(w: Work): nat {
    PreferredCount(w) + if w.active.Some? then 1 else 0
  }

  /**
   * A waiter is served after as many files as are preferred, and the one in the worker's hands when it came, whatever
   * their outcome, however long the queue.
   */
  lemma {:induction false} WaitIsBounded(w: Work, outcomes: seq<bool>, wanted: set<string>, scanned: set<string>)
    requires Sound(w, scanned) && w.restored && !w.stopping && wanted <= w.priority
    requires |outcomes| >= Ahead(w)
    ensures AllIndexed(Drained(w, outcomes), wanted)
    decreases outcomes
  {
    if w.active.Some? {
      CompleteSound(w, outcomes[0], scanned);
      WaitIsBounded(Completed(w, outcomes[0]), outcomes[1..], wanted, scanned);
    } else if PreferredCount(w) == 0 {
      NothingPreferred(w, wanted, scanned);
      StaysIndexed(w, outcomes, wanted, scanned);
    } else {
      HeadIsPreferred(w, scanned);
      ClaimSound(w, scanned);
      var next := Completed(Claimed(w), outcomes[0]);
      CompleteSound(Claimed(w), outcomes[0], scanned);
      WaitIsBounded(next, outcomes[1..], wanted, scanned);
    }
  }

  lemma {:induction false} StaysIndexed(w: Work, outcomes: seq<bool>, wanted: set<string>, scanned: set<string>)
    requires Sound(w, scanned) && AllIndexed(w, wanted)
    ensures AllIndexed(Drained(w, outcomes), wanted)
    decreases outcomes
  {
    if outcomes != [] {
      if w.active.Some? {
        CompleteSound(w, outcomes[0], scanned);
        StaysIndexed(Completed(w, outcomes[0]), outcomes[1..], wanted, scanned);
      } else if !w.stopping && w.queue != [] {
        ClaimSound(w, scanned);
        CompleteSound(Claimed(w), outcomes[0], scanned);
        StaysIndexed(Completed(Claimed(w), outcomes[0]), outcomes[1..], wanted, scanned);
      }
    }
  }
}
