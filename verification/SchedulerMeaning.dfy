/** What the indexing figures mean over a run, and when two paths name the same file. */
module SchedulerMeaning {
  import opened Wrappers
  import opened BaselineCatalogue
  import opened BaselineScheduler

  // ---- Paths

  /** The same character, the two slashes, or a letter in its two cases. */
  predicate SameCharacter(c: char, d: char) {
    || c == d
    || ({c, d} == {'/', '\\'})
    || (65 <= c as int <= 90 && d as int == c as int + 32)
    || (65 <= d as int <= 90 && c as int == d as int + 32)
  }

  /** Two paths have the same key exactly when they differ in nothing but the direction of slashes and the case of letters. */
  lemma PathKeyExactly(a: string, b: string)
    ensures PathKey(a) == PathKey(b) <==> |a| == |b| && forall i :: 0 <= i < |a| ==> SameCharacter(a[i], b[i])
  {
    forall i | 0 <= i < |a| && i < |b|
      ensures PathKey(a)[i] == PathKey(b)[i] <==> SameCharacter(a[i], b[i])
    {
      SameLowered(a[i], b[i]);
    }
  }

  lemma SameLowered(c: char, d: char)
    ensures Lowered(c) == Lowered(d) <==> SameCharacter(c, d)
  {
    assert {c, d} == {'/', '\\'} <==> (c == '/' && d == '\\') || (c == '\\' && d == '/') by {
      assert c in {c, d} && d in {c, d};
      assert '/' in {'/', '\\'} && '\\' in {'/', '\\'};
    }
  }

  /** A key is its own key: lower case, with forward slashes only. */
  lemma PathKeyCanonical(path: string)
    ensures PathKey(PathKey(path)) == PathKey(path)
    ensures forall i :: 0 <= i < |path| ==> PathKey(path)[i] != '\\' && !(65 <= PathKey(path)[i] as int <= 90)
  {
  }

  // ---- The figures after restoring

  lemma SizeMeaning(a: seq<Entry>, b: seq<Entry>, e: Entry)
    ensures SizeOf([]) == 0 && SizeOf([e]) == e.stamp.size && SizeOf(a + b) == SizeOf(a) + SizeOf(b)
  {
    SizeConcat(a, b);
    assert [e][1..] == [];
  }

  /** A restore counts every file of the scan once: as indexed when its record was kept, as waiting otherwise. */
  lemma RestoredFigures(w: Work, entries: seq<Entry>, loaded: Adopted)
    ensures
      var r := RestoredWork(w, entries, ByPath(loaded));
      && r.totalFiles == |entries| && r.totalBytes == SizeOf(entries)
      && r.indexedFiles + |r.queue| == |entries| && r.failedFiles == 0
      && r.indexedBytes + SizeOf(r.queue) == SizeOf(entries)
      && (forall key :: key in r.pending <==> exists e :: e in r.queue && PathKey(e.relativePath) == key)
      && r.active == None && r.restored
      && r.waiters == w.waiters && r.priority == w.priority && r.stopping == w.stopping
  {
    var records := ByPath(loaded);
    SortedBytes(entries, records);
    SortedCount(entries, records);
    var queue := Sorted(entries, records).queue;
    PartitionedSizes(queue, w.priority);
    forall key
      ensures key in Keys(queue) <==> exists e :: e in Partitioned(queue, w.priority) && PathKey(e.relativePath) == key
    {
      KeysIn(queue, key);
      if key in Keys(queue) {
        var e :| e in queue && KeyOf(e) == key;
        assert e in Partitioned(queue, w.priority);
      }
    }
  }

  lemma {:induction false} SortedCount(entries: seq<Entry>, records: map<string, BaselineFileRecord>)
    ensures |Sorted(entries, records).adopt| + |Sorted(entries, records).queue| == |entries|
    decreases entries
  {
    if entries != [] {
      SortedCount(entries[1..], if IsCurrent(records, entries[0]) then records - {entries[0].relativePath} else records);
    }
  }

  // ---- The figures over a run

  /** The files the worker has finished with, those described or those that could not be. */
  function FinishedIn(w: Work, ops: seq<SchedulerOp>, indexed: bool): seq<Entry>
    requires EnabledAll(w, ops)
    decreases ops
  {
    if ops == [] then []
    else
      (if ops[0] == DoComplete(indexed) then [w.active.value] else []) + FinishedIn(Stepped(w, ops[0]), ops[1..], indexed)
  }

  function InHand(w: Work): multiset<Entry> {
    if w.active.Some? then multiset{w.active.value} else multiset{}
  }

  lemma FirstAndRest(first: Entry, rest: seq<Entry>)
    ensures multiset([first] + rest) == multiset{first} + multiset(rest)
  {
  }

  lemma OneMoreLeft(first: Entry, a: multiset<Entry>, b: multiset<Entry>, all: multiset<Entry>)
    ensures a + b == all ==> multiset{first} + a + b == multiset{first} + all && a + (multiset{first} + b) == multiset{first} + all
  {
  }

  lemma ChosenFirst(queue: seq<Entry>, priority: set<string>, preferred: bool)
    requires queue != []
    ensures multiset(Chosen(queue, priority, preferred))
      == (if Preferred(priority, queue[0]) == preferred then multiset{queue[0]} else multiset{})
         + multiset(Chosen(queue[1..], priority, preferred))
  {
    ChosenStep(queue, priority, preferred);
    FirstAndRest(queue[0], Chosen(queue[1..], priority, preferred));
  }

  lemma {:induction false} ChosenMultiset(queue: seq<Entry>, priority: set<string>)
    ensures multiset(Chosen(queue, priority, true)) + multiset(Chosen(queue, priority, false)) == multiset(queue)
  {
    if queue != [] {
      ChosenMultiset(queue[1..], priority);
      ChosenFirst(queue, priority, true);
      ChosenFirst(queue, priority, false);
      assert queue == [queue[0]] + queue[1..];
      FirstAndRest(queue[0], queue[1..]);
      OneMoreLeft(
        queue[0], multiset(Chosen(queue[1..], priority, true)), multiset(Chosen(queue[1..], priority, false)), multiset(queue[1..]));
    }
  }

  lemma PartitionedMultiset(queue: seq<Entry>, priority: set<string>)
    ensures multiset(Partitioned(queue, priority)) == multiset(queue)
  {
    ChosenMultiset(queue, priority);
  }

  /** No file is lost, indexed twice or invented: each is still queued, in hand, or finished with one way or the other. */
  lemma {:induction false} NoFileLost(w: Work, ops: seq<SchedulerOp>)
    requires EnabledAll(w, ops)
    ensures Conserved(w, Ran(w, ops), FinishedIn(w, ops, true), FinishedIn(w, ops, false))
    decreases ops
  {
    if ops != [] {
      var next := Stepped(w, ops[0]);
      NoFileLost(next, ops[1..]);
      OneStepKeeps(w, ops[0]);
      FinishedFirst(w, ops, true);
      FinishedFirst(w, ops, false);
      ConservedTwice(w, next, Ran(w, ops),
        FinishedNow(w, ops[0], true), FinishedNow(w, ops[0], false), FinishedIn(next, ops[1..], true), FinishedIn(next, ops[1..], false));
    }
  }

  lemma ConservedTwice(w: Work, m: Work, r: Work, yes: seq<Entry>, no: seq<Entry>, moreYes: seq<Entry>, moreNo: seq<Entry>)
    requires Conserved(w, m, yes, no) && Conserved(m, r, moreYes, moreNo)
    ensures Conserved(w, r, yes + moreYes, no + moreNo)
  {
  }

  function FinishedNow(w: Work, op: SchedulerOp, indexed: bool): seq<Entry>
    requires Enabled(w, op)
  {
    if op == DoComplete(indexed) then [w.active.value] else []
  }

  lemma FinishedFirst(w: Work, ops: seq<SchedulerOp>, indexed: bool)
    requires EnabledAll(w, ops) && ops != []
    ensures FinishedIn(w, ops, indexed) == FinishedNow(w, ops[0], indexed) + FinishedIn(Stepped(w, ops[0]), ops[1..], indexed)
  {
  }

  /** What was queued or in hand still is, or has been described (`yes`) or given up on (`no`). */
  predicate Conserved(w: Work, r: Work, yes: seq<Entry>, no: seq<Entry>) {
    multiset(w.queue) + InHand(w) == multiset(r.queue) + InHand(r) + multiset(yes) + multiset(no)
  }

  lemma OneStepKeeps(w: Work, op: SchedulerOp)
    requires Enabled(w, op)
    ensures Conserved(w, Stepped(w, op), FinishedNow(w, op, true), FinishedNow(w, op, false))
  {
    match op
    case DoClaim => ClaimKeeps(w);
    case DoComplete(indexed) => CompleteKeeps(w, indexed);
    case DoAwait(wanted) => AwaitKeeps(w, wanted);
    case DoLeave =>
    case DoStop =>
  }

  lemma AwaitKeeps(w: Work, wanted: set<string>)
    ensures Conserved(w, Awaited(w, wanted), [], [])
  {
    PartitionedMultiset(w.queue, w.priority + wanted);
  }

  lemma ClaimKeeps(w: Work)
    requires w.active.None?
    ensures Conserved(w, Claimed(w), [], [])
  {
    if w.queue != [] {
      assert w.queue == [w.queue[0]] + w.queue[1..];
    }
  }

  lemma CompleteKeeps(w: Work, indexed: bool)
    requires w.active.Some?
    ensures Conserved(
      w, Completed(w, indexed), FinishedNow(w, DoComplete(indexed), true), FinishedNow(w, DoComplete(indexed), false))
  {
  }

  function AwaitsIn(ops: seq<SchedulerOp>): int {
    if ops == [] then 0 else AwaitsIn(ops[1..]) + match ops[0] case DoAwait(_) => 1 case DoLeave => -1 case _ => 0
  }

  ghost predicate AwaitedIn(ops: seq<SchedulerOp>, key: string) {
    exists i :: 0 <= i < |ops| && ops[i].DoAwait? && key in ops[i].wanted
  }

  /** The figures shown are the sums over the files finished with, and the waiters those that have not left. */
  lemma {:induction false} FiguresOverARun(w: Work, ops: seq<SchedulerOp>)
    requires EnabledAll(w, ops)
    ensures
      var r := Ran(w, ops);
      && r.indexedFiles == w.indexedFiles + |FinishedIn(w, ops, true)|
      && r.failedFiles == w.failedFiles + |FinishedIn(w, ops, false)|
      && r.indexedBytes == w.indexedBytes + SizeOf(FinishedIn(w, ops, true))
      && r.totalFiles == w.totalFiles && r.totalBytes == w.totalBytes
      && r.waiters == w.waiters + AwaitsIn(ops)
      && (r.stopping <==> w.stopping || DoStop in ops)
      && forall key :: key in r.priority <==> key in w.priority || AwaitedIn(ops, key)
    decreases ops
  {
    if ops != [] {
      var next := Stepped(w, ops[0]);
      FiguresOverARun(next, ops[1..]);
      FinishedFirst(w, ops, true);
      FinishedFirst(w, ops, false);
      SizeConcat(FinishedNow(w, ops[0], true), FinishedIn(next, ops[1..], true));
      assert ops == [ops[0]] + ops[1..];
      forall key
        ensures AwaitedIn(ops, key) <==> (ops[0].DoAwait? && key in ops[0].wanted) || AwaitedIn(ops[1..], key)
      {
        AwaitedFirst(ops, key);
      }
    }
  }

  lemma AwaitedFirst(ops: seq<SchedulerOp>, key: string)
    requires ops != []
    ensures AwaitedIn(ops, key) <==> (ops[0].DoAwait? && key in ops[0].wanted) || AwaitedIn(ops[1..], key)
  {
    if i :| 0 <= i < |ops[1..]| && ops[1..][i].DoAwait? && key in ops[1..][i].wanted {
      assert ops[i + 1].DoAwait? && key in ops[i + 1].wanted;
    }
    if i :| 0 <= i < |ops| && ops[i].DoAwait? && key in ops[i].wanted {
      if i > 0 {
        assert ops[1..][i - 1] == ops[i];
      }
    }
  }
}
