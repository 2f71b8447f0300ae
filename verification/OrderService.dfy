/** The load order on screen: edits that are written through, undo, and reading the file again. */
module OrderService {
  import opened Wrappers
  import opened OrderFile

  datatype OrderEntry = OrderEntry(folder: Folder, enabled: bool)

  type LoadOrder = seq<OrderEntry>

  datatype EntryView = EntryView(folder: Folder, enabled: bool, present: bool)

  type Views = seq<EntryView>

  const HISTORY_LIMIT: nat := 64

  /** `file` is the order file on disk, `preview` what was last printed, `located` whether the game folder is usable. */
  datatype Order = Order(
    entries: Views,
    undo: seq<LoadOrder>,
    installed: seq<Folder>,
    preview: string,
    located: bool,
    writable: bool,
    file: Option<string>)

  // ---- Lists

  predicate Listed(views: Views, folder: Folder) {
    exists v :: v in views && v.folder == folder
  }

  function Compose(views: Views): (r: LoadOrder)
    ensures |r| == |views|
    ensures forall i :: 0 <= i < |r| ==> r[i] == OrderEntry(views[i].folder, views[i].enabled)
  {
    if views == [] then [] else [OrderEntry(views[0].folder, views[0].enabled)] + Compose(views[1..])
  }

  function Enabled(order: LoadOrder): seq<Folder> {
    if order == [] then []
    else (if order[0].enabled then [order[0].folder] else []) + Enabled(order[1..])
  }

  function EnabledIn(views: Views): seq<Folder> {
    Enabled(Compose(views))
  }

  /** Installed mods the list does not name are added at its end, disabled. */
  function AddMissing(views: Views, installed: seq<Folder>): Views
    decreases installed
  {
    if installed == [] then views
    else if Listed(views, installed[0]) then AddMissing(views, installed[1..])
    else AddMissing(views + [EntryView(installed[0], false, true)], installed[1..])
  }

  function FromOrder(order: LoadOrder): (r: Views)
    ensures |r| == |order|
    ensures forall i :: 0 <= i < |r| ==> r[i] == EntryView(order[i].folder, order[i].enabled, false)
  {
    if order == [] then [] else [EntryView(order[0].folder, order[0].enabled, false)] + FromOrder(order[1..])
  }

  function Expand(order: LoadOrder, installed: seq<Folder>): Views {
    AddMissing(FromOrder(order), installed)
  }

  function WithPresence(views: Views, installed: seq<Folder>): (r: Views)
    ensures |r| == |views|
    ensures forall i :: 0 <= i < |r| ==> r[i] == views[i].(present := views[i].folder in installed)
  {
    if views == [] then []
    else [views[0].(present := views[0].folder in installed)] + WithPresence(views[1..], installed)
  }

  // ---- Committing

  function Remembered(undo: seq<LoadOrder>, order: LoadOrder): seq<LoadOrder> {
    (if |undo| == HISTORY_LIMIT then undo[1..] else undo) + [order]
  }

  function Committed(s: Order, entries: Views, remember: bool, written: bool): Order {
    if !written then s.(writable := false)
    else
      Order(WithPresence(entries, s.installed),
            if remember then Remembered(s.undo, Compose(s.entries)) else s.undo,
            s.installed, Printed(EnabledIn(entries)), s.located, s.located, Some(Printed(EnabledIn(entries))))
  }

  // ---- Edits

  datatype Edit = SetEnabled(folder: Folder, enabled: bool) | Move(fromIndex: nat, toIndex: nat)

  function IndexOf(views: Views, folder: Folder): (i: nat)
    ensures i <= |views|
    ensures i < |views| ==> views[i].folder == folder
    ensures forall k :: 0 <= k < i ==> views[k].folder != folder
  {
    if views == [] || views[0].folder == folder then 0 else 1 + IndexOf(views[1..], folder)
  }

  function RemovedAt<T>(s: seq<T>, i: nat): seq<T>
    requires i < |s|
  {
    s[..i] + s[i + 1..]
  }

  function InsertedAt<T>(s: seq<T>, i: nat, x: T): seq<T>
    requires i <= |s|
  {
    s[..i] + [x] + s[i..]
  }

  /** The list after the edit; none when there is nothing to do. */
  function Edited(views: Views, edit: Edit): Option<Views> {
    match edit
    case SetEnabled(folder, enabled) =>
      var i := IndexOf(views, folder);
      if i == |views| || views[i].enabled == enabled then None
      else Some(views[i := views[i].(enabled := enabled)])
    case Move(fromIndex, toIndex) =>
      if fromIndex >= |views| || toIndex >= |views| || fromIndex == toIndex then None
      else Some(InsertedAt(RemovedAt(views, fromIndex), toIndex, views[fromIndex]))
  }

  function AfterEdit(s: Order, edit: Edit, written: bool): Order {
    match Edited(s.entries, edit)
    case None => s
    case Some(views) => Committed(s, views, true, written)
  }

  function AfterUndo(s: Order, written: bool): Order {
    if s.undo == [] then s
    else
      var c := Committed(s, Expand(s.undo[|s.undo| - 1], s.installed), false, written);
      if written then c.(undo := s.undo[..|s.undo| - 1]) else c
  }

  function AfterApply(s: Order, order: LoadOrder, written: bool): Order {
    var c := Committed(s, Expand(order, s.installed), false, written);
    if written then c.(undo := []) else c
  }

  // ---- Refreshing

  /** The folders the file gives; none when it is missing or malformed. */
  function StoredFolders(file: Option<string>): seq<Folder> {
    match file
    case None => []
    case Some(contents) => if Parsed(contents).Ok? then Parsed(contents).value else []
  }

  function AllEnabled(folders: seq<Folder>): (r: Views)
    ensures |r| == |folders|
    ensures forall i :: 0 <= i < |r| ==> r[i] == EntryView(folders[i], true, false)
  {
    if folders == [] then [] else [EntryView(folders[0], true, false)] + AllEnabled(folders[1..])
  }

  /** Disabled entries of the old list that the new one does not name yet. */
  function KeepDisabled(views: Views, previous: Views): Views
    decreases previous
  {
    if previous == [] then views
    else if previous[0].enabled || Listed(views, previous[0].folder) then KeepDisabled(views, previous[1..])
    else KeepDisabled(views + [EntryView(previous[0].folder, false, false)], previous[1..])
  }

  function Reread(s: Order, installed: seq<Folder>): Views {
    AddMissing(KeepDisabled(AllEnabled(StoredFolders(s.file)), s.entries), installed)
  }

  function Refreshed(s: Order, installed: seq<Folder>): Order {
    var views := Reread(s, installed);
    var printed := Printed(EnabledIn(views));
    Order(WithPresence(views, installed), if printed != s.preview then [] else s.undo, installed, printed, s.located, s.located, s.file)
  }

  // ---- The service

  class Service {
    const located: bool
    var entries: Views
    var undo: seq<LoadOrder>
    var installed: seq<Folder>
    var preview: string
    var writable: bool
    /** The file on disk; only `Commit` writes it, other programs may. */
    var file: Option<string>

    function State(): Order
      reads this
    {
      Order(entries, undo, installed, preview, located, writable, file)
    }

    constructor (located: bool, file: Option<string>, installed: seq<Folder>)
      ensures this.located == located
      ensures State() == Refreshed(Order([], [], [], "", located, false, file), installed)
    {
      this.located := located;
      entries, undo, this.installed, preview, writable := [], [], [], "", false;
      this.file := file;
      new;
      Refresh(installed);
    }

    method Rebuild(views: Views)
      modifies this`entries, this`preview, this`writable
      ensures entries == WithPresence(views, installed)
      ensures preview == Printed(EnabledIn(views)) && writable == (old(writable) && located)
    {
      entries := WithPresence(views, installed);
      SamePrinted(views, installed);
      preview := Serialize(Enabled(Compose(entries)));
      writable := located && writable;
    }

    method CollectStored() returns (views: Views)
      ensures views == AllEnabled(StoredFolders(file))
    {
      views := [];
      if file.None? {
        return;
      }
      var parsed := Parse(file.value);
      if parsed.Err? {
        return;
      }
      for i := 0 to |parsed.value|
        invariant views == AllEnabled(parsed.value[..i])
      {
        AllEnabledPrefix(parsed.value, i);
        views := views + [EntryView(parsed.value[i], true, false)];
      }
      assert parsed.value[..|parsed.value|] == parsed.value;
    }

    method AddDisabled(start: Views) returns (views: Views)
      ensures views == KeepDisabled(start, entries)
    {
      views := start;
      for i := 0 to |entries|
        invariant KeepDisabled(start, entries) == KeepDisabled(views, entries[i..])
      {
        assert entries[i..][0] == entries[i] && entries[i..][1..] == entries[i + 1..];
        if entries[i].enabled {
          continue;
        }
        if !Listed(views, entries[i].folder) {
          views := views + [EntryView(entries[i].folder, false, false)];
        }
      }
    }

    method AddInstalled(start: Views, found: seq<Folder>) returns (views: Views)
      ensures views == AddMissing(start, found)
    {
      views := start;
      for i := 0 to |found|
        invariant AddMissing(start, found) == AddMissing(views, found[i..])
      {
        assert found[i..][0] == found[i] && found[i..][1..] == found[i + 1..];
        if !Listed(views, found[i]) {
          views := views + [EntryView(found[i], false, true)];
        }
      }
    }

    method Collect(found: seq<Folder>) returns (views: Views)
      ensures views == Reread(State(), found)
    {
      views := CollectStored();
      views := AddDisabled(views);
      views := AddInstalled(views, found);
    }

    method Refresh(found: seq<Folder>)
      modifies this
      ensures State() == Refreshed(old(State()), found)
    {
      ghost var before := State();
      var refreshed := Collect(found);
      var printed := Serialize(Enabled(Compose(refreshed)));
      if printed != preview {
        undo := [];
      }
      installed := found;
      writable := true;
      Rebuild(refreshed);
      assert refreshed == Reread(before, found) && printed == preview == Printed(EnabledIn(refreshed));
      assert undo == if printed != before.preview then [] else before.undo;
    }

    /** `written` says whether the file could be replaced; if not, it is as before. */
    method Commit(views: Views, remember: bool, written: bool) returns (ok: bool)
      modifies this
      ensures State() == Committed(old(State()), views, remember, written) && ok == written
    {
      if !written {
        writable := false;
        return false;
      }
      var contents := Serialize(Enabled(Compose(views)));
      file := Some(contents);
      if remember {
        if |undo| == HISTORY_LIMIT {
          undo := undo[1..];
        }
        undo := undo + [Compose(entries)];
      }
      writable := true;
      Rebuild(views);
      return true;
    }

    method SetFolderEnabled(folder: Folder, enabled: bool, written: bool)
      modifies this
      ensures State() == AfterEdit(old(State()), SetEnabled(folder, enabled), written)
    {
      var found := IndexOf(entries, folder);
      if found == |entries| {
        return;
      }
      if entries[found].enabled == enabled {
        return;
      }
      var changed := entries[found := entries[found].(enabled := enabled)];
      var _ := Commit(changed, true, written);
    }

    method MoveEntry(fromIndex: nat, toIndex: nat, written: bool)
      modifies this
      ensures State() == AfterEdit(old(State()), Move(fromIndex, toIndex), written)
    {
      if fromIndex >= |entries| || toIndex >= |entries| {
        return;
      }
      if fromIndex == toIndex {
        return;
      }
      var moved := entries[fromIndex];
      var changed := entries[..fromIndex] + entries[fromIndex + 1..];
      changed := changed[..toIndex] + [moved] + changed[toIndex..];
      var _ := Commit(changed, true, written);
    }

    method CommitOrder(order: LoadOrder, written: bool) returns (ok: bool)
      modifies this
      ensures State() == Committed(old(State()), Expand(order, old(installed)), false, written) && ok == written
    {
      var views := AddInstalled(FromOrder(order), installed);
      ok := Commit(views, false, written);
    }

    method Apply(order: LoadOrder, written: bool) returns (ok: bool)
      modifies this
      ensures State() == AfterApply(old(State()), order, written) && ok == written
    {
      ok := CommitOrder(order, written);
      if ok {
        undo := [];
      }
    }

    method Undo(written: bool) returns (ok: bool)
      modifies this
      ensures State() == AfterUndo(old(State()), written) && ok == (written && old(undo) != [])
    {
      if undo == [] {
        return false;
      }
      ok := CommitOrder(undo[|undo| - 1], written);
      if ok {
        undo := undo[..|undo| - 1];
      }
    }
  }

  lemma AllEnabledPrefix(folders: seq<Folder>, i: nat)
    requires i < |folders|
    ensures AllEnabled(folders[..i + 1]) == AllEnabled(folders[..i]) + [EntryView(folders[i], true, false)]
  {
  }

  lemma {:induction false} ComposeIgnoresPresence(views: Views, installed: seq<Folder>)
    ensures Compose(WithPresence(views, installed)) == Compose(views)
  {
  }

  lemma SamePrinted(views: Views, installed: seq<Folder>)
    ensures EnabledIn(WithPresence(views, installed)) == EnabledIn(views)
  {
    ComposeIgnoresPresence(views, installed);
  }

  // ---- What edits do to the list

  /** A move takes one entry to its new place and leaves the others in their order. */
  lemma MoveMeaning(views: Views, fromIndex: nat, toIndex: nat)
    requires fromIndex < |views| && toIndex < |views| && fromIndex != toIndex
    ensures
      var moved := Edited(views, Move(fromIndex, toIndex)).value;
      && |moved| == |views|
      && moved[toIndex] == views[fromIndex]
      && RemovedAt(moved, toIndex) == RemovedAt(views, fromIndex)
  {
  }

  /** The first entry of the folder. */
  ghost predicate FirstAt(views: Views, folder: Folder, i: nat) {
    i < |views| && views[i].folder == folder && forall k :: 0 <= k < i ==> views[k].folder != folder
  }

  /**
   * Switching a folder changes the flag of its first entry and nothing else; there is nothing to do exactly when no
   * entry has the folder or the first one that has it is as asked for.
   */
  lemma SetEnabledMeaning(views: Views, folder: Folder, enabled: bool)
    ensures
      match Edited(views, SetEnabled(folder, enabled))
      case None =>
        || (forall i :: 0 <= i < |views| ==> views[i].folder != folder)
        || (exists i: nat :: FirstAt(views, folder, i) && views[i].enabled == enabled)
      case Some(after) =>
        && |after| == |views|
        && exists i: nat ::
             && FirstAt(views, folder, i) && views[i].enabled != enabled
             && after[i] == EntryView(folder, enabled, views[i].present)
             && forall k :: 0 <= k < |views| && k != i ==> after[k] == views[k]
  {
    var i := IndexOf(views, folder);
    assert i < |views| ==> FirstAt(views, folder, i);
  }

  ghost predicate DistinctFolders(views: Views) {
    forall i, k :: 0 <= i < k < |views| ==> views[i].folder != views[k].folder
  }

  function Others(folders: seq<Folder>, folder: Folder): seq<Folder> {
    if folders == [] then [] else (if folders[0] == folder then [] else [folders[0]]) + Others(folders[1..], folder)
  }

  lemma OthersInFront(first: seq<Folder>, rest: seq<Folder>, folder: Folder)
    requires |first| <= 1
    ensures Others(first + rest, folder) == (if first == [folder] then [] else first) + Others(rest, folder)
  {
    if first == [] {
      assert first + rest == rest;
    } else {
      assert (first + rest)[1..] == rest;
    }
  }

  lemma EnabledUnfolds(views: Views)
    requires views != []
    ensures EnabledIn(views) == (if views[0].enabled then [views[0].folder] else []) + EnabledIn(views[1..])
  {
    assert Compose(views)[1..] == Compose(views[1..]);
  }

  lemma {:induction false} EnabledInside(views: Views, folder: Folder)
    ensures folder in EnabledIn(views) <==> exists v :: v in views && v.folder == folder && v.enabled
  {
    if views != [] {
      EnabledUnfolds(views);
      EnabledInside(views[1..], folder);
      assert views[0] in views;
    }
  }

  /** Lists that differ in one folder's flag only have the same other folders enabled, in the same order. */
  lemma {:induction false} OthersStay(a: Views, b: Views, folder: Folder)
    requires |a| == |b| && forall k :: 0 <= k < |a| ==> a[k].folder == b[k].folder && (a[k].folder == folder || a[k].enabled == b[k].enabled)
    ensures Others(EnabledIn(a), folder) == Others(EnabledIn(b), folder)
    decreases |a|
  {
    if a != [] {
      OthersStay(a[1..], b[1..], folder);
      EnabledUnfolds(a);
      EnabledUnfolds(b);
      OthersInFront(if a[0].enabled then [a[0].folder] else [], EnabledIn(a[1..]), folder);
      OthersInFront(if b[0].enabled then [b[0].folder] else [], EnabledIn(b[1..]), folder);
    }
  }

  /** In a list without repeats the folder is enabled as asked for afterwards, and the others as before, in their order. */
  lemma SwitchMeaning(views: Views, folder: Folder, enabled: bool)
    requires DistinctFolders(views) && Edited(views, SetEnabled(folder, enabled)).Some?
    ensures
      var after := Edited(views, SetEnabled(folder, enabled)).value;
      && (folder in EnabledIn(after) <==> enabled)
      && Others(EnabledIn(after), folder) == Others(EnabledIn(views), folder)
  {
    var after := Edited(views, SetEnabled(folder, enabled)).value;
    SetEnabledMeaning(views, folder, enabled);
    var i: nat :| FirstAt(views, folder, i) && views[i].enabled != enabled
      && after[i] == EntryView(folder, enabled, views[i].present)
      && forall k :: 0 <= k < |views| && k != i ==> after[k] == views[k];
    SwitchedInside(views, after, folder, i);
    OthersStay(after, views, folder);
  }

  lemma SwitchedInside(views: Views, after: Views, folder: Folder, i: nat)
    requires DistinctFolders(views) && i < |views| == |after| && views[i].folder == after[i].folder == folder
    requires forall k :: 0 <= k < |views| && k != i ==> after[k] == views[k]
    ensures folder in EnabledIn(after) <==> after[i].enabled
  {
    EnabledInside(after, folder);
    assert after[i] in after;
    forall v | v in after && v.folder == folder
      ensures v == after[i]
    {
      var k :| 0 <= k < |after| && after[k] == v;
    }
  }

  /** The same of the service once the switch is written: what it lists, and what it printed. */
  lemma SetFolderEnabledMeaning(s: Order, folder: Folder, enabled: bool)
    requires DistinctFolders(s.entries) && Edited(s.entries, SetEnabled(folder, enabled)).Some?
    ensures
      var after := AfterEdit(s, SetEnabled(folder, enabled), true);
      && (folder in EnabledIn(after.entries) <==> enabled)
      && Others(EnabledIn(after.entries), folder) == Others(EnabledIn(s.entries), folder)
      && after.file == Some(Printed(EnabledIn(after.entries)))
  {
    SwitchMeaning(s.entries, folder, enabled);
    SamePrinted(Edited(s.entries, SetEnabled(folder, enabled)).value, s.installed);
  }

  lemma SplitAt<T>(s: seq<T>, i: nat)
    requires i < |s|
    ensures multiset(s) == multiset(RemovedAt(s, i)) + multiset{s[i]}
  {
    assert s == s[..i] + [s[i]] + s[i + 1..];
  }

  function Folders(views: Views): (r: seq<Folder>)
    ensures |r| == |views|
  {
    seq(|views|, i requires 0 <= i < |views| => views[i].folder)
  }

  lemma FoldersRemoved(views: Views, i: nat)
    requires i < |views|
    ensures Folders(RemovedAt(views, i)) == RemovedAt(Folders(views), i)
  {
  }

  lemma SameAfterRemoval(a: seq<Folder>, i: nat, b: seq<Folder>, j: nat)
    requires i < |a| && j < |b| && a[i] == b[j] && RemovedAt(a, i) == RemovedAt(b, j)
    ensures multiset(a) == multiset(b)
  {
    SplitAt(a, i);
    SplitAt(b, j);
  }

  /** No edit loses, adds or duplicates a mod. */
  lemma EditKeepsFolders(views: Views, edit: Edit)
    requires Edited(views, edit).Some?
    ensures multiset(Folders(Edited(views, edit).value)) == multiset(Folders(views))
  {
    var after := Edited(views, edit).value;
    match edit {
      case SetEnabled(folder, enabled) =>
        assert Folders(after) == Folders(views);
      case Move(fromIndex, toIndex) =>
        MoveMeaning(views, fromIndex, toIndex);
        FoldersRemoved(views, fromIndex);
        FoldersRemoved(after, toIndex);
        SameAfterRemoval(Folders(after), toIndex, Folders(views), fromIndex);
    }
  }

  // ---- What every state keeps

  ghost predicate PlainNames(views: Views) {
    forall v :: v in views ==> NoLineFeed(v.folder)
  }

  ghost predicate PlainOrder(order: LoadOrder) {
    forall e :: e in order ==> NoLineFeed(e.folder)
  }

  ghost predicate AllListed(views: Views, installed: seq<Folder>) {
    forall f :: f in installed ==> Listed(views, f)
  }

  ghost predicate Marked(views: Views, installed: seq<Folder>) {
    forall v :: v in views ==> v.present == (v.folder in installed)
  }

  /** The file, read now, gives the enabled folders on screen; every installed mod is listed and marked. */
  ghost predicate Coherent(s: Order) {
    && StoredFolders(s.file) == EnabledIn(s.entries)
    && s.preview == Printed(EnabledIn(s.entries))
    && AllListed(s.entries, s.installed)
    && Marked(s.entries, s.installed)
    && |s.undo| <= HISTORY_LIMIT
  }

  ghost predicate Plain(s: Order) {
    && PlainNames(s.entries)
    && AllPlain(s.installed)
    && forall i :: 0 <= i < |s.undo| ==> PlainOrder(s.undo[i])
  }

  lemma {:induction false} AddMissingGrows(views: Views, installed: seq<Folder>)
    ensures views <= AddMissing(views, installed)
    ensures AllListed(AddMissing(views, installed), installed)
    ensures forall k :: |views| <= k < |AddMissing(views, installed)| ==>
      !AddMissing(views, installed)[k].enabled && AddMissing(views, installed)[k].folder in installed
    decreases installed
  {
    if installed != [] {
      var next := if Listed(views, installed[0]) then views else views + [EntryView(installed[0], false, true)];
      AddMissingGrows(next, installed[1..]);
      assert Listed(next, installed[0]) by {
        if !Listed(views, installed[0]) {
          assert next[|views|] in next;
        }
      }
      ListedInLonger(next, AddMissing(next, installed[1..]), installed[0]);
    }
  }

  lemma ListedInLonger(views: Views, longer: Views, f: Folder)
    requires views <= longer && Listed(views, f)
    ensures Listed(longer, f)
  {
    var v :| v in views && v.folder == f;
    assert v in longer;
  }

  lemma {:induction false} NothingMissing(views: Views, installed: seq<Folder>)
    requires AllListed(views, installed)
    ensures AddMissing(views, installed) == views
    decreases installed
  {
    if installed != [] {
      assert installed[0] in installed;
      NothingMissing(views, installed[1..]);
    }
  }

  lemma {:induction false} KeepDisabledGrows(views: Views, previous: Views)
    ensures views <= KeepDisabled(views, previous)
    ensures forall k :: |views| <= k < |KeepDisabled(views, previous)| ==> !KeepDisabled(views, previous)[k].enabled
    ensures forall k :: |views| <= k < |KeepDisabled(views, previous)| ==> Listed(previous, KeepDisabled(views, previous)[k].folder)
    ensures forall v :: v in previous && !v.enabled ==> Listed(KeepDisabled(views, previous), v.folder)
    decreases previous
  {
    if previous != [] {
      var skip := previous[0].enabled || Listed(views, previous[0].folder);
      var next := if skip then views else views + [EntryView(previous[0].folder, false, false)];
      KeepDisabledGrows(next, previous[1..]);
      var r := KeepDisabled(views, previous);
      assert previous[0] in previous;
      forall k | |views| <= k < |r|
        ensures !r[k].enabled && Listed(previous, r[k].folder)
      {
        if k < |next| {
          assert r[k] == next[k];
        } else {
          ListedLater(previous, r[k].folder);
        }
      }
      if !previous[0].enabled {
        if !skip {
          assert next[|views|] in next;
        }
        ListedInLonger(next, r, previous[0].folder);
      }
    }
  }

  lemma ListedLater(views: Views, f: Folder)
    requires views != [] && Listed(views[1..], f)
    ensures Listed(views, f)
  {
    var v :| v in views[1..] && v.folder == f;
    assert v in views;
  }

  /** Entries added after a list that are all disabled leave the enabled order alone. */
  lemma {:induction false} DisabledTail(views: Views, longer: Views)
    requires views <= longer
    requires forall k :: |views| <= k < |longer| ==> !longer[k].enabled
    ensures EnabledIn(longer) == EnabledIn(views)
    decreases longer
  {
    if longer != [] {
      assert Compose(longer)[1..] == Compose(longer[1..]);
      if views == [] {
        DisabledTail([], longer[1..]);
      } else {
        assert Compose(views)[1..] == Compose(views[1..]);
        DisabledTail(views[1..], longer[1..]);
      }
    }
  }

  lemma {:induction false} AllEnabledBack(folders: seq<Folder>)
    ensures EnabledIn(AllEnabled(folders)) == folders
  {
    if folders != [] {
      AllEnabledBack(folders[1..]);
      assert Compose(AllEnabled(folders))[1..] == Compose(AllEnabled(folders[1..]));
    }
  }

  /** Reading the file again puts exactly its folders on screen as enabled, in its order. */
  lemma RereadEnables(s: Order, installed: seq<Folder>)
    ensures EnabledIn(Reread(s, installed)) == StoredFolders(s.file)
    ensures AllListed(Reread(s, installed), installed)
  {
    var stored := AllEnabled(StoredFolders(s.file));
    var kept := KeepDisabled(stored, s.entries);
    KeepDisabledGrows(stored, s.entries);
    AddMissingGrows(kept, installed);
    DisabledTail(stored, kept);
    DisabledTail(kept, AddMissing(kept, installed));
    AllEnabledBack(StoredFolders(s.file));
  }

  lemma {:induction false} ListedWithPresence(views: Views, installed: seq<Folder>, all: seq<Folder>)
    requires AllListed(views, all)
    ensures AllListed(WithPresence(views, installed), all)
  {
    forall f | f in all
      ensures Listed(WithPresence(views, installed), f)
    {
      var v :| v in views && v.folder == f;
      var i :| 0 <= i < |views| && views[i] == v;
      assert WithPresence(views, installed)[i] in WithPresence(views, installed);
    }
  }

  /** A refresh always leaves a coherent state, whatever the file holds. */
  lemma RefreshCoherent(s: Order, installed: seq<Folder>)
    requires |s.undo| <= HISTORY_LIMIT
    ensures Coherent(Refreshed(s, installed))
  {
    RereadEnables(s, installed);
    SamePrinted(Reread(s, installed), installed);
    ListedWithPresence(Reread(s, installed), installed, installed);
  }

  /** From a coherent state a refresh keeps the enabled order, the printed file and every undo step, whatever mods came or went. */
  lemma RefreshKeepsOrder(s: Order, installed: seq<Folder>)
    requires Coherent(s)
    ensures
      var r := Refreshed(s, installed);
      EnabledIn(r.entries) == EnabledIn(s.entries) && r.undo == s.undo && r.preview == s.preview && r.file == s.file
  {
    RereadEnables(s, installed);
    SamePrinted(Reread(s, installed), installed);
  }

  // ---- Refreshing twice

  ghost predicate NoDoubles(views: Views, start: nat) {
    forall i, j :: 0 <= i < j < |views| && start <= j ==> views[i].folder != views[j].folder
  }

  lemma {:induction false} KeepDisabledDistinct(views: Views, previous: Views, start: nat)
    requires start <= |views| && NoDoubles(views, start)
    ensures NoDoubles(KeepDisabled(views, previous), start)
    decreases previous
  {
    if previous != [] {
      if previous[0].enabled || Listed(views, previous[0].folder) {
        KeepDisabledDistinct(views, previous[1..], start);
      } else {
        assert forall i :: 0 <= i < |views| ==> views[i] in views;
        KeepDisabledDistinct(views + [EntryView(previous[0].folder, false, false)], previous[1..], start);
      }
    }
  }

  lemma {:induction false} AddMissingDistinct(views: Views, installed: seq<Folder>, start: nat)
    requires start <= |views| && NoDoubles(views, start)
    ensures NoDoubles(AddMissing(views, installed), start)
    decreases installed
  {
    if installed != [] {
      if Listed(views, installed[0]) {
        AddMissingDistinct(views, installed[1..], start);
      } else {
        assert forall i :: 0 <= i < |views| ==> views[i] in views;
        AddMissingDistinct(views + [EntryView(installed[0], false, true)], installed[1..], start);
      }
    }
  }

  ghost predicate SameButPresence(a: Views, b: Views) {
    |a| == |b| && forall i :: 0 <= i < |a| ==> a[i].folder == b[i].folder && a[i].enabled == b[i].enabled
  }

  /** Kept entries that are already distinct come back one for one. */
  lemma {:induction false} KeepAll(views: Views, rest: Views)
    requires forall k :: 0 <= k < |rest| ==> !rest[k].enabled && !Listed(views, rest[k].folder)
    requires NoDoubles(rest, 0)
    ensures SameButPresence(KeepDisabled(views, rest), views + rest)
    decreases rest
  {
    if rest != [] {
      var next := views + [EntryView(rest[0].folder, false, false)];
      forall k | 0 <= k < |rest[1..]|
        ensures !Listed(next, rest[1..][k].folder)
      {
        assert !Listed(views, rest[k + 1].folder);
      }
      KeepAll(next, rest[1..]);
      var r := KeepDisabled(next, rest[1..]);
      assert forall i :: |next| <= i < |r| ==> (next + rest[1..])[i] == (views + rest)[i];
    } else {
      assert views + rest == views;
    }
  }

  lemma {:induction false} SkipEnabled(views: Views, front: Views, rest: Views)
    requires forall k :: 0 <= k < |front| ==> front[k].enabled
    ensures KeepDisabled(views, front + rest) == KeepDisabled(views, rest)
    decreases front
  {
    if front == [] {
      assert front + rest == rest;
    } else {
      assert (front + rest)[1..] == front[1..] + rest;
      SkipEnabled(views, front[1..], rest);
    }
  }

  lemma PresenceSame(a: Views, b: Views, installed: seq<Folder>)
    requires SameButPresence(a, b)
    ensures WithPresence(a, installed) == WithPresence(b, installed)
  {
  }

  lemma ListedSame(a: Views, b: Views, installed: seq<Folder>)
    requires SameButPresence(a, b) && AllListed(b, installed)
    ensures AllListed(a, installed)
  {
    forall f | f in installed
      ensures Listed(a, f)
    {
      var v :| v in b && v.folder == f;
      var i :| 0 <= i < |b| && b[i] == v;
      assert a[i] in a;
    }
  }

  lemma RestUnlisted(stored: Views, views: Views, k: nat)
    requires stored <= views && NoDoubles(views, |stored|) && |stored| <= k < |views|
    ensures !Listed(stored, views[k].folder)
  {
    forall v | v in stored
      ensures v.folder != views[k].folder
    {
      var i :| 0 <= i < |stored| && stored[i] == v;
      assert views[i].folder != views[k].folder;
    }
  }

  /** Enabled entries as stored, then distinct disabled ones that are not. */
  ghost predicate Rereadable(stored: Views, shown: Views) {
    && |stored| <= |shown|
    && NoDoubles(shown, |stored|)
    && (forall k :: 0 <= k < |shown| ==> (shown[k].enabled <==> k < |stored|))
    && (forall k :: |stored| <= k < |shown| ==> !Listed(stored, shown[k].folder))
  }

  lemma RereadKeeps(stored: Views, shown: Views)
    requires Rereadable(stored, shown)
    ensures SameButPresence(KeepDisabled(stored, shown), stored + shown[|stored|..])
  {
    var front, rest := shown[..|stored|], shown[|stored|..];
    assert shown == front + rest;
    SkipEnabled(stored, front, rest);
    KeepAll(stored, rest);
  }

  lemma ShownRereadable(stored: Views, views: Views, installed: seq<Folder>)
    requires stored <= views && NoDoubles(views, |stored|)
    requires forall k :: 0 <= k < |views| ==> (views[k].enabled <==> k < |stored|)
    ensures Rereadable(stored, WithPresence(views, installed))
  {
    var shown := WithPresence(views, installed);
    forall k | |stored| <= k < |shown|
      ensures !Listed(stored, shown[k].folder)
    {
      RestUnlisted(stored, views, k);
    }
  }

  lemma SameShown(stored: Views, views: Views, kept: Views, installed: seq<Folder>)
    requires stored <= views && SameButPresence(kept, stored + WithPresence(views, installed)[|stored|..])
    ensures SameButPresence(kept, views)
  {
    var all := stored + WithPresence(views, installed)[|stored|..];
    assert forall i :: 0 <= i < |views| ==> all[i].folder == views[i].folder && all[i].enabled == views[i].enabled;
  }

  lemma ShownKept(stored: Views, views: Views, installed: seq<Folder>)
    requires stored <= views && NoDoubles(views, |stored|)
    requires forall k :: 0 <= k < |views| ==> (views[k].enabled <==> k < |stored|)
    ensures SameButPresence(KeepDisabled(stored, WithPresence(views, installed)), views)
  {
    ShownRereadable(stored, views, installed);
    RereadKeeps(stored, WithPresence(views, installed));
    SameShown(stored, views, KeepDisabled(stored, WithPresence(views, installed)), installed);
  }

  /** A list of enabled entries followed by distinct disabled ones is read again unchanged. */
  lemma RereadFixed(stored: Views, views: Views, installed: seq<Folder>)
    requires stored <= views && NoDoubles(views, |stored|) && AllListed(views, installed)
    requires forall k :: 0 <= k < |views| ==> (views[k].enabled <==> k < |stored|)
    ensures SameButPresence(AddMissing(KeepDisabled(stored, WithPresence(views, installed)), installed), views)
  {
    ShownKept(stored, views, installed);
    var kept := KeepDisabled(stored, WithPresence(views, installed));
    ListedSame(kept, views, installed);
    NothingMissing(kept, installed);
  }

  /** Refreshing again with nothing changed changes nothing. */
  lemma RefreshIdempotent(s: Order, installed: seq<Folder>)
    ensures
      var once := Refreshed(s, installed);
      Refreshed(once, installed) == once
  {
    var once := Refreshed(s, installed);
    var views := Reread(s, installed);
    var stored := AllEnabled(StoredFolders(s.file));
    var kept := KeepDisabled(stored, s.entries);
    KeepDisabledGrows(stored, s.entries);
    AddMissingGrows(kept, installed);
    KeepDisabledDistinct(stored, s.entries, |stored|);
    AddMissingDistinct(kept, installed, |stored|);
    assert forall k :: 0 <= k < |views| ==> (k < |stored| ==> views[k] == stored[k]) && (|stored| <= k < |kept| ==> views[k] == kept[k]);
    RereadFixed(stored, views, installed);
    PresenceSame(Reread(once, installed), views, installed);
    RereadEnables(s, installed);
    RereadEnables(once, installed);
  }

  // ---- Committing and reading back

  lemma {:induction false} EnabledPlain(views: Views)
    requires PlainNames(views)
    ensures AllPlain(EnabledIn(views))
  {
    if views != [] {
      assert Compose(views)[1..] == Compose(views[1..]);
      assert views[0] in views;
      EnabledPlain(views[1..]);
    }
  }

  /** After a commit the file gives back the order on screen exactly when no enabled name has a line feed. */
  lemma CommitReadsBackExactly(s: Order, views: Views, remember: bool, installed: seq<Folder>)
    ensures
      var c := Committed(s, views, remember, true);
      EnabledIn(Refreshed(c, installed).entries) == EnabledIn(c.entries) <==> AllPlain(EnabledIn(views))
  {
    var c := Committed(s, views, remember, true);
    SamePrinted(views, s.installed);
    RereadEnables(c, installed);
    SamePrinted(Reread(c, installed), installed);
    OrderRoundTrip(EnabledIn(views));
    if Parsed(Printed(EnabledIn(views))).Err? && EnabledIn(views) == [] {
      OrderRoundTrip([]);
    }
  }

  lemma PresentedPlain(s: Order, views: Views, remember: bool, written: bool)
    requires PlainNames(views) && written
    ensures PlainNames(Committed(s, views, remember, written).entries)
  {
    var c := Committed(s, views, remember, written);
    forall v | v in c.entries
      ensures NoLineFeed(v.folder)
    {
      var i :| 0 <= i < |c.entries| && c.entries[i] == v;
      assert views[i] in views;
    }
  }

  lemma CommitPlain(s: Order, views: Views, remember: bool)
    requires Plain(s) && PlainNames(views)
    ensures Plain(Committed(s, views, remember, true))
  {
    PresentedPlain(s, views, remember, true);
    PlainComposed(s.entries);
  }

  lemma CommitCoherent(s: Order, views: Views, remember: bool, written: bool)
    requires Coherent(s) && Plain(s) && PlainNames(views) && AllListed(views, s.installed)
    ensures Coherent(Committed(s, views, remember, written)) && Plain(Committed(s, views, remember, written))
  {
    if written {
      SamePrinted(views, s.installed);
      EnabledPlain(views);
      OrderRoundTrip(EnabledIn(views));
      ListedWithPresence(views, s.installed, s.installed);
      CommitPlain(s, views, remember);
    }
  }

  lemma PlainComposed(views: Views)
    requires PlainNames(views)
    ensures PlainOrder(Compose(views))
  {
    forall e | e in Compose(views)
      ensures NoLineFeed(e.folder)
    {
      var i :| 0 <= i < |views| && Compose(views)[i] == e;
      assert views[i] in views;
    }
  }

  // ---- Runs

  datatype OrderOp = DoEdit(edit: Edit, written: bool) | DoUndo(written: bool) | DoRefresh

  /** A refresh here finds the same mods installed and the file as it was left. */
  function Step(s: Order, op: OrderOp): Order {
    match op
    case DoEdit(edit, written) => AfterEdit(s, edit, written)
    case DoUndo(written) => AfterUndo(s, written)
    case DoRefresh => Refreshed(s, s.installed)
  }

  function Ran(s: Order, ops: seq<OrderOp>): Order
    decreases ops
  {
    if ops == [] then s else Ran(Step(s, ops[0]), ops[1..])
  }

  /** How many more edits than undos have taken effect. */
  function DepthChange(s: Order, op: OrderOp): int {
    match op
    case DoEdit(edit, written) => if written && Edited(s.entries, edit).Some? then 1 else 0
    case DoUndo(written) => if written && s.undo != [] then -1 else 0
    case DoRefresh => 0
  }

  lemma EditedStillListed(views: Views, edit: Edit, installed: seq<Folder>)
    requires Edited(views, edit).Some? && AllListed(views, installed) && PlainNames(views)
    ensures AllListed(Edited(views, edit).value, installed) && PlainNames(Edited(views, edit).value)
  {
    var after := Edited(views, edit).value;
    EditKeepsFolders(views, edit);
    forall f
      ensures Listed(views, f) <==> f in multiset(Folders(views))
      ensures Listed(after, f) <==> f in multiset(Folders(after))
    {
      ListedInFolders(views, f);
      ListedInFolders(after, f);
    }
    forall v | v in after
      ensures NoLineFeed(v.folder)
    {
      assert Listed(after, v.folder);
      var w :| w in views && w.folder == v.folder;
    }
  }

  lemma ListedInFolders(views: Views, f: Folder)
    ensures Listed(views, f) <==> f in Folders(views)
  {
    if Listed(views, f) {
      var v :| v in views && v.folder == f;
      var i :| 0 <= i < |views| && views[i] == v;
      assert Folders(views)[i] == f;
    }
    if f in Folders(views) {
      var i :| 0 <= i < |views| && Folders(views)[i] == f;
      assert views[i] in views;
    }
  }

  lemma AddMissingPlain(views: Views, installed: seq<Folder>)
    requires PlainNames(views) && AllPlain(installed)
    ensures PlainNames(AddMissing(views, installed))
  {
    AddMissingGrows(views, installed);
    var r := AddMissing(views, installed);
    forall v | v in r
      ensures NoLineFeed(v.folder)
    {
      var k :| 0 <= k < |r| && r[k] == v;
      assert k < |views| ==> views[k] in views;
    }
  }

  lemma RereadPlain(s: Order, installed: seq<Folder>)
    requires PlainNames(s.entries) && AllPlain(installed)
    ensures PlainNames(Reread(s, installed))
  {
    var stored := AllEnabled(StoredFolders(s.file));
    var kept := KeepDisabled(stored, s.entries);
    KeepDisabledGrows(stored, s.entries);
    if s.file.Some? && Parsed(s.file.value).Ok? {
      ParsedIsPlain(s.file.value);
    }
    forall v | v in kept
      ensures NoLineFeed(v.folder)
    {
      var k :| 0 <= k < |kept| && kept[k] == v;
      if |stored| <= k {
        assert Listed(s.entries, v.folder);
      }
    }
    AddMissingPlain(kept, installed);
  }

  lemma WithPresencePlain(views: Views, installed: seq<Folder>)
    requires PlainNames(views)
    ensures PlainNames(WithPresence(views, installed))
  {
    forall v | v in WithPresence(views, installed)
      ensures NoLineFeed(v.folder)
    {
      var i :| 0 <= i < |views| && WithPresence(views, installed)[i] == v;
      assert views[i] in views;
    }
  }

  lemma ExpandReady(order: LoadOrder, installed: seq<Folder>)
    requires PlainOrder(order) && AllPlain(installed)
    ensures PlainNames(Expand(order, installed)) && AllListed(Expand(order, installed), installed)
  {
    forall v | v in FromOrder(order)
      ensures NoLineFeed(v.folder)
    {
      var i :| 0 <= i < |order| && FromOrder(order)[i] == v;
      assert order[i] in order;
    }
    AddMissingPlain(FromOrder(order), installed);
    AddMissingGrows(FromOrder(order), installed);
  }

  /** File, screen and history stay in agreement through every edit, undo and refresh, written or not. */
  lemma StepCoherent(s: Order, op: OrderOp)
    requires Coherent(s) && Plain(s)
    ensures Coherent(Step(s, op)) && Plain(Step(s, op))
  {
    match op {
      case DoEdit(edit, written) =>
        if Edited(s.entries, edit).Some? {
          EditedStillListed(s.entries, edit, s.installed);
          CommitCoherent(s, Edited(s.entries, edit).value, true, written);
        }
      case DoUndo(written) =>
        if s.undo != [] {
          var last := s.undo[|s.undo| - 1];
          ExpandReady(last, s.installed);
          CommitCoherent(s, Expand(last, s.installed), false, written);
        }
      case DoRefresh =>
        RefreshCoherent(s, s.installed);
        RefreshKeepsOrder(s, s.installed);
        RereadPlain(s, s.installed);
        WithPresencePlain(Reread(s, s.installed), s.installed);
    }
  }

  lemma {:induction false} RunCoherent(s: Order, ops: seq<OrderOp>)
    requires Coherent(s) && Plain(s)
    ensures Coherent(Ran(s, ops)) && Plain(Ran(s, ops))
    decreases ops
  {
    if ops != [] {
      StepCoherent(s, ops[0]);
      RunCoherent(Step(s, ops[0]), ops[1..]);
    }
  }

  /** The order to come back to is the d-th from the top of the history. */
  ghost predicate AtDepth(s: Order, order: LoadOrder, d: nat) {
    1 <= d <= |s.undo| && s.undo[|s.undo| - d] == order
  }

  /** What a step does to the history. */
  function HistoryAfter(s: Order, op: OrderOp): seq<LoadOrder> {
    if DepthChange(s, op) == 1 then Remembered(s.undo, Compose(s.entries))
    else if DepthChange(s, op) == -1 && s.undo != [] then s.undo[..|s.undo| - 1]
    else s.undo
  }

  lemma StepHistory(s: Order, op: OrderOp)
    requires Coherent(s)
    ensures Step(s, op).undo == HistoryAfter(s, op) && Step(s, op).installed == s.installed
  {
    if op.DoRefresh? {
      RefreshKeepsOrder(s, s.installed);
    }
  }

  lemma RememberedAt(undo: seq<LoadOrder>, order: LoadOrder, d: nat)
    requires 1 <= d <= |undo| <= HISTORY_LIMIT && d < HISTORY_LIMIT
    ensures
      var r := Remembered(undo, order);
      d + 1 <= |r| <= HISTORY_LIMIT && r[|r| - (d + 1)] == undo[|undo| - d]
  {
  }

  lemma HistoryAtDepth(s: Order, op: OrderOp, order: LoadOrder, d: nat, change: int)
    requires |s.undo| <= HISTORY_LIMIT && AtDepth(s, order, d) && change == DepthChange(s, op)
    requires 1 <= d + change <= HISTORY_LIMIT
    ensures
      var r := HistoryAfter(s, op);
      d + change <= |r| && r[|r| - (d + change)] == order
  {
    if change == 1 {
      RememberedAt(s.undo, Compose(s.entries), d);
    }
  }

  lemma AtDepthBy(undo: seq<LoadOrder>, next: Order, order: LoadOrder, d: int)
    requires next.undo == undo && 1 <= d <= |undo| && undo[|undo| - d] == order
    ensures AtDepth(next, order, d)
  {
  }

  lemma StepAtDepth(s: Order, op: OrderOp, order: LoadOrder, d: nat)
    requires |s.undo| <= HISTORY_LIMIT && AtDepth(s, order, d) && Step(s, op).undo == HistoryAfter(s, op)
    requires 1 <= d + DepthChange(s, op) <= HISTORY_LIMIT
    ensures AtDepth(Step(s, op), order, d + DepthChange(s, op))
  {
    HistoryAtDepth(s, op, order, d, DepthChange(s, op));
    AtDepthBy(HistoryAfter(s, op), Step(s, op), order, d + DepthChange(s, op));
  }

  lemma PresenceKnown(views: Views, installed: seq<Folder>)
    requires Marked(views, installed)
    ensures WithPresence(views, installed) == views
  {
    assert forall i :: 0 <= i < |views| ==> views[i] in views;
  }

  /** Expanding a remembered order gives back the very list it was taken from. */
  lemma ExpandBack(views: Views, installed: seq<Folder>)
    requires AllListed(views, installed) && Marked(views, installed)
    ensures WithPresence(Expand(Compose(views), installed), installed) == views
  {
    var plain := FromOrder(Compose(views));
    assert SameButPresence(plain, views);
    ListedSame(plain, views, installed);
    NothingMissing(plain, installed);
    PresenceSame(plain, views, installed);
    PresenceKnown(views, installed);
  }

  /** The list on screen is back, and the file is the printed order of that list. */
  ghost predicate Restored(start: Order, r: Order) {
    r.entries == start.entries && r.preview == start.preview && r.file == Some(start.preview)
  }

  /** The file gives the same folders as before; it is the same file exactly when it was the printed order already. */
  lemma RestoredFile(start: Order, r: Order)
    requires Coherent(start) && Plain(start) && Restored(start, r)
    ensures StoredFolders(r.file) == StoredFolders(start.file)
    ensures r.file == start.file <==> start.file == Some(start.preview)
  {
    EnabledPlain(start.entries);
    OrderRoundTrip(EnabledIn(start.entries));
  }

  ghost predicate Ready(start: Order, s: Order) {
    Coherent(s) && Plain(s) && s.installed == start.installed
  }

  lemma StepReady(start: Order, s: Order, op: OrderOp)
    requires Ready(start, s)
    ensures Ready(start, Step(s, op))
  {
    StepCoherent(s, op);
    StepHistory(s, op);
  }

  /** The undo that takes back the first edit restores the list and prints it. */
  lemma LastUndoRestores(start: Order, s: Order, op: OrderOp)
    requires Coherent(start) && s.installed == start.installed && AtDepth(s, Compose(start.entries), 1)
    requires op.DoUndo? && op.written
    ensures Restored(start, Step(s, op))
  {
    ExpandBack(start.entries, s.installed);
    SamePrinted(Expand(Compose(start.entries), s.installed), s.installed);
  }

  /** A state on the way, and how many edits are still to be undone there. */
  datatype Visit = Visit(state: Order, depth: int)

  ghost predicate Follows(a: Visit, op: OrderOp, b: Visit) {
    b.state == Step(a.state, op) && b.depth == a.depth + DepthChange(a.state, op)
  }

  ghost predicate LinkedAt(path: seq<Visit>, ops: seq<OrderOp>, i: nat)
    requires |path| == |ops| + 1 && i < |ops|
  {
    Follows(path[i], ops[i], path[i + 1])
  }

  ghost predicate Linked(path: seq<Visit>, ops: seq<OrderOp>) {
    |path| == |ops| + 1 && forall i :: 0 <= i < |ops| ==> LinkedAt(path, ops, i)
  }

  /** What holds at every visit between an edit and its undo. */
  ghost predicate Underway(start: Order, v: Visit) {
    Ready(start, v.state) && 1 <= v.depth <= HISTORY_LIMIT && AtDepth(v.state, Compose(start.entries), v.depth)
  }

  lemma FirstUnderway(start: Order, a: Visit, op: OrderOp, b: Visit)
    requires Ready(start, start) && a == Visit(start, 0) && Follows(a, op, b) && b.depth >= 1
    ensures Underway(start, b)
  {
    StepReady(start, start, op);
    StepHistory(start, op);
  }

  lemma StaysUnderway(start: Order, a: Visit, op: OrderOp, b: Visit)
    requires Underway(start, a) && Follows(a, op, b) && 1 <= b.depth <= HISTORY_LIMIT
    ensures Underway(start, b)
  {
    StepReady(start, a.state, op);
    StepHistory(a.state, op);
    StepAtDepth(a.state, op, Compose(start.entries), a.depth);
  }

  /** What comes back to no edits is a written undo of the only one left. */
  lemma LastDepth(start: Order, a: Visit, op: OrderOp, b: Visit)
    requires Underway(start, a) && b.depth == a.depth + DepthChange(a.state, op) && b.depth == 0
    ensures op == DoUndo(true) && AtDepth(a.state, Compose(start.entries), 1) && a.state.installed == start.installed
  {
    LoweredByUndo(a.state, op);
  }

  lemma LastUnderway(start: Order, a: Visit, op: OrderOp, b: Visit)
    requires Coherent(start) && Underway(start, a) && Follows(a, op, b) && b.depth == 0
    ensures Restored(start, b.state)
  {
    LastDepth(start, a, op, b);
    LastUndoRestores(start, a.state, op);
  }

  lemma LoweredByUndo(s: Order, op: OrderOp)
    ensures DepthChange(s, op) == -1 ==> op == DoUndo(true)
    ensures DepthChange(s, op) >= -1
  {
  }

  /** Some edits are still to be undone, no more than are remembered. */
  ghost predicate InDepth(v: Visit) {
    1 <= v.depth <= HISTORY_LIMIT
  }

  lemma UnderwayStarts(path: seq<Visit>, ops: seq<OrderOp>, start: Order)
    requires |path| == |ops| + 1 && ops != []
    ensures LinkedAt(path, ops, 0) && path[0] == Visit(start, 0) && Ready(start, start) && InDepth(path[1]) ==> Underway(start, path[1])
  {
    if LinkedAt(path, ops, 0) && path[0] == Visit(start, 0) && Ready(start, start) && InDepth(path[1]) {
      FirstUnderway(start, path[0], ops[0], path[1]);
    }
  }

  lemma UnderwayGoesOn(path: seq<Visit>, ops: seq<OrderOp>, start: Order, i: nat)
    requires |path| == |ops| + 1 && i < |ops|
    ensures LinkedAt(path, ops, i) && Underway(start, path[i]) && InDepth(path[i + 1]) ==> Underway(start, path[i + 1])
  {
    if LinkedAt(path, ops, i) && Underway(start, path[i]) && InDepth(path[i + 1]) {
      StaysUnderway(start, path[i], ops[i], path[i + 1]);
    }
  }

  lemma UnderwayEnds(path: seq<Visit>, ops: seq<OrderOp>, start: Order, i: nat)
    requires |path| == |ops| + 1 && i < |ops|
    ensures LinkedAt(path, ops, i) && Underway(start, path[i]) && Coherent(start) && path[i + 1].depth == 0 ==> Restored(start, path[i + 1].state)
  {
    if LinkedAt(path, ops, i) && Underway(start, path[i]) && Coherent(start) && path[i + 1].depth == 0 {
      LastUnderway(start, path[i], ops[i], path[i + 1]);
    }
  }

  /**
   * Edits, undos, refreshes and failed writes in any mixture, at most 64 edits deep and coming back to none
   * only at the end, leave the list on screen as it was and a file that gives the same folders as before: the very
   * same file exactly when that was the printed order already.
   */
  lemma UndoRestores(path: seq<Visit>, ops: seq<OrderOp>)
    requires Linked(path, ops) && |ops| >= 2 && Ready(path[0].state, path[0].state)
    requires path[0].depth == 0 && path[|ops|].depth == 0
    requires forall i :: 1 <= i < |ops| ==> InDepth(path[i])
    ensures
      var start, end := path[0].state, path[|ops|].state;
      && Restored(start, end)
      && StoredFolders(end.file) == StoredFolders(start.file)
      && (end.file == start.file <==> start.file == Some(start.preview))
  {
    var start := path[0].state;
    assert LinkedAt(path, ops, 0);
    UnderwayStarts(path, ops, start);
    for i := 1 to |ops| - 1
      invariant Underway(start, path[i])
    {
      assert LinkedAt(path, ops, i);
      UnderwayGoesOn(path, ops, start, i);
    }
    assert LinkedAt(path, ops, |ops| - 1);
    UnderwayEnds(path, ops, start, |ops| - 1);
    RestoredFile(start, path[|ops|].state);
  }

  // ---- k edits, k undos

  ghost predicate Raises(a: Visit, op: OrderOp) {
    DepthChange(a.state, op) == 1
  }

  /** k effective edits, then k undos, every write succeeding. */
  ghost predicate EditsThenUndos(path: seq<Visit>, ops: seq<OrderOp>, k: nat) {
    |ops| == 2 * k && |path| == |ops| + 1 && forall i :: 0 <= i < 2 * k ==> KindAt(path, ops, k, i)
  }

  ghost predicate KindAt(path: seq<Visit>, ops: seq<OrderOp>, k: nat, i: nat)
    requires i < |path| && i < |ops|
  {
    if i < k then Raises(path[i], ops[i]) else ops[i] == DoUndo(true)
  }

  lemma UndoLessens(start: Order, a: Visit, b: Visit)
    requires Underway(start, a) && Follows(a, DoUndo(true), b)
    ensures b.depth == a.depth - 1
    ensures a.depth > 1 ==> Underway(start, b)
  {
    if a.depth > 1 {
      StaysUnderway(start, a, DoUndo(true), b);
    }
  }

  lemma EditRaises(start: Order, a: Visit, op: OrderOp, b: Visit)
    requires Ready(start, start) && Raises(a, op) && Follows(a, op, b) && a.depth < HISTORY_LIMIT
    requires a == Visit(start, 0) || Underway(start, a)
    ensures b.depth == a.depth + 1 && Underway(start, b)
  {
    if a == Visit(start, 0) {
      FirstUnderway(start, a, op, b);
    } else {
      StaysUnderway(start, a, op, b);
    }
  }

  function DepthAt(k: nat, i: nat): int {
    if i <= k then i else 2 * k - i
  }

  /** Where the i-th visit stands. */
  ghost predicate OnCourse(start: Order, v: Visit, k: nat, i: nat) {
    && v.depth == DepthAt(k, i)
    && (i == 0 ==> v.state == start)
    && (1 <= i < 2 * k ==> Underway(start, v))
  }

  lemma CourseStep(start: Order, a: Visit, op: OrderOp, b: Visit, k: nat, i: nat)
    requires Ready(start, start) && Follows(a, op, b) && OnCourse(start, a, k, i) && i < 2 * k && k <= HISTORY_LIMIT
    requires if i < k then Raises(a, op) else op == DoUndo(true)
    ensures OnCourse(start, b, k, i + 1)
  {
    if i < k {
      EditRaises(start, a, op, b);
    } else {
      UndoLessens(start, a, b);
    }
  }

  lemma CourseStepAt(path: seq<Visit>, ops: seq<OrderOp>, start: Order, k: nat, i: nat)
    requires |path| == |ops| + 1 && i < |ops| == 2 * k && k <= HISTORY_LIMIT
    ensures LinkedAt(path, ops, i) && KindAt(path, ops, k, i) && Ready(start, start) && OnCourse(start, path[i], k, i) ==>
      OnCourse(start, path[i + 1], k, i + 1)
  {
    if LinkedAt(path, ops, i) && KindAt(path, ops, k, i) && Ready(start, start) && OnCourse(start, path[i], k, i) {
      CourseStep(start, path[i], ops[i], path[i + 1], k, i);
    }
  }

  lemma DepthsClimbAndFall(path: seq<Visit>, ops: seq<OrderOp>, start: Order, k: nat, n: nat)
    requires Linked(path, ops) && EditsThenUndos(path, ops, k) && k <= HISTORY_LIMIT && n <= 2 * k
    requires path[0] == Visit(start, 0) && Ready(start, start)
    ensures OnCourse(start, path[n], k, n)
  {
    for i := 0 to n
      invariant OnCourse(start, path[i], k, i)
    {
      CourseStepAt(path, ops, start, k, i);
      assert LinkedAt(path, ops, i) && KindAt(path, ops, k, i);
    }
  }

  lemma CourseInDepth(start: Order, v: Visit, k: nat, i: nat)
    requires k <= HISTORY_LIMIT && i <= 2 * k
    ensures OnCourse(start, v, k, i) && 1 <= i < 2 * k ==> InDepth(v)
    ensures OnCourse(start, v, k, i) && i == 2 * k ==> v.depth == 0
  {
  }

  /** Up to 64 edits followed by as many undos leave the list as it was, and the file as far as it was the printed order. */
  lemma EditsThenUndosRestore(path: seq<Visit>, ops: seq<OrderOp>, k: nat)
    requires Linked(path, ops) && EditsThenUndos(path, ops, k) && 1 <= k <= HISTORY_LIMIT
    requires path[0].depth == 0 && Ready(path[0].state, path[0].state)
    ensures
      var start, end := path[0].state, path[2 * k].state;
      && Restored(start, end)
      && StoredFolders(end.file) == StoredFolders(start.file)
      && (end.file == start.file <==> start.file == Some(start.preview))
  {
    forall n | 1 <= n <= 2 * k
      ensures n < 2 * k ==> InDepth(path[n])
      ensures n == 2 * k ==> path[n].depth == 0
    {
      DepthsClimbAndFall(path, ops, path[0].state, k, n);
      CourseInDepth(path[0].state, path[n], k, n);
    }
    UndoRestores(path, ops);
  }

  // ---- The file that was not printed

  /** A service just opened where one mod is installed and there is no order file. */
  function JustOpened(folder: Folder): Order {
    Refreshed(Order([], [], [], "", true, false, None), [folder])
  }

  lemma JustOpenedList(folder: Folder)
    ensures JustOpened(folder).entries == [EntryView(folder, false, true)]
    ensures JustOpened(folder).installed == [folder] && JustOpened(folder).undo == [] && JustOpened(folder).file == None
  {
    var empty := Order([], [], [], "", true, false, None);
    var one := [EntryView(folder, false, true)];
    assert AllEnabled(StoredFolders(None)) == [] && KeepDisabled([], []) == [];
    assert !Listed([], folder) && [] + one == one;
    assert AddMissing([], [folder]) == AddMissing([] + one, [folder][1..]);
    assert Reread(empty, [folder]) == one;
  }

  lemma JustOpenedReady(folder: Folder)
    requires NoLineFeed(folder)
    ensures Ready(JustOpened(folder), JustOpened(folder))
  {
    JustOpenedList(folder);
    RefreshCoherent(Order([], [], [], "", true, false, None), [folder]);
  }

  lemma EnablingWorks(folder: Folder)
    ensures DepthChange(JustOpened(folder), DoEdit(SetEnabled(folder, true), true)) == 1
  {
    JustOpenedList(folder);
  }

  /** Enabling the only mod and undoing it leaves an order file where there was none. */
  lemma UndoLeavesANewFile(folder: Folder)
    requires NoLineFeed(folder)
    ensures
      var start := JustOpened(folder);
      var enabled := Step(start, DoEdit(SetEnabled(folder, true), true));
      var undone := Step(enabled, DoUndo(true));
      start.file == None && Restored(start, undone) && undone.file == Some(start.preview)
  {
    var start := JustOpened(folder);
    var edit := DoEdit(SetEnabled(folder, true), true);
    var enabled := Step(start, edit);
    JustOpenedReady(folder);
    JustOpenedList(folder);
    EnablingWorks(folder);
    StepReady(start, start, edit);
    StepHistory(start, edit);
    assert AtDepth(enabled, Compose(start.entries), 1);
    LastUndoRestores(start, enabled, DoUndo(true));
  }
}
