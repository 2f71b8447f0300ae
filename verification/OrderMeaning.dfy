/** What refreshing, applying, undoing and remembering mean, said without the loops that do them. */
module OrderMeaning {
  import opened Wrappers
  import opened OrderFile
  import opened OrderService

  // ---- What a loop adds to a list

  /** First occurrence, or the length when there is none. */
  function FirstIn(folders: seq<Folder>, f: Folder): (i: nat)
    ensures i <= |folders|
    ensures i < |folders| ==> folders[i] == f
    ensures forall k :: 0 <= k < i ==> folders[k] != f
  {
    if folders == [] || folders[0] == f then 0 else 1 + FirstIn(folders[1..], f)
  }

  /** The candidates the list does not have yet, each once, in the order they first come. */
  ghost predicate Added(have: seq<Folder>, candidates: seq<Folder>, add: seq<Folder>) {
    && (forall f :: f in add <==> f in candidates && f !in have)
    && (forall i, k :: 0 <= i < k < |add| ==> FirstIn(candidates, add[i]) < FirstIn(candidates, add[k]))
  }

  lemma AddedSkips(have: seq<Folder>, f: Folder, rest: seq<Folder>, add: seq<Folder>)
    requires f in have && Added(have, rest, add)
    ensures Added(have, [f] + rest, add)
  {
    forall x | x in add
      ensures FirstIn([f] + rest, x) == 1 + FirstIn(rest, x)
    {
      assert ([f] + rest)[1..] == rest;
    }
    assert forall i :: 0 <= i < |add| ==> add[i] in add;
  }

  lemma FirstInFront(f: Folder, rest: seq<Folder>, x: Folder)
    ensures FirstIn([f] + rest, x) == if x == f then 0 else 1 + FirstIn(rest, x)
  {
    assert ([f] + rest)[1..] == rest;
  }

  lemma AddedTakes(have: seq<Folder>, f: Folder, rest: seq<Folder>, add: seq<Folder>)
    requires f !in have && Added(have + [f], rest, add)
    ensures Added(have, [f] + rest, [f] + add)
  {
    var all := [f] + add;
    assert f in have + [f];
    forall x
      ensures x in all <==> x in [f] + rest && x !in have
    {
      assert x in have + [f] <==> x in have || x == f;
    }
    forall i, k | 0 <= i < k < |all|
      ensures FirstIn([f] + rest, all[i]) < FirstIn([f] + rest, all[k])
    {
      assert all[k] == add[k - 1] && add[k - 1] in add && all[k] != f;
      FirstInFront(f, rest, all[i]);
      FirstInFront(f, rest, all[k]);
      if i > 0 {
        assert all[i] == add[i - 1] && add[i - 1] in add && all[i] != f;
      }
    }
  }

  lemma NothingAdded(have: seq<Folder>)
    ensures Added(have, [], [])
  {
  }

  lemma ListedFolders(views: Views, f: Folder)
    ensures Listed(views, f) <==> f in Folders(views)
  {
    if f in Folders(views) {
      var i :| 0 <= i < |Folders(views)| && Folders(views)[i] == f;
      assert views[i] in views;
    }
    if v :| v in views && v.folder == f {
      var i :| 0 <= i < |views| && views[i] == v;
      assert Folders(views)[i] == f;
    }
  }

  lemma OneMoreFolder(views: Views, v: EntryView)
    ensures Folders(views + [v]) == Folders(views) + [v.folder]
  {
  }

  lemma {:induction false} AddMissingAdds(views: Views, installed: seq<Folder>) returns (add: seq<Folder>)
    ensures Added(Folders(views), installed, add)
    ensures Folders(AddMissing(views, installed)) == Folders(views) + add
    decreases installed
  {
    if installed == [] {
      add := [];
      NothingAdded(Folders(views));
    } else {
      var f, rest := installed[0], installed[1..];
      assert [f] + rest == installed;
      ListedFolders(views, f);
      if Listed(views, f) {
        add := AddMissingAdds(views, rest);
        AddedSkips(Folders(views), f, rest, add);
      } else {
        OneMoreFolder(views, EntryView(f, false, true));
        var more := AddMissingAdds(views + [EntryView(f, false, true)], rest);
        AddedTakes(Folders(views), f, rest, more);
        add := [f] + more;
        assert Folders(views) + [f] + more == Folders(views) + add;
      }
    }
  }

  function DisabledFolders(views: Views): seq<Folder> {
    if views == [] then [] else (if views[0].enabled then [] else [views[0].folder]) + DisabledFolders(views[1..])
  }

  lemma DisabledUnfolds(views: Views)
    requires views != []
    ensures DisabledFolders(views) == (if views[0].enabled then [] else [views[0].folder]) + DisabledFolders(views[1..])
  {
  }

  lemma KeepDisabledUnfolds(views: Views, previous: Views)
    requires previous != []
    ensures KeepDisabled(views, previous)
         == KeepDisabled(
              if previous[0].enabled || Listed(views, previous[0].folder) then views
              else views + [EntryView(previous[0].folder, false, false)],
              previous[1..])
  {
  }

  /** One more added in front. */
  lemma AddedInFront(have: seq<Folder>, f: Folder, rest: seq<Folder>, more: seq<Folder>, all: seq<Folder>)
    requires f !in have && Added(have + [f], rest, more) && all == have + [f] + more
    ensures Added(have, [f] + rest, [f] + more) && all == have + ([f] + more)
  {
    AddedTakes(have, f, rest, more);
  }

  lemma {:induction false} KeepDisabledAdds(views: Views, previous: Views) returns (add: seq<Folder>)
    ensures Added(Folders(views), DisabledFolders(previous), add)
    ensures Folders(KeepDisabled(views, previous)) == Folders(views) + add
    decreases previous
  {
    if previous == [] {
      add := [];
      NothingAdded(Folders(views));
    } else {
      var f, rest := previous[0].folder, DisabledFolders(previous[1..]);
      ListedFolders(views, f);
      DisabledUnfolds(previous);
      KeepDisabledUnfolds(views, previous);
      if previous[0].enabled {
        add := KeepDisabledAdds(views, previous[1..]);
        assert [] + rest == rest;
      } else if Listed(views, f) {
        add := KeepDisabledAdds(views, previous[1..]);
        AddedSkips(Folders(views), f, rest, add);
      } else {
        var next := views + [EntryView(f, false, false)];
        OneMoreFolder(views, EntryView(f, false, false));
        var more := KeepDisabledAdds(next, previous[1..]);
        AddedInFront(Folders(views), f, rest, more, Folders(KeepDisabled(next, previous[1..])));
        add := [f] + more;
      }
    }
  }

  // ---- Refreshing

  /**
   * The list after a refresh: what the file gives, enabled and in its order; then the disabled entries there were and
   * then the mods installed, each only if not listed yet and disabled; and every entry says whether it is installed.
   */
  ghost predicate ListsAfterRefresh(before: Views, stored: seq<Folder>, installed: seq<Folder>, after: Views) {
    exists kept: seq<Folder>, added: seq<Folder> ::
      && Added(stored, DisabledFolders(before), kept) && Added(stored + kept, installed, added)
      && Folders(after) == stored + kept + added
      && forall i :: 0 <= i < |after| ==> (after[i].enabled <==> i < |stored|) && (after[i].present <==> after[i].folder in installed)
  }

  lemma RereadLists(s: Order, installed: seq<Folder>)
    ensures ListsAfterRefresh(s.entries, StoredFolders(s.file), installed, WithPresence(Reread(s, installed), installed))
  {
    var stored := StoredFolders(s.file);
    var first := AllEnabled(stored);
    assert Folders(first) == stored;
    var second := KeepDisabled(first, s.entries);
    var kept := KeepDisabledAdds(first, s.entries);
    var added := AddMissingAdds(second, installed);
    KeepDisabledGrows(first, s.entries);
    AddMissingGrows(second, installed);
    var views := AddMissing(second, installed);
    var after := WithPresence(views, installed);
    assert Folders(after) == Folders(views);
    forall i | 0 <= i < |after|
      ensures (after[i].enabled <==> i < |stored|) && (after[i].present <==> after[i].folder in installed)
    {
      assert i < |first| ==> views[i] == second[i] == first[i];
      assert |first| <= i < |second| ==> views[i] == second[i];
    }
  }

  /** A refresh lists what there is, prints it, and forgets the history exactly when that is not what was printed before. */
  lemma RefreshMeaning(s: Order, installed: seq<Folder>)
    ensures
      var r := Refreshed(s, installed);
      && ListsAfterRefresh(s.entries, StoredFolders(s.file), installed, r.entries)
      && r.preview == Printed(StoredFolders(s.file))
      && r.undo == (if r.preview == s.preview then s.undo else [])
      && r.installed == installed && r.file == s.file && r.located == s.located && r.writable == s.located
  {
    RereadLists(s, installed);
    RereadEnables(s, installed);
  }

  // ---- Writing an order

  /** The list of an order: its entries as they are, then the installed mods it lacks, disabled. */
  ghost predicate ListsOrder(order: LoadOrder, installed: seq<Folder>, after: Views) {
    exists added: seq<Folder> ::
      && Added(Folders(FromOrder(order)), installed, added)
      && Folders(after) == Folders(FromOrder(order)) + added
      && forall i :: 0 <= i < |after| ==>
           && (after[i].enabled <==> i < |order| && order[i].enabled)
           && (after[i].present <==> after[i].folder in installed)
  }

  lemma ExpandLists(order: LoadOrder, installed: seq<Folder>)
    ensures ListsOrder(order, installed, WithPresence(Expand(order, installed), installed))
  {
    var first := FromOrder(order);
    var added := AddMissingAdds(first, installed);
    AddMissingGrows(first, installed);
    var views := Expand(order, installed);
    var after := WithPresence(views, installed);
    assert Folders(after) == Folders(views);
    forall i | 0 <= i < |after|
      ensures after[i].enabled <==> i < |order| && order[i].enabled
    {
      assert i < |first| ==> views[i] == first[i];
    }
  }

  /** A failed write changes the writable flag and nothing else. */
  ghost predicate OnlyFlagged(s: Order, r: Order) {
    r == Order(s.entries, s.undo, s.installed, s.preview, s.located, false, s.file)
  }

  /** What is on screen is printed, on disk and in the preview; a located installation can be written to. */
  ghost predicate WrittenOut(s: Order, r: Order) {
    && r.preview == Printed(EnabledIn(r.entries)) && r.file == Some(r.preview)
    && r.installed == s.installed && r.located == s.located && r.writable == s.located
  }

  /** Applying a whole order lists and prints it and leaves nothing to undo, or changes the flag only. */
  lemma ApplyMeaning(s: Order, order: LoadOrder, written: bool)
    ensures
      var r := AfterApply(s, order, written);
      if written then ListsOrder(order, s.installed, r.entries) && WrittenOut(s, r) && r.undo == []
      else OnlyFlagged(s, r)
  {
    ExpandLists(order, s.installed);
    SamePrinted(Expand(order, s.installed), s.installed);
  }

  /** Undo lists and prints the last remembered order and forgets that one only, or changes the flag only, or nothing. */
  lemma UndoMeaning(s: Order, written: bool)
    ensures
      var r := AfterUndo(s, written);
      if s.undo == [] then r == s
      else if written then
        && ListsOrder(s.undo[|s.undo| - 1], s.installed, r.entries) && WrittenOut(s, r)
        && r.undo + [s.undo[|s.undo| - 1]] == s.undo
      else OnlyFlagged(s, r)
  {
    if s.undo != [] {
      ExpandLists(s.undo[|s.undo| - 1], s.installed);
      SamePrinted(Expand(s.undo[|s.undo| - 1], s.installed), s.installed);
    }
  }

  /** The order on screen before, on top of the older ones, of which at most 63 stay. */
  ghost predicate RemembersBefore(s: Order, undo: seq<LoadOrder>)
    requires |s.undo| <= 64
  {
    && undo != [] && |undo[|undo| - 1]| == |s.entries|
    && (forall i :: 0 <= i < |s.entries| ==> undo[|undo| - 1][i] == OrderEntry(s.entries[i].folder, s.entries[i].enabled))
    && |undo| == (if |s.undo| < 64 then |s.undo| + 1 else 64)
    && undo[..|undo| - 1] == s.undo[|s.undo| + 1 - |undo|..]
  }

  lemma RememberedBefore(s: Order)
    requires |s.undo| <= 64
    ensures RemembersBefore(s, Remembered(s.undo, Compose(s.entries)))
  {
  }

  /** The list as edited, marked anew. */
  ghost predicate ListsEdited(views: Views, installed: seq<Folder>, after: Views) {
    && |after| == |views|
    && forall i :: 0 <= i < |views| ==>
         && after[i].folder == views[i].folder && after[i].enabled == views[i].enabled
         && (after[i].present <==> views[i].folder in installed)
  }

  /** An edit that takes effect is listed as edited, printed and remembered, or changes the flag only. */
  lemma EditMeaning(s: Order, edit: Edit, written: bool)
    requires |s.undo| <= 64
    ensures
      var r := AfterEdit(s, edit, written);
      match Edited(s.entries, edit)
      case None => r == s
      case Some(views) =>
        if written then
          && ListsEdited(views, s.installed, r.entries) && WrittenOut(s, r)
          && RemembersBefore(s, r.undo)
        else OnlyFlagged(s, r)
  {
    if Edited(s.entries, edit).Some? {
      SamePrinted(Edited(s.entries, edit).value, s.installed);
      RememberedBefore(s);
    }
  }
}
