/** What beginning, cancelling and polling a fetch mean, told from the calls alone. */
module TransferMeaning {
  import opened Wrappers
  import opened Sequences
  import opened Bytes
  import opened ChunkLocator
  import Fetching
  import opened TransferSession

  predicate InProgress(s: Session) {
    s.fetch.status.phase == Fetching.Metadata || s.fetch.status.phase == Fetching.Downloading
  }

  // ---- Cancelling

  /** The removals outstanding once the active torrent, if it still stands, is to go as well. */
  function Outstanding(s: Session, valid: bool): seq<Fetching.Handle> {
    if s.fetch.fetching.Some? && valid then s.fetch.removing + [s.fetch.fetching.value] else s.fetch.removing
  }

  /** Nothing is fetched any more; the destinations stay exactly while a removal is outstanding. */
  lemma CancelMeaning(s: Session, own: seq<ChunkDestination>, valid: bool)
    requires Owned(s, own)
    ensures
      var c := Cancelled(s, valid);
      && c.fetch.fetching == None && c.fetch.wanted == {} && !c.fetch.prioritised && c.fetch.settledPolls == 0
      && c.fetch.status == s.fetch.status.(phase := if InProgress(s) then Fetching.Idle else s.fetch.status.phase)
      && c.fetch.removing == Outstanding(s, valid)
      && (c.fetch.clearPending <==> Outstanding(s, valid) != [])
      && c.destinations == (if Outstanding(s, valid) == [] then map[] else s.destinations)
      && c.present == s.present
  {
  }

  // ---- Beginning

  predicate TooLong(destinations: seq<ChunkDestination>) {
    exists i :: 0 <= i < |destinations| && destinations[i].length > 0xFFFF_FFFF
  }

  /** The first obstacle, in the order the caller meets them. */
  function Obstacle(s: Session, request: FetchRequest, lib: Library): Option<FetchError> {
    if InProgress(s) then Some(AlreadyBusy)
    else if |request.wantedFiles| == 0 then Some(NothingWanted)
    else if ToHex(request.infoHash) in s.present then Some(AlreadyPresent)
    else if TooLong(request.destinations) then Some(DestinationRejected)
    else if !lib.magnetParses then Some(MagnetRejected)
    else if lib.added == None then Some(SessionRejected)
    else None
  }

  /** Nothing is fetched and nothing is registered; removals are still waited for. */
  predicate Vacated(s: Session, valid: bool, after: Session) {
    && after.fetch.status.phase == Fetching.Idle
    && after.fetch.fetching == None && after.fetch.wanted == {} && !after.fetch.prioritised && after.fetch.settledPolls == 0
    && after.fetch.removing == Outstanding(s, valid) && !after.fetch.clearPending
    && after.destinations == map[] && after.present == s.present
  }

  /** A fetch with nothing to show yet. */
  function FirstStatus(identifier: string): Fetching.FetchStatus {
    Fetching.FetchStatus(
      phase := Fetching.Metadata, identifier := identifier, fetchedBytes := 0, inFlightBytes := 0, wantedBytes := 0, peers := 0,
      hashFailures := 0, bannedPeers := 0, pendingWrites := 0, settling := false)
  }

  ghost predicate Underway(s: Session, request: FetchRequest, lib: Library, after: Session) {
    && after.fetch.status == FirstStatus(request.identifier)
    && after.fetch.fetching == lib.added
    && (forall name :: name in after.fetch.wanted <==> name in request.wantedFiles)
    && !after.fetch.prioritised && after.fetch.settledPolls == 0
    && after.fetch.removing == Outstanding(s, lib.activeValid) && !after.fetch.clearPending
    && after.destinations == FetchTable(map[], request.destinations) && after.present == s.present
  }

  lemma FitsExactly(destinations: seq<ChunkDestination>)
    ensures AllFit(destinations) <==> !TooLong(destinations)
  {
  }

  /** Every outcome of a begin: the first three obstacles change nothing, the later ones leave nothing behind. */
  lemma BeginMeaning(s: Session, own: seq<ChunkDestination>, request: FetchRequest, lib: Library)
    requires Owned(s, own)
    ensures
      var b := Started(s, request, lib);
      match Obstacle(s, request, lib)
      case None => b.result == Ok(()) && Underway(s, request, lib, b.session)
      case Some(error) =>
        && b.result == Err(error)
        && if error == AlreadyBusy || error == NothingWanted || error == AlreadyPresent then b.session == s
           else Vacated(s, lib.activeValid, b.session)
  {
    FitsExactly(request.destinations);
    if Refusal(s, request).None? {
      PreparedEmpty(s, own, request, lib.activeValid);
    }
  }

  // ---- Alerts

  /** The removals a batch of alerts confirms. */
  function ConfirmedIn(alerts: seq<Alert>): multiset<Fetching.Handle> {
    if alerts == [] then multiset{} else ConfirmedIn(alerts[..|alerts| - 1]) + ConfirmedBy(alerts[|alerts| - 1])
  }

  function ConfirmedBy(a: Alert): multiset<Fetching.Handle> {
    if a.TorrentRemoved? then multiset{a.handle} else multiset{}
  }

  lemma RemovedOnce(handles: seq<Fetching.Handle>, h: Fetching.Handle)
    ensures multiset(Fetching.Removed(handles, h)) == multiset(handles) - multiset{h}
  {
    var i := Fetching.FirstIndex(handles, h);
    if i < |handles| {
      assert handles == handles[..i] + [h] + handles[i + 1..];
    } else {
      assert h !in handles;
    }
  }

  lemma {:induction false} RoutedSnoc(f: Fetching.Fetch, active: Option<Fetching.Handle>, alerts: seq<Alert>, a: Alert)
    ensures RoutedAll(f, active, alerts + [a]) == Routed(RoutedAll(f, active, alerts), active, a)
    decreases alerts
  {
    if alerts == [] {
      assert (alerts + [a])[1..] == [];
    } else {
      assert (alerts + [a])[1..] == alerts[1..] + [a];
      RoutedSnoc(Routed(f, active, alerts[0]), active, alerts[1..], a);
    }
  }

  /** Each confirmation takes one outstanding removal off the list, whatever order they come in. */
  lemma {:induction false} ConfirmationsMeaning(f: Fetching.Fetch, active: Option<Fetching.Handle>, alerts: seq<Alert>)
    ensures multiset(RoutedAll(f, active, alerts).removing) == multiset(f.removing) - ConfirmedIn(alerts)
  {
    if alerts != [] {
      var earlier, a := alerts[..|alerts| - 1], alerts[|alerts| - 1];
      assert alerts == earlier + [a];
      ConfirmationsMeaning(f, active, earlier);
      RoutedSnoc(f, active, earlier, a);
      RoutedRemoves(RoutedAll(f, active, earlier), active, a);
      LessTwice(multiset(f.removing), ConfirmedIn(earlier), ConfirmedBy(a));
    }
  }

  lemma RoutedRemoves(f: Fetching.Fetch, active: Option<Fetching.Handle>, a: Alert)
    ensures multiset(Routed(f, active, a).removing) == multiset(f.removing) - ConfirmedBy(a)
  {
    if a.TorrentRemoved? {
      RemovedOnce(f.removing, a.handle);
    }
  }

  lemma LessTwice(all: multiset<Fetching.Handle>, some: multiset<Fetching.Handle>, more: multiset<Fetching.Handle>)
    ensures all - some - more == all - (some + more)
  {
  }

  /** A waiting clear comes exactly with the last outstanding removal. */
  lemma {:induction false} ClearExactly(f: Fetching.Fetch, active: Option<Fetching.Handle>, alerts: seq<Alert>)
    requires f.clearPending ==> f.removing != []
    ensures AnyClears(f, active, alerts) <==> f.clearPending && multiset(f.removing) <= ConfirmedIn(alerts)
    decreases alerts
  {
    ClearsWhenNoneLeft(f, active, alerts);
    ConfirmationsMeaning(f, active, alerts);
    var left := RoutedAll(f, active, alerts).removing;
    assert left == [] <==> multiset(left) == multiset{} by {
      if left != [] {
        assert left[0] in multiset(left);
      }
    }
    assert multiset(f.removing) - ConfirmedIn(alerts) == multiset{} <==> multiset(f.removing) <= ConfirmedIn(alerts);
  }

  lemma {:induction false} ClearsWhenNoneLeft(f: Fetching.Fetch, active: Option<Fetching.Handle>, alerts: seq<Alert>)
    requires f.clearPending ==> f.removing != []
    ensures AnyClears(f, active, alerts) <==> f.clearPending && RoutedAll(f, active, alerts).removing == []
    ensures RoutedAll(f, active, alerts).clearPending <==> f.clearPending && !AnyClears(f, active, alerts)
    ensures f.removing == [] ==> RoutedAll(f, active, alerts).removing == []
    decreases alerts
  {
    if alerts != [] {
      ClearsWhenNoneLeft(Routed(f, active, alerts[0]), active, alerts[1..]);
    }
  }

  // ---- Polling

  /** What an alert means for the fetch of a torrent: faults of other torrents are not counted. */
  function AlertOps(handle: Fetching.Handle, a: Alert): seq<Fetching.FetchOp> {
    match a
    case TorrentRemoved(h) => [Fetching.Confirm(h)]
    case HashFailed(h) => if h == handle then [Fetching.Report(Fetching.HashFailure)] else []
    case PeerBanned(h) => if h == handle then [Fetching.Report(Fetching.BannedPeer)] else []
    case TorrentBroken(h) => if h == handle then [Fetching.Report(Fetching.Fatal)] else []
  }

  function AllAlertOps(handle: Fetching.Handle, alerts: seq<Alert>): seq<Fetching.FetchOp> {
    if alerts == [] then [] else AlertOps(handle, alerts[0]) + AllAlertOps(handle, alerts[1..])
  }

  /** The files are prioritised once, as soon as their layout is known; then progress is taken. */
  function RefreshOps(earlier: seq<Fetching.FetchOp>, refresh: Option<Refresh>): seq<Fetching.FetchOp> {
    match refresh
    case None => []
    case Some(r) =>
      (if Fetching.WantedIn(earlier) == None && r.wantedBytes != None then [Fetching.Mark(r.wantedBytes.value)] else [])
      + [Fetching.Update(r.progress)]
  }

  function PollOps(handle: Fetching.Handle, earlier: seq<Fetching.FetchOp>, poll: SessionOp): seq<Fetching.FetchOp>
    requires poll.DoPoll?
  {
    var alerts := AllAlertOps(handle, poll.alerts);
    alerts + RefreshOps(earlier + alerts, poll.refresh)
  }

  /** Everything a run of polls does to the fetch of a torrent, read off the polls. */
  function OpsOf(handle: Fetching.Handle, earlier: seq<Fetching.FetchOp>, polls: seq<SessionOp>): seq<Fetching.FetchOp>
    requires PollsOnly(polls)
    decreases polls
  {
    if polls == [] then earlier else OpsOf(handle, earlier + PollOps(handle, earlier, polls[0]), polls[1..])
  }

  lemma {:induction false} AfterJoined(f: Fetching.Fetch, some: seq<Fetching.FetchOp>, more: seq<Fetching.FetchOp>)
    ensures Fetching.After(f, some + more) == Fetching.After(Fetching.After(f, some), more)
  {
    if more == [] {
      assert some + more == some;
    } else {
      var fewer, op := more[..|more| - 1], more[|more| - 1];
      assert some + more == (some + fewer) + [op];
      AfterJoined(f, some, fewer);
      Fetching.AfterOneMore(f, some + fewer, op);
    }
  }

  lemma AfterAlert(f: Fetching.Fetch, handle: Fetching.Handle, a: Alert)
    ensures Routed(f, Some(handle), a) == Fetching.After(f, AlertOps(handle, a))
  {
    Fetching.AfterOneMore(f, [], Fetching.Confirm(a.handle));
    Fetching.AfterOneMore(f, [], Fetching.Report(Fetching.HashFailure));
    Fetching.AfterOneMore(f, [], Fetching.Report(Fetching.BannedPeer));
    Fetching.AfterOneMore(f, [], Fetching.Report(Fetching.Fatal));
  }

  lemma {:induction false} AfterAlerts(f: Fetching.Fetch, handle: Fetching.Handle, alerts: seq<Alert>)
    ensures RoutedAll(f, Some(handle), alerts) == Fetching.After(f, AllAlertOps(handle, alerts))
    decreases alerts
  {
    if alerts != [] {
      AfterAlert(f, handle, alerts[0]);
      AfterAlerts(Routed(f, Some(handle), alerts[0]), handle, alerts[1..]);
      AfterJoined(f, AlertOps(handle, alerts[0]), AllAlertOps(handle, alerts[1..]));
    }
  }

  /** No operation of a running fetch changes its torrent, and it is prioritised once it has been told to be. */
  lemma {:induction false} AfterKeeps(f: Fetching.Fetch, ops: seq<Fetching.FetchOp>)
    requires !f.prioritised
    ensures Fetching.After(f, ops).fetching == f.fetching
    ensures Fetching.After(f, ops).prioritised <==> Fetching.WantedIn(ops).Some?
  {
    if ops != [] {
      AfterKeeps(f, ops[..|ops| - 1]);
    }
  }

  lemma AfterRefresh(f: Fetching.Fetch, earlier: seq<Fetching.FetchOp>, r: Refresh)
    requires !f.prioritised
    ensures Refreshed(Fetching.After(f, earlier), r) == Fetching.After(f, earlier + RefreshOps(earlier, Some(r)))
  {
    AfterKeeps(f, earlier);
    var update := Fetching.Update(r.progress);
    if Fetching.WantedIn(earlier) == None && r.wantedBytes != None {
      var mark := Fetching.Mark(r.wantedBytes.value);
      Regroup(earlier, [mark], [update]);
      Fetching.AfterOneMore(f, earlier, mark);
      Fetching.AfterOneMore(f, earlier + [mark], update);
    } else {
      assert [] + [update] == [update];
      Fetching.AfterOneMore(f, earlier, update);
    }
  }

  lemma PolledFetch(s: Session, handle: Fetching.Handle, poll: SessionOp)
    requires s.fetch.fetching == Some(handle) && poll.DoPoll?
    requires RoutedAll(s.fetch, Some(handle), poll.alerts).fetching == Some(handle)
    ensures
      var routed := RoutedAll(s.fetch, Some(handle), poll.alerts);
      Step(s, poll).fetch == match poll.refresh case None => routed case Some(r) => Refreshed(routed, r)
  {
  }

  lemma AfterPoll(f: Fetching.Fetch, handle: Fetching.Handle, earlier: seq<Fetching.FetchOp>, s: Session, poll: SessionOp)
    requires !f.prioritised && f.fetching == Some(handle) && s.fetch == Fetching.After(f, earlier) && poll.DoPoll?
    ensures Step(s, poll).fetch == Fetching.After(f, earlier + PollOps(handle, earlier, poll))
  {
    var alerts := AllAlertOps(handle, poll.alerts);
    AfterKeeps(f, earlier);
    AfterAlerts(s.fetch, handle, poll.alerts);
    AfterJoined(f, earlier, alerts);
    AfterKeeps(f, earlier + alerts);
    PolledFetch(s, handle, poll);
    Regroup(earlier, alerts, RefreshOps(earlier + alerts, poll.refresh));
    match poll.refresh
    case None => assert earlier + alerts + [] == earlier + alerts;
    case Some(r) => AfterRefresh(f, earlier + alerts, r);
  }

  lemma {:induction false} PollsAreOps(f: Fetching.Fetch, handle: Fetching.Handle, earlier: seq<Fetching.FetchOp>, s: Session, polls: seq<SessionOp>)
    requires !f.prioritised && f.fetching == Some(handle) && s.fetch == Fetching.After(f, earlier) && PollsOnly(polls)
    ensures After(s, polls).fetch == Fetching.After(f, OpsOf(handle, earlier, polls))
    decreases polls
  {
    if polls != [] {
      AfterPoll(f, handle, earlier, s, polls[0]);
      PollsAreOps(f, handle, earlier + PollOps(handle, earlier, polls[0]), Step(s, polls[0]), polls[1..]);
    }
  }

  /** From the begin on, the polls alone decide the phase: complete at the fourth settled one in a row, failed by a fatal alert of its own. */
  lemma FetchFate(s: Session, own: seq<ChunkDestination>, request: FetchRequest, lib: Library, polls: seq<SessionOp>)
    requires Owned(s, own) && Obstacle(s, request, lib) == None && PollsOnly(polls)
    ensures
      After(Started(s, request, lib).session, polls).fetch.status.phase
        == Fetching.PhaseAfter(OpsOf(lib.added.value, [], polls))
  {
    BeginMeaning(s, own, request, lib);
    var begun := Started(s, request, lib).session;
    PollsAreOps(begun.fetch, lib.added.value, [], begun, polls);
    Fetching.FateExactly(begun.fetch, OpsOf(lib.added.value, [], polls));
  }

  /** With nothing being fetched a poll only confirms removals. */
  lemma IdlePollMeaning(s: Session, alerts: seq<Alert>, refresh: Option<Refresh>)
    requires s.fetch.fetching == None
    ensures
      var p := Polled(s, alerts, refresh).fetch;
      && p == s.fetch.(removing := p.removing, clearPending := p.clearPending)
      && multiset(p.removing) == multiset(s.fetch.removing) - ConfirmedIn(alerts)
  {
    IdleAlerts(s.fetch, alerts);
    ConfirmationsMeaning(s.fetch, None, alerts);
  }

  lemma {:induction false} IdleAlerts(f: Fetching.Fetch, alerts: seq<Alert>)
    ensures
      var r := RoutedAll(f, None, alerts);
      r == f.(removing := r.removing, clearPending := r.clearPending)
    decreases alerts
  {
    if alerts != [] {
      IdleAlerts(Routed(f, None, alerts[0]), alerts[1..]);
    }
  }
}
