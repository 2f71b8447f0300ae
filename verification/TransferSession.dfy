/** Starting, cancelling and polling a fetch, and who owns the destination table meanwhile. */
module TransferSession {
  import opened Wrappers
  import opened Bytes
  import opened ChunkLocator
  import opened Fetching

  datatype FetchError = AlreadyBusy | NothingWanted | AlreadyPresent | DestinationRejected | MagnetRejected | SessionRejected

  /** What a caller asks for. */
  datatype FetchRequest = FetchRequest(
    identifier: string,
    infoHash: Digest,
    wantedFiles: seq<string>,
    destinations: seq<ChunkDestination>)

  /** What the torrent library answers: whether handles are valid, links parse and torrents are added. */
  datatype Library = Library(activeValid: bool, magnetParses: bool, added: Option<Handle>)

  datatype Session = Session(fetch: Fetch, destinations: Table, present: set<string>)

  // ---- Registering destinations

  predicate Fits(d: ChunkDestination) {
    d.length <= LENGTH_LIMIT
  }

  predicate AllFit(destinations: seq<ChunkDestination>) {
    forall i :: 0 <= i < |destinations| ==> Fits(destinations[i])
  }

  lemma {:induction false} FetchTableAppend(table: Table, destinations: seq<ChunkDestination>, d: ChunkDestination)
    ensures FetchTable(table, destinations + [d]) == Insert(FetchTable(table, destinations), d.chunkFileName, LocationOf(d))
    decreases destinations
  {
    if destinations == [] {
      assert (destinations + [d])[1..] == [];
    } else {
      assert (destinations + [d])[1..] == destinations[1..] + [d];
      FetchTableAppend(Insert(table, destinations[0].chunkFileName, LocationOf(destinations[0])), destinations[1..], d);
    }
  }

  // ---- The steps

  /** The active fetch is given up; with no removal outstanding its destinations go at once. */
  function Cancelled(s: Session, valid: bool): Session {
    s.(fetch := Retired(s.fetch, valid),
       destinations := if RetirementOf(s.fetch, valid).clearNow then map[] else s.destinations)
  }

  datatype Begun = Begun(session: Session, result: Result<(), FetchError>)

  function Refusal(s: Session, request: FetchRequest): Option<FetchError> {
    if Busy(s.fetch.status) then Some(AlreadyBusy)
    else if request.wantedFiles == [] then Some(NothingWanted)
    else if ToHex(request.infoHash) in s.present then Some(AlreadyPresent)
    else None
  }

  /** The table is empty by now: cleared by the cancel, or by giving up the wait for a removal. */
  function Prepared(s: Session, request: FetchRequest, valid: bool): Session {
    var c := Cancelled(s, valid);
    var reserved := Reserved(c.fetch, request.identifier, set name | name in request.wantedFiles);
    c.(fetch := Abandoned(reserved), destinations := if reserved.clearPending then map[] else c.destinations)
  }

  function GivenUp(s: Session): Session {
    s.(fetch := Released(s.fetch), destinations := map[])
  }

  function Started(s: Session, request: FetchRequest, lib: Library): Begun {
    if Refusal(s, request).Some? then Begun(s, Err(Refusal(s, request).value))
    else
      var p := Prepared(s, request, lib.activeValid);
      if !AllFit(request.destinations) then Begun(GivenUp(p), Err(DestinationRejected))
      else if !lib.magnetParses then Begun(GivenUp(p), Err(MagnetRejected))
      else
        match lib.added
        case None => Begun(GivenUp(p), Err(SessionRejected))
        case Some(handle) =>
          Begun(p.(fetch := p.fetch.(fetching := Some(handle)), destinations := FetchTable(p.destinations, request.destinations)), Ok(()))
  }

  // ---- Polling

  datatype Alert =
    | TorrentRemoved(handle: Handle)
    | HashFailed(handle: Handle)
    | PeerBanned(handle: Handle)
    | TorrentBroken(handle: Handle)

  function FaultOf(a: Alert): Fault
    requires !a.TorrentRemoved?
  {
    match a
    case HashFailed(_) => HashFailure
    case PeerBanned(_) => BannedPeer
    case TorrentBroken(_) => Fatal
  }

  /** A removal is confirmed whoever it concerns; a fault only counts against the active fetch. */
  function Routed(f: Fetch, active: Option<Handle>, a: Alert): Fetch {
    if a.TorrentRemoved? then Confirmed(f, a.handle)
    else if active == Some(a.handle) then Faulted(f, FaultOf(a))
    else f
  }

  predicate RoutedClears(f: Fetch, a: Alert) {
    a.TorrentRemoved? && ConfirmClears(f, a.handle)
  }

  function RoutedAll(f: Fetch, active: Option<Handle>, alerts: seq<Alert>): Fetch
    decreases alerts
  {
    if alerts == [] then f else RoutedAll(Routed(f, active, alerts[0]), active, alerts[1..])
  }

  predicate AnyClears(f: Fetch, active: Option<Handle>, alerts: seq<Alert>)
    decreases alerts
  {
    alerts != [] && (RoutedClears(f, alerts[0]) || AnyClears(Routed(f, active, alerts[0]), active, alerts[1..]))
  }

  /** The status poll: priorities once the layout is known, then one progress update. */
  datatype Refresh = Refresh(wantedBytes: Option<nat>, progress: Progress)

  function Refreshed(f: Fetch, r: Refresh): Fetch {
    var ready := if !f.prioritised && r.wantedBytes.Some? then Marked(f, r.wantedBytes.value) else f;
    Updated(ready, r.progress)
  }

  /** `refresh` is absent when it is too early for one or the active handle is gone. */
  function Polled(s: Session, alerts: seq<Alert>, refresh: Option<Refresh>): Session {
    var routed := RoutedAll(s.fetch, s.fetch.fetching, alerts);
    s.(fetch := if refresh.Some? && routed.fetching.Some? then Refreshed(routed, refresh.value) else routed,
       destinations := if AnyClears(s.fetch, s.fetch.fetching, alerts) then map[] else s.destinations)
  }

  class TorrentSession {
    const locator: Locator
    const fetch: FetchState
    var present: set<string>

    function State(): Session
      reads this, locator, fetch
    {
      Session(fetch.State(), locator.destinations, present)
    }

    constructor (locator: Locator, fetch: FetchState)
      ensures this.locator == locator && this.fetch == fetch && present == {}
    {
      this.locator, this.fetch := locator, fetch;
      present := {};
    }

    method Cancel(valid: bool)
      modifies locator`destinations, fetch
      ensures State() == Cancelled(old(State()), valid)
    {
      var retirement := fetch.Retire(valid);
      if retirement.clearNow {
        locator.ClearDestinations();
      }
    }

    method RegisterAll(destinations: seq<ChunkDestination>) returns (ok: bool)
      modifies locator`destinations
      ensures ok == AllFit(destinations)
      ensures ok ==> locator.destinations == FetchTable(old(locator.destinations), destinations)
    {
      assert destinations[..0] == [];
      for i := 0 to |destinations|
        invariant AllFit(destinations[..i])
        invariant locator.destinations == FetchTable(old(locator.destinations), destinations[..i])
      {
        var d := destinations[i];
        assert destinations[..i + 1] == destinations[..i] + [d];
        FetchTableAppend(old(locator.destinations), destinations[..i], d);
        var registered := locator.RegisterDestination(d.chunkFileName, d.file, d.offset, d.length);
        if !registered {
          assert !Fits(destinations[i]);
          return false;
        }
      }
      assert destinations[..|destinations|] == destinations;
      return true;
    }

    method GiveUp()
      modifies locator`destinations, fetch
      ensures State() == GivenUp(old(State()))
    {
      locator.ClearDestinations();
      fetch.Release();
    }

    method Prepare(request: FetchRequest, valid: bool)
      requires Refusal(State(), request).None?
      modifies locator`destinations, fetch
      ensures State() == Prepared(old(State()), request, valid)
    {
      Cancel(valid);
      var wanted := set name | name in request.wantedFiles;
      var reserved := fetch.Reserve(request.identifier, wanted);
      var pending := fetch.AbandonPendingClear();
      if pending {
        locator.ClearDestinations();
      }
    }

    method Begin(request: FetchRequest, lib: Library) returns (r: Result<(), FetchError>)
      modifies locator`destinations, fetch
      ensures Begun(State(), r) == Started(old(State()), request, lib)
    {
      if Busy(fetch.status) {
        return Err(AlreadyBusy);
      }
      if request.wantedFiles == [] {
        return Err(NothingWanted);
      }
      if ToHex(request.infoHash) in present {
        return Err(AlreadyPresent);
      }
      Prepare(request, lib.activeValid);
      var registered := RegisterAll(request.destinations);
      if !registered {
        GiveUp();
        return Err(DestinationRejected);
      }
      if !lib.magnetParses {
        GiveUp();
        return Err(MagnetRejected);
      }
      if lib.added.None? {
        GiveUp();
        return Err(SessionRejected);
      }
      fetch.Adopt(lib.added.value);
      return Ok(());
    }

    method Route(alerts: seq<Alert>) returns (clear: bool)
      modifies fetch
      ensures fetch.State() == RoutedAll(old(fetch.State()), old(fetch.fetching), alerts)
      ensures clear == AnyClears(old(fetch.State()), old(fetch.fetching), alerts)
    {
      var active := fetch.fetching;
      clear := false;
      for i := 0 to |alerts|
        invariant RoutedAll(old(fetch.State()), active, alerts) == RoutedAll(fetch.State(), active, alerts[i..])
        invariant AnyClears(old(fetch.State()), active, alerts) == (clear || AnyClears(fetch.State(), active, alerts[i..]))
      {
        assert alerts[i..][0] == alerts[i] && alerts[i..][1..] == alerts[i + 1..];
        var cleared := RouteOne(alerts[i], active);
        clear := clear || cleared;
      }
    }

    method RouteOne(a: Alert, active: Option<Handle>) returns (clear: bool)
      modifies fetch
      ensures fetch.State() == Routed(old(fetch.State()), active, a)
      ensures clear == RoutedClears(old(fetch.State()), a)
    {
      clear := false;
      match a {
        case TorrentRemoved(handle) =>
          clear := fetch.ConfirmRemoval(handle);
        case HashFailed(handle) =>
          if active == Some(handle) {
            fetch.Report(HashFailure);
          }
        case PeerBanned(handle) =>
          if active == Some(handle) {
            fetch.Report(BannedPeer);
          }
        case TorrentBroken(handle) =>
          if active == Some(handle) {
            fetch.Report(Fatal);
          }
      }
    }

    method Poll(alerts: seq<Alert>, refresh: Option<Refresh>)
      modifies locator`destinations, fetch
      ensures State() == Polled(old(State()), alerts, refresh)
    {
      var clear := Route(alerts);
      if clear {
        locator.ClearDestinations();
      }
      if refresh.Some? && fetch.fetching.Some? {
        if !fetch.prioritised && refresh.value.wantedBytes.Some? {
          fetch.MarkPrioritised(refresh.value.wantedBytes.value);
        }
        fetch.Update(refresh.value.progress);
      }
    }
  }

  // ---- Who owns the destinations

  datatype SessionOp =
    | DoBegin(request: FetchRequest, lib: Library)
    | DoCancel(valid: bool)
    | DoPoll(alerts: seq<Alert>, refresh: Option<Refresh>)

  function Step(s: Session, op: SessionOp): Session {
    match op
    case DoBegin(request, lib) => Started(s, request, lib).session
    case DoCancel(valid) => Cancelled(s, valid)
    case DoPoll(alerts, refresh) => Polled(s, alerts, refresh)
  }

  function After(s: Session, ops: seq<SessionOp>): Session
    decreases ops
  {
    if ops == [] then s else After(Step(s, ops[0]), ops[1..])
  }

  /** Destinations of the fetch last started, whose table this should be. */
  function OwnAfter(s: Session, own: seq<ChunkDestination>, op: SessionOp): seq<ChunkDestination> {
    if op.DoBegin? && Started(s, op.request, op.lib).result.Ok? then op.request.destinations else own
  }

  function OwnAll(s: Session, own: seq<ChunkDestination>, ops: seq<SessionOp>): seq<ChunkDestination>
    decreases ops
  {
    if ops == [] then own else OwnAll(Step(s, ops[0]), OwnAfter(s, own, ops[0]), ops[1..])
  }

  /** What every reachable session keeps. */
  ghost predicate Owned(s: Session, own: seq<ChunkDestination>) {
    && (s.fetch.fetching.Some? ==> s.destinations == FetchTable(map[], own) && !s.fetch.clearPending)
    && (s.fetch.fetching.None? && s.destinations != map[] ==> s.fetch.clearPending)
    && (s.fetch.clearPending ==> s.fetch.removing != [])
    && (Busy(s.fetch.status) ==> s.fetch.fetching.Some?)
    && InStep(s.fetch)
  }

  lemma PreparedEmpty(s: Session, own: seq<ChunkDestination>, request: FetchRequest, valid: bool)
    requires Owned(s, own) && Refusal(s, request).None?
    ensures
      var p := Prepared(s, request, valid);
      p.destinations == map[] && p.fetch.fetching.None? && !p.fetch.clearPending && InStep(p.fetch)
  {
  }

  lemma StartedOwned(s: Session, own: seq<ChunkDestination>, request: FetchRequest, lib: Library)
    requires Owned(s, own)
    ensures Owned(Started(s, request, lib).session, OwnAfter(s, own, DoBegin(request, lib)))
  {
    if Refusal(s, request).None? {
      PreparedEmpty(s, own, request, lib.activeValid);
    }
  }

  /** While a fetch is active no alert clears the table; otherwise it goes with the last removal. */
  lemma {:induction false} RoutedOwned(s: Session, own: seq<ChunkDestination>, active: Option<Handle>, alerts: seq<Alert>)
    requires Owned(s, own)
    ensures
      var routed := RoutedAll(s.fetch, active, alerts);
      && routed.fetching == s.fetch.fetching
      && (s.fetch.fetching.Some? ==> !AnyClears(s.fetch, active, alerts))
      && Owned(s.(fetch := routed, destinations := if AnyClears(s.fetch, active, alerts) then map[] else s.destinations), own)
    decreases alerts
  {
    if alerts != [] {
      var next := s.(
        fetch := Routed(s.fetch, active, alerts[0]),
        destinations := if RoutedClears(s.fetch, alerts[0]) then map[] else s.destinations);
      RoutedOwned(next, own, active, alerts[1..]);
    }
  }

  lemma PolledOwned(s: Session, own: seq<ChunkDestination>, alerts: seq<Alert>, refresh: Option<Refresh>)
    requires Owned(s, own)
    ensures Owned(Polled(s, alerts, refresh), own)
    ensures s.fetch.fetching.Some? ==> Polled(s, alerts, refresh).destinations == s.destinations
  {
    RoutedOwned(s, own, s.fetch.fetching, alerts);
  }

  lemma StepOwned(s: Session, own: seq<ChunkDestination>, op: SessionOp)
    requires Owned(s, own)
    ensures Owned(Step(s, op), OwnAfter(s, own, op))
  {
    match op {
      case DoBegin(request, lib) => StartedOwned(s, own, request, lib);
      case DoCancel(valid) =>
      case DoPoll(alerts, refresh) => PolledOwned(s, own, alerts, refresh);
    }
  }

  /**
   * Over every run of begins, cancels and polls an active fetch's table holds exactly its own
   * destinations, and destinations outlive it only while a removal is still outstanding.
   */
  lemma {:induction false} FetchOwnership(s: Session, own: seq<ChunkDestination>, ops: seq<SessionOp>)
    requires Owned(s, own)
    ensures Owned(After(s, ops), OwnAll(s, own, ops))
    decreases ops
  {
    if ops != [] {
      StepOwned(s, own, ops[0]);
      FetchOwnership(Step(s, ops[0]), OwnAfter(s, own, ops[0]), ops[1..]);
    }
  }

  predicate PollsOnly(ops: seq<SessionOp>) {
    forall k :: 0 <= k < |ops| ==> ops[k].DoPoll?
  }

  /** However late the confirmations of earlier removals come, a started fetch keeps its table. */
  lemma {:induction false} LateConfirmationsHarmless(s: Session, own: seq<ChunkDestination>, request: FetchRequest, lib: Library, polls: seq<SessionOp>)
    requires Owned(s, own) && Started(s, request, lib).result.Ok? && PollsOnly(polls)
    ensures After(Started(s, request, lib).session, polls).destinations == FetchTable(map[], request.destinations)
  {
    StartedOwned(s, own, request, lib);
    PollsKeepTable(Started(s, request, lib).session, request.destinations, polls);
  }

  lemma {:induction false} PollsKeepTable(s: Session, own: seq<ChunkDestination>, polls: seq<SessionOp>)
    requires Owned(s, own) && s.fetch.fetching.Some? && PollsOnly(polls)
    ensures After(s, polls).destinations == s.destinations == FetchTable(map[], own)
    decreases polls
  {
    if polls != [] {
      var op := polls[0];
      PolledOwned(s, own, op.alerts, op.refresh);
      RoutedOwned(s, own, s.fetch.fetching, op.alerts);
      PollsKeepTable(Step(s, op), own, polls[1..]);
    }
  }

  // ---- Why a poll has to be one step

  /** A poll whose confirmations are taken first and whose clear comes only after another begin. */
  function SplitPoll(s: Session, alerts: seq<Alert>, request: FetchRequest, lib: Library): Begun {
    var routed := s.(fetch := RoutedAll(s.fetch, s.fetch.fetching, alerts));
    var begun := Started(routed, request, lib);
    if AnyClears(s.fetch, s.fetch.fetching, alerts) then begun.(session := begun.session.(destinations := map[])) else begun
  }

  lemma {:induction false} NonEmptyTable(table: Table, destinations: seq<ChunkDestination>)
    requires destinations != [] || table != map[]
    ensures FetchTable(table, destinations) != map[]
    decreases destinations
  {
    if destinations != [] {
      var next := Insert(table, destinations[0].chunkFileName, LocationOf(destinations[0]));
      assert destinations[0].chunkFileName in next;
      NonEmptyTable(next, destinations[1..]);
    }
  }

  /** Split in two, a poll leaves the started fetch its table exactly when no clear was due or there is nothing to lose. */
  lemma SplitPollKeepsTableExactly(s: Session, own: seq<ChunkDestination>, alerts: seq<Alert>, request: FetchRequest, lib: Library)
    requires Owned(s, own) && SplitPoll(s, alerts, request, lib).result.Ok?
    ensures
      SplitPoll(s, alerts, request, lib).session.destinations == FetchTable(map[], request.destinations) <==>
        !AnyClears(s.fetch, s.fetch.fetching, alerts) || request.destinations == []
  {
    var active := s.fetch.fetching;
    if AnyClears(s.fetch, active, alerts) {
      if request.destinations != [] {
        NonEmptyTable(map[], request.destinations);
      }
    } else {
      RoutedOwned(s, own, active, alerts);
      StartedOwned(s.(fetch := RoutedAll(s.fetch, active, alerts)), own, request, lib);
    }
  }

  /** And a clear can indeed be due: cancel, then begin between the confirmation and the clear. */
  lemma SplitPollCanLoseTheTable(request: FetchRequest, first: Handle, second: Handle)
    requires request.wantedFiles != [] && request.destinations != [] && AllFit(request.destinations)
    ensures
      var begun := Started(Session(NO_FETCH, map[], {}), request, Library(true, true, Some(first)));
      var cancelled := Cancelled(begun.session, true);
      var split := SplitPoll(cancelled, [TorrentRemoved(first)], request, Library(true, true, Some(second)));
      split.result == Ok(()) && split.session.fetch.fetching == Some(second) && split.session.destinations == map[]
  {
    var cancelled := Cancelled(Started(Session(NO_FETCH, map[], {}), request, Library(true, true, Some(first))).session, true);
    var alerts := [TorrentRemoved(first)];
    assert cancelled.fetch.removing == [first] && cancelled.fetch.clearPending;
    assert Removed([first], first) == [];
    assert RoutedClears(cancelled.fetch, alerts[0]);
    assert alerts[1..] == [];
    assert AnyClears(cancelled.fetch, cancelled.fetch.fetching, alerts);
    var routed := RoutedAll(cancelled.fetch, cancelled.fetch.fetching, alerts);
    assert routed == RoutedAll(Routed(cancelled.fetch, cancelled.fetch.fetching, alerts[0]), cancelled.fetch.fetching, []);
  }
}
