/** The life of one fetch: phases, earned completion, and removals still to be confirmed. */
module Fetching {
  import opened Wrappers

  type Handle = nat

  datatype FetchPhase = Idle | Metadata | Downloading | Complete | Failed

  datatype FetchStatus = FetchStatus(
    phase: FetchPhase,
    identifier: string,
    fetchedBytes: nat,
    inFlightBytes: nat,
    wantedBytes: nat,
    peers: nat,
    hashFailures: nat,
    bannedPeers: nat,
    pendingWrites: nat,
    settling: bool)

  const NO_STATUS: FetchStatus := FetchStatus(Idle, "", 0, 0, 0, 0, 0, 0, 0, false)

  predicate Busy(s: FetchStatus) {
    s.phase == Metadata || s.phase == Downloading
  }

  const COMPLETE_CONFIRMATIONS: nat := 3

  datatype Fetch = Fetch(
    status: FetchStatus,
    fetching: Option<Handle>,
    wanted: set<string>,
    prioritised: bool,
    settledPolls: nat,
    removing: seq<Handle>,
    clearPending: bool)

  const NO_FETCH: Fetch := Fetch(NO_STATUS, None, {}, false, 0, [], false)

  // ---- Owning a fetch

  function Reserved(f: Fetch, identifier: string, wanted: set<string>): Fetch {
    if Busy(f.status) then f
    else f.(status := NO_STATUS.(phase := Metadata, identifier := identifier), wanted := wanted, prioritised := false, settledPolls := 0)
  }

  function Released(f: Fetch): Fetch {
    f.(fetching := None, wanted := {}, prioritised := false, settledPolls := 0, status := f.status.(phase := Idle))
  }

  datatype Retirement = Retirement(toRemove: Option<Handle>, clearNow: bool)

  /** `valid` says whether the active handle still stands for a torrent. */
  function RetirementOf(f: Fetch, valid: bool): Retirement {
    var gone := f.fetching.Some? && valid;
    Retirement(if gone then f.fetching else None, f.removing == [] && !gone)
  }

  function Retired(f: Fetch, valid: bool): Fetch {
    var removing := if f.fetching.Some? && valid then f.removing + [f.fetching.value] else f.removing;
    f.(removing := removing,
       clearPending := f.clearPending || removing != [],
       fetching := None, wanted := {}, prioritised := false, settledPolls := 0,
       status := if Busy(f.status) then f.status.(phase := Idle) else f.status)
  }

  function FirstIndex(handles: seq<Handle>, h: Handle): (i: nat)
    ensures i <= |handles|
    ensures forall k :: 0 <= k < i ==> handles[k] != h
    ensures i < |handles| ==> handles[i] == h
  {
    if handles == [] || handles[0] == h then 0 else 1 + FirstIndex(handles[1..], h)
  }

  function Removed(handles: seq<Handle>, h: Handle): (r: seq<Handle>) {
    var i := FirstIndex(handles, h);
    if i == |handles| then handles else handles[..i] + handles[i + 1..]
  }

  /** The last outstanding removal is confirmed while a clear waits for it. */
  predicate ConfirmClears(f: Fetch, h: Handle) {
    h in f.removing && Removed(f.removing, h) == [] && f.clearPending
  }

  function Confirmed(f: Fetch, h: Handle): Fetch {
    f.(removing := Removed(f.removing, h), clearPending := f.clearPending && !ConfirmClears(f, h))
  }

  function Abandoned(f: Fetch): Fetch {
    f.(clearPending := false)
  }

  // ---- Progress

  datatype Progress = Progress(peers: nat, fetchedBytes: nat, inFlightBytes: nat, finished: bool, writesSettled: bool, pendingWrites: nat)

  function Marked(f: Fetch, wantedBytes: nat): Fetch {
    f.(status := f.status.(wantedBytes := wantedBytes, phase := if f.status.phase == Metadata then Downloading else f.status.phase),
       prioritised := true)
  }

  /** Everything wanted has arrived. */
  predicate Arrived(f: Fetch, p: Progress) {
    p.finished || (f.status.wantedBytes > 0 && p.fetchedBytes >= f.status.wantedBytes)
  }

  /** Files are prioritised, every wanted byte is here and the writes have settled. */
  predicate Settled(f: Fetch, p: Progress) {
    f.prioritised && Arrived(f, p) && p.writesSettled
  }

  function Updated(f: Fetch, p: Progress): Fetch {
    if !Busy(f.status) then f
    else
      var seen := f.status.(
        peers := p.peers, fetchedBytes := p.fetchedBytes, inFlightBytes := p.inFlightBytes, pendingWrites := p.pendingWrites,
        settling := f.prioritised && Arrived(f, p) && !p.writesSettled);
      if !Settled(f, p) then f.(status := seen, settledPolls := 0)
      else if f.settledPolls < COMPLETE_CONFIRMATIONS then f.(status := seen, settledPolls := f.settledPolls + 1)
      else f.(status := seen.(phase := Complete))
  }

  datatype Fault = HashFailure | BannedPeer | Fatal

  function Faulted(f: Fetch, fault: Fault): Fetch {
    if !Busy(f.status) then f
    else
      match fault
      case HashFailure => f.(status := f.status.(hashFailures := f.status.hashFailures + 1))
      case BannedPeer => f.(status := f.status.(bannedPeers := f.status.bannedPeers + 1))
      case Fatal => f.(status := f.status.(phase := Failed))
  }

  class FetchState {
    var status: FetchStatus
    var fetching: Option<Handle>
    var wanted: set<string>
    var prioritised: bool
    var settledPolls: nat
    var removing: seq<Handle>
    var clearPending: bool

    function State(): Fetch
      reads this
    {
      Fetch(status, fetching, wanted, prioritised, settledPolls, removing, clearPending)
    }

    constructor ()
      ensures State() == NO_FETCH
    {
      status, fetching, wanted, prioritised, settledPolls := NO_STATUS, None, {}, false, 0;
      removing, clearPending := [], false;
    }

    method Reserve(identifier: string, wantedFiles: set<string>) returns (ok: bool)
      modifies this
      ensures State() == Reserved(old(State()), identifier, wantedFiles) && ok == !Busy(old(status))
    {
      if Busy(status) {
        return false;
      }
      status := NO_STATUS.(phase := Metadata, identifier := identifier);
      wanted, prioritised, settledPolls := wantedFiles, false, 0;
      return true;
    }

    method Adopt(handle: Handle)
      modifies this`fetching
      ensures fetching == Some(handle)
    {
      fetching := Some(handle);
    }

    method Release()
      modifies this
      ensures State() == Released(old(State()))
    {
      fetching, wanted, prioritised, settledPolls := None, {}, false, 0;
      status := status.(phase := Idle);
    }

    method Retire(valid: bool) returns (r: Retirement)
      modifies this
      ensures State() == Retired(old(State()), valid) && r == RetirementOf(old(State()), valid)
    {
      r := Retirement(None, false);
      if fetching.Some? && valid {
        removing := removing + [fetching.value];
        r := r.(toRemove := fetching);
      }
      if removing == [] {
        r := r.(clearNow := true);
      } else {
        clearPending := true;
      }
      fetching, wanted, prioritised, settledPolls := None, {}, false, 0;
      if Busy(status) {
        status := status.(phase := Idle);
      }
    }

    method ConfirmRemoval(handle: Handle) returns (clear: bool)
      modifies this
      ensures State() == Confirmed(old(State()), handle) && clear == ConfirmClears(old(State()), handle)
    {
      var at := FirstIndex(removing, handle);
      if at == |removing| {
        assert handle !in removing;
        return false;
      }
      removing := removing[..at] + removing[at + 1..];
      if removing != [] || !clearPending {
        return false;
      }
      clearPending := false;
      return true;
    }

    method AbandonPendingClear() returns (clear: bool)
      modifies this
      ensures State() == Abandoned(old(State())) && clear == old(clearPending)
    {
      if !clearPending {
        return false;
      }
      clearPending := false;
      return true;
    }

    method MarkPrioritised(wantedBytes: nat)
      modifies this
      ensures State() == Marked(old(State()), wantedBytes)
    {
      status := status.(wantedBytes := wantedBytes);
      if status.phase == Metadata {
        status := status.(phase := Downloading);
      }
      prioritised := true;
    }

    method Report(fault: Fault)
      modifies this
      ensures State() == Faulted(old(State()), fault)
    {
      if !Busy(status) {
        return;
      }
      match fault {
        case HashFailure => status := status.(hashFailures := status.hashFailures + 1);
        case BannedPeer => status := status.(bannedPeers := status.bannedPeers + 1);
        case Fatal => status := status.(phase := Failed);
      }
    }

    method Update(p: Progress)
      modifies this
      ensures State() == Updated(old(State()), p)
    {
      if !Busy(status) {
        return;
      }
      status := status.(peers := p.peers, fetchedBytes := p.fetchedBytes, inFlightBytes := p.inFlightBytes);
      var wantedComplete := status.wantedBytes > 0 && status.fetchedBytes >= status.wantedBytes;
      status := status.(pendingWrites := p.pendingWrites,
                        settling := prioritised && (p.finished || wantedComplete) && !p.writesSettled);
      if !prioritised || !p.writesSettled || !(p.finished || wantedComplete) {
        settledPolls := 0;
        return;
      }
      if settledPolls < COMPLETE_CONFIRMATIONS {
        settledPolls := settledPolls + 1;
        return;
      }
      status := status.(phase := Complete);
    }
  }

  // ---- Taking and giving up a fetch

  /** A running fetch is not replaced; any other makes way for one with nothing to show, removals still awaited. */
  lemma ReserveMeaning(f: Fetch, identifier: string, wanted: set<string>)
    ensures
      var r := Reserved(f, identifier, wanted);
      if f.status.phase == Metadata || f.status.phase == Downloading then r == f
      else r == Fetch(
        FetchStatus(Metadata, identifier, 0, 0, 0, 0, 0, 0, 0, false), f.fetching, wanted, false, 0, f.removing, f.clearPending)
  {
  }

  /** The torrent to remove is the active one while it stands; the clear waits exactly while a removal is outstanding. */
  lemma RetireMeaning(f: Fetch, valid: bool)
    ensures
      var after, r := Retired(f, valid), RetirementOf(f, valid);
      && (r.toRemove != None <==> f.fetching != None && valid)
      && (match r.toRemove
          case None => after.removing == f.removing
          case Some(h) => f.fetching == Some(h) && after.removing == f.removing + [h])
      && (r.clearNow <==> after.removing == [])
      && (after.clearPending <==> f.clearPending || !r.clearNow)
  {
  }

  // ---- Completion is earned

  /** What can happen to a fetch between being reserved and being given up. */
  datatype FetchOp = Mark(wantedBytes: nat) | Report(fault: Fault) | Update(progress: Progress) | Confirm(handle: Handle)

  function Step(f: Fetch, op: FetchOp): Fetch {
    match op
    case Mark(wantedBytes) => Marked(f, wantedBytes)
    case Report(fault) => Faulted(f, fault)
    case Update(progress) => Updated(f, progress)
    case Confirm(handle) => Confirmed(f, handle)
  }

  function After(f: Fetch, ops: seq<FetchOp>): Fetch {
    if ops == [] then f else Step(After(f, ops[..|ops| - 1]), ops[|ops| - 1])
  }

  // Told from the operations alone, without the fetch's own fields.

  /** The bytes wanted, once the files have been prioritised. */
  function WantedIn(ops: seq<FetchOp>): Option<nat> {
    if ops == [] then None
    else
      match ops[|ops| - 1]
      case Mark(wantedBytes) => Some(wantedBytes)
      case _ => WantedIn(ops[..|ops| - 1])
  }

  /** Files are prioritised and every wanted byte is here. */
  predicate AllHere(earlier: seq<FetchOp>, p: Progress) {
    match WantedIn(earlier)
    case None => false
    case Some(wantedBytes) => p.finished || 0 < wantedBytes <= p.fetchedBytes
  }

  /** How many of the latest updates in a row found every wanted byte here and written. */
  function Streak(ops: seq<FetchOp>): nat {
    if ops == [] then 0
    else
      var earlier := ops[..|ops| - 1];
      match ops[|ops| - 1]
      case Update(p) => if AllHere(earlier, p) && p.writesSettled then Streak(earlier) + 1 else 0
      case _ => Streak(earlier)
  }

  /** The phase the operations lead to: four settled updates in a row complete a fetch, a fatal fault fails it. */
  function PhaseAfter(ops: seq<FetchOp>): FetchPhase {
    if ops == [] then Metadata
    else
      var before := PhaseAfter(ops[..|ops| - 1]);
      if before == Complete || before == Failed then before
      else
        match ops[|ops| - 1]
        case Mark(_) => Downloading
        case Report(fault) => if fault == Fatal then Failed else before
        case Update(_) => if Streak(ops) == 4 then Complete else before
        case Confirm(_) => before
  }

  function FaultsIn(ops: seq<FetchOp>, fault: Fault): nat {
    if ops == [] then 0
    else FaultsIn(ops[..|ops| - 1], fault) + if ops[|ops| - 1] == Report(fault) then 1 else 0
  }

  /** While a fetch is busy it is prioritised exactly when it is downloading. */
  predicate InStep(f: Fetch) {
    Busy(f.status) ==> (f.prioritised <==> f.status.phase == Downloading)
  }

  lemma {:induction false} BusyInStep(f: Fetch, ops: seq<FetchOp>)
    requires InStep(f)
    ensures InStep(After(f, ops))
  {
    if ops != [] {
      BusyInStep(f, ops[..|ops| - 1]);
    }
  }

  /** A fetch just reserved has nothing to show yet. */
  predicate JustReserved(f: Fetch) {
    f.status.phase == Metadata && !f.prioritised && f.settledPolls == 0
  }

  /** What a running fetch has recorded. */
  predicate Recorded(f: Fetch, ops: seq<FetchOp>, now: Fetch) {
    && now.prioritised == WantedIn(ops).Some?
    && now.settledPolls == Streak(ops) <= 3
    && (WantedIn(ops).Some? ==> now.status.wantedBytes == WantedIn(ops).value)
    && now.status.hashFailures == f.status.hashFailures + FaultsIn(ops, HashFailure)
    && now.status.bannedPeers == f.status.bannedPeers + FaultsIn(ops, BannedPeer)
  }

  ghost predicate Fated(f: Fetch, ops: seq<FetchOp>, now: Fetch) {
    && now.status.phase == PhaseAfter(ops) != Idle
    && (Busy(now.status) ==> Recorded(f, ops, now))
  }

  lemma MarkFated(f: Fetch, ops: seq<FetchOp>, wantedBytes: nat, now: Fetch)
    requires Fated(f, ops, now)
    ensures Fated(f, ops + [Mark(wantedBytes)], Marked(now, wantedBytes))
  {
    assert (ops + [Mark(wantedBytes)])[..|ops|] == ops;
  }

  lemma ReportFated(f: Fetch, ops: seq<FetchOp>, fault: Fault, now: Fetch)
    requires Fated(f, ops, now)
    ensures Fated(f, ops + [Report(fault)], Faulted(now, fault))
  {
    assert (ops + [Report(fault)])[..|ops|] == ops;
  }

  lemma UpdateFated(f: Fetch, ops: seq<FetchOp>, p: Progress, now: Fetch)
    requires Fated(f, ops, now)
    ensures Fated(f, ops + [Update(p)], Updated(now, p))
  {
    assert (ops + [Update(p)])[..|ops|] == ops;
  }

  lemma ConfirmFated(f: Fetch, ops: seq<FetchOp>, handle: Handle, now: Fetch)
    requires Fated(f, ops, now)
    ensures Fated(f, ops + [Confirm(handle)], Confirmed(now, handle))
  {
    assert (ops + [Confirm(handle)])[..|ops|] == ops;
  }

  /** From a reservation on, the operations alone decide the phase, and a running fetch has counted them. */
  lemma {:induction false} FateExactly(f: Fetch, ops: seq<FetchOp>)
    requires JustReserved(f)
    ensures Fated(f, ops, After(f, ops))
  {
    if ops != [] {
      var earlier, op := ops[..|ops| - 1], ops[|ops| - 1];
      FateExactly(f, earlier);
      assert ops == earlier + [op];
      match op
      case Mark(wantedBytes) => MarkFated(f, earlier, wantedBytes, After(f, earlier));
      case Report(fault) => ReportFated(f, earlier, fault, After(f, earlier));
      case Update(p) => UpdateFated(f, earlier, p, After(f, earlier));
      case Confirm(handle) => ConfirmFated(f, earlier, handle, After(f, earlier));
    }
  }

  /** A busy fetch becomes complete exactly at the fourth settled update in a row. */
  lemma CompletesExactly(f: Fetch, ops: seq<FetchOp>, op: FetchOp)
    requires JustReserved(f) && Busy(After(f, ops).status)
    ensures After(f, ops + [op]).status.phase == Complete <==> op.Update? && Streak(ops + [op]) == 4
  {
    var all := ops + [op];
    assert all[..|all| - 1] == ops;
    FateExactly(f, ops);
    FateExactly(f, all);
  }

  /** The figures of a progress update stand in the status. */
  predicate Shows(s: FetchStatus, p: Progress, settling: bool) {
    && s.peers == p.peers && s.fetchedBytes == p.fetchedBytes && s.inFlightBytes == p.inFlightBytes
    && s.pendingWrites == p.pendingWrites && s.settling == settling
  }

  predicate NoUpdate(ops: seq<FetchOp>) {
    forall k :: 0 <= k < |ops| ==> !ops[k].Update?
  }

  /** Until the next update the status shows what the latest one brought. */
  lemma {:induction false} ShowsLatestUpdate(f: Fetch, ops: seq<FetchOp>, p: Progress, later: seq<FetchOp>)
    requires JustReserved(f) && Busy(After(f, ops).status) && NoUpdate(later)
    ensures Shows(After(f, ops + [Update(p)] + later).status, p, AllHere(ops, p) && !p.writesSettled)
    decreases later
  {
    if later == [] {
      assert ops + [Update(p)] + later == ops + [Update(p)];
      AfterOneMore(f, ops, Update(p));
      FateExactly(f, ops);
      UpdateShows(f, ops, p, After(f, ops));
    } else {
      var sooner, op := later[..|later| - 1], later[|later| - 1];
      ShowsLatestUpdate(f, ops, p, sooner);
      assert ops + [Update(p)] + later == (ops + [Update(p)] + sooner) + [op];
      AfterOneMore(f, ops + [Update(p)] + sooner, op);
      StillShows(After(f, ops + [Update(p)] + sooner), op, p, AllHere(ops, p) && !p.writesSettled);
    }
  }

  lemma StillShows(f: Fetch, op: FetchOp, p: Progress, settling: bool)
    requires !op.Update? && Shows(f.status, p, settling)
    ensures Shows(Step(f, op).status, p, settling)
  {
  }

  lemma UpdateShows(f: Fetch, ops: seq<FetchOp>, p: Progress, now: Fetch)
    requires Fated(f, ops, now) && Busy(now.status)
    ensures Shows(Updated(now, p).status, p, AllHere(ops, p) && !p.writesSettled)
  {
  }

  /** Busy after `ops`, the fetch meets its fourth settled update in a row. */
  ghost predicate EarnedBy(f: Fetch, ops: seq<FetchOp>, op: FetchOp) {
    Busy(After(f, ops).status) && op.Update? && Streak(ops + [op]) == 4
  }

  lemma AfterOneMore(f: Fetch, ops: seq<FetchOp>, op: FetchOp)
    ensures After(f, ops + [op]) == Step(After(f, ops), op)
  {
    var all := ops + [op];
    assert all[..|all| - 1] == ops;
  }

  lemma OnlyBusyCompletes(f: Fetch, op: FetchOp)
    requires f.status.phase != Complete && Step(f, op).status.phase == Complete
    ensures Busy(f.status)
  {
  }

  lemma EarnedNow(f: Fetch, ops: seq<FetchOp>, op: FetchOp)
    requires JustReserved(f) && After(f, ops + [op]).status.phase == Complete && After(f, ops).status.phase != Complete
    ensures EarnedBy(f, ops, op)
  {
    AfterOneMore(f, ops, op);
    OnlyBusyCompletes(After(f, ops), op);
    CompletesExactly(f, ops, op);
  }

  /** Whoever is complete once was busy with three settled updates behind it and a fourth at hand. */
  lemma {:induction false} CompletionWasEarned(f: Fetch, ops: seq<FetchOp>)
    requires JustReserved(f) && After(f, ops).status.phase == Complete
    ensures exists k :: 0 <= k < |ops| && EarnedBy(f, ops[..k], ops[k])
  {
    assert ops != [];
    var earlier, op := ops[..|ops| - 1], ops[|ops| - 1];
    if After(f, earlier).status.phase == Complete {
      CompletionWasEarned(f, earlier);
      var k :| 0 <= k < |earlier| && EarnedBy(f, earlier[..k], earlier[k]);
      assert earlier[..k] == ops[..k] && earlier[k] == ops[k];
    } else {
      assert ops == earlier + [op];
      EarnedNow(f, earlier, op);
      assert ops[..|earlier|] == earlier && ops[|earlier|] == op;
    }
  }

  /** Counted from the reservation: no fetch completes without four settled updates in a row. */
  lemma CompletionAfterReserve(f: Fetch, identifier: string, wanted: set<string>, ops: seq<FetchOp>)
    requires !Busy(f.status) && After(Reserved(f, identifier, wanted), ops).status.phase == Complete
    ensures exists k :: 0 <= k < |ops| && EarnedBy(Reserved(f, identifier, wanted), ops[..k], ops[k])
  {
    CompletionWasEarned(Reserved(f, identifier, wanted), ops);
  }
}
