/**
 Which withdrawals can still end. Withdrawals do get stuck: parked by Core, overtaken by an
 administrator's hand, or contradicted by the provider's own callbacks. Here is exactly which
 rows some continuation still settles, and which some continuation still releases.
 */
module CustodyProgress {
  import opened Common
  import opened Custody
  import opened CustodyProtocol
  import opened CustodySafety
  import opened CustodyMoney

  // ---- the conditions: read off the row and the callbacks on file ---------------------------

  predicate Refusal(events: Events, cid: Id) { (cid, Code2) in events || (cid, Code4) in events }

  predicate Failure(events: Events, cid: Id) { (cid, Code7) in events }

  /** Every report on file for the recorded number, if there is one, allows a settlement. */
  predicate NoBadReport(x: Withdrawal, events: Events) {
    x.cid != None ==> !Refusal(events, x.cid.value) && !Failure(events, x.cid.value)
  }

  /** The reports on file for the recorded number, if there is one, allow a release. */
  predicate NoClash(x: Withdrawal, events: Events) {
    x.cid != None ==>
      && (x.cid.value, Code6) !in events
      && !(Refusal(events, x.cid.value) && Failure(events, x.cid.value))
  }

  predicate MaySettle(x: Withdrawal, events: Events) {
    match x.accounting
    case Settled | PendingReservation | Reserving => true
    case Reserved | PendingApproval | Approving => x.operation == OpSubmitted
    case ApprovedByCore | PendingSettlement | Settling => x.operation == OpProcessing && NoBadReport(x, events)
    case PendingRelease | Releasing | Released | AccountingException => false
  }

  predicate MayRelease(x: Withdrawal, events: Events) {
    match x.accounting
    case Released | PendingReservation | Reserving => true
    case Reserved => x.operation == OpSubmitted || x.operation == OpProcessing
    case PendingApproval | Approving => x.operation == OpSubmitted
    case ApprovedByCore => x.operation == OpProcessing && NoClash(x, events)
    case PendingRelease | Releasing =>
      (x.operation == OpSubmitted || x.operation == OpProcessing) && NoClash(x, events)
    case PendingSettlement | Settling | Settled | AccountingException => false
  }

  // ---- what can happen to one row -------------------------------------------------------------

  lemma RowStaysStuck(x: Withdrawal, row: RowStep, events: Events)
    requires Valid(x)
    ensures !MaySettle(x, events) ==> !MaySettle(RowNext(x, row, events), events)
    ensures !MayRelease(x, events) ==> !MayRelease(RowNext(x, row, events), events)
  {
  }

  /** Further callbacks on file never help. */
  lemma EventsDoNotHelp(x: Withdrawal, events: Events, more: Events)
    requires events <= more
    ensures MaySettle(x, more) ==> MaySettle(x, events)
    ensures MayRelease(x, more) ==> MayRelease(x, events)
  {
  }

  lemma MoneyStaysStuck(s: State, x: Withdrawal)
    requires Valid(x)
    ensures ReserveGuard(s, x) ==> MaySettle(x, s.events) && MayRelease(x, s.events)
    ensures ReleaseGuard(s, x) ==> MayRelease(x, s.events) && !MaySettle(ReleaseFunds(x), s.events)
    ensures SettleGuard(s, x) ==> MaySettle(x, s.events) && !MayRelease(Settle(x), s.events)
    ensures x.operation == OpSubmitted ==>
      (MaySettle(RejectTransfer(x), s.events) ==> MaySettle(x, s.events))
      && (MayRelease(RejectTransfer(x), s.events) ==> MayRelease(x, s.events))
    ensures x.operation == OpProcessing ==>
      (MaySettle(ExecuteTransfer(x), s.events) ==> MaySettle(x, s.events))
      && (MayRelease(ExecuteTransfer(x), s.events) ==> MayRelease(x, s.events))
  {
  }

  lemma StepStaysStuck(s: State, step: Step, id: Id)
    requires id in s.withdrawals && Valid(s.withdrawals[id])
    ensures var t := Next(s, step);
      && id in t.withdrawals
      && (!MaySettle(s.withdrawals[id], s.events) ==> !MaySettle(t.withdrawals[id], t.events))
      && (!MayRelease(s.withdrawals[id], s.events) ==> !MayRelease(t.withdrawals[id], t.events))
  {
    StepHappens(s, step, id);
    var x, y := s.withdrawals[id], Next(s, step).withdrawals[id];
    EventsDoNotHelp(y, s.events, Next(s, step).events);
    MoneyStaysStuck(s, x);
    if row :| ByStatement(x, row, s.events, Next(s, step).events, y) {
      RowStaysStuck(x, row, s.events);
    }
  }

  lemma {:induction false} RunStaysStuck(s: State, steps: seq<Step>, id: Id)
    requires Inv(s) && id in s.withdrawals
    ensures var t := Run(s, steps);
      && id in t.withdrawals
      && (!MaySettle(s.withdrawals[id], s.events) ==> !MaySettle(t.withdrawals[id], t.events))
      && (!MayRelease(s.withdrawals[id], s.events) ==> !MayRelease(t.withdrawals[id], t.events))
  {
    if steps != [] {
      RunStaysStuck(s, steps[..|steps| - 1], id);
      RunKeepsInv(s, steps[..|steps| - 1]);
      StepStaysStuck(Run(s, steps[..|steps| - 1]), steps[|steps| - 1], id);
    }
  }

  // ---- paths ------------------------------------------------------------------------------------

  /** Some continuation settles the withdrawal. */
  ghost predicate CanSettle(s: State, id: Id) {
    exists steps :: id in Run(s, steps).withdrawals && Run(s, steps).withdrawals[id].accounting == Settled
  }

  /** Some continuation releases the withdrawal. */
  ghost predicate CanRelease(s: State, id: Id) {
    exists steps :: id in Run(s, steps).withdrawals && Run(s, steps).withdrawals[id].accounting == Released
  }

  lemma StepThenRun(s: State, step: Step, t: State, steps: seq<Step>)
    requires t == Next(s, step)
    ensures Run(t, steps) == Run(s, [step] + steps)
  {
    RunOne(s, step);
    RunAppends(s, [step], steps);
  }

  lemma Onward(s: State, step: Step, id: Id)
    ensures CanSettle(Next(s, step), id) ==> CanSettle(s, id)
    ensures CanRelease(Next(s, step), id) ==> CanRelease(s, id)
  {
    var t := Next(s, step);
    if CanSettle(t, id) {
      var steps :| id in Run(t, steps).withdrawals && Run(t, steps).withdrawals[id].accounting == Settled;
      StepThenRun(s, step, t, steps);
    }
    if CanRelease(t, id) {
      var steps :| id in Run(t, steps).withdrawals && Run(t, steps).withdrawals[id].accounting == Released;
      StepThenRun(s, step, t, steps);
    }
  }

  lemma AlreadyEnded(s: State, id: Id)
    requires id in s.withdrawals
    ensures s.withdrawals[id].accounting == Settled ==> CanSettle(s, id)
    ensures s.withdrawals[id].accounting == Released ==> CanRelease(s, id)
  {
    assert Run(s, []) == s;
  }

  lemma SettlingEnds(s: State, id: Id)
    requires Inv(s) && id in s.withdrawals && s.withdrawals[id].accounting == Settling
    requires s.withdrawals[id].operation == OpProcessing && SettleEvidence(s, s.withdrawals[id])
    ensures CanSettle(s, id)
  {
    var x := s.withdrawals[id];
    FrozenCovers(s, x.wallet);
    FrozenGuardsFollow(s, x);
    AlreadyEnded(Next(s, CoreSettle(id)), id);
    Onward(s, CoreSettle(id), id);
  }

  lemma ReleasingEnds(s: State, id: Id)
    requires Inv(s) && id in s.withdrawals && s.withdrawals[id].accounting == Releasing
    requires s.withdrawals[id].operation in {OpSubmitted, OpProcessing} && ReleaseEvidence(s, s.withdrawals[id])
    ensures CanRelease(s, id)
  {
    var x := s.withdrawals[id];
    FrozenCovers(s, x.wallet);
    FrozenGuardsFollow(s, x);
    AlreadyEnded(Next(s, CoreRelease(id)), id);
    Onward(s, CoreRelease(id), id);
  }

  /** One statement on the row, as a step. */
  lemma ActStep(s: State, id: Id, row: RowStep) returns (t: State)
    requires Inv(s) && id in s.withdrawals && !row.ByExecutor() && !row.DoFinal? && !row.DoConflict?
    ensures Inv(t) && id in t.withdrawals && t.withdrawals[id] == RowNext(s.withdrawals[id], row, s.events)
    ensures t.events == s.events
    ensures CanSettle(t, id) ==> CanSettle(s, id)
    ensures CanRelease(t, id) ==> CanRelease(s, id)
  {
    t := Next(s, Act(id, row));
    StepKeepsInv(s, Act(id, row));
    Onward(s, Act(id, row), id);
  }

  /** A callback of the provider, as a step. */
  lemma CallbackStep(s: State, id: Id, cid: Id, code: FinalCode) returns (t: State)
    requires Inv(s) && id in s.withdrawals
    ensures Inv(t) && id in t.withdrawals
    ensures t.withdrawals[id] == RowNext(s.withdrawals[id], DoFinal(cid, code), s.events)
    ensures t.events == s.events + {(cid, code)}
    ensures CanSettle(t, id) ==> CanSettle(s, id)
    ensures CanRelease(t, id) ==> CanRelease(s, id)
  {
    t := Next(s, Callback(id, cid, code, true));
    StepKeepsInv(s, Callback(id, cid, code, true));
    Onward(s, Callback(id, cid, code, true), id);
  }

  lemma CompletedPath(x: Withdrawal, events: Events)
    requires Valid(x) && x.accounting in {PendingSettlement, Settling} && MaySettle(x, events)
    ensures x.cid != None && RowNext(x, DoFinal(x.cid.value, Code6), events) == x
    ensures OnlyCompletedReported(events + {(x.cid.value, Code6)}, x.cid.value)
    ensures RowNext(x, DoClaim, events + {(x.cid.value, Code6)}) == x.(accounting := Settling)
  {
  }

  /** A completed withdrawal is settled once its completion is on file. */
  lemma CompletedSettles(s: State, id: Id)
    requires Inv(s) && id in s.withdrawals && s.withdrawals[id].accounting in {PendingSettlement, Settling}
    requires MaySettle(s.withdrawals[id], s.events)
    ensures CanSettle(s, id)
  {
    var x := s.withdrawals[id];
    CompletedPath(x, s.events);
    var t := CallbackStep(s, id, x.cid.value, Code6);
    var u := ActStep(t, id, DoClaim);
    SettlingEnds(u, id);
  }

  /** A payout number nothing was reported for. */
  lemma FreshCid(events: Events) returns (cid: Id)
    ensures forall code :: (cid, code) !in events
  {
    var cids := set e | e in events :: e.0;
    cid := UnusedId(cids);
    forall code ensures (cid, code) !in events {
      assert (cid, code) in events ==> (cid, code).0 in cids;
    }
  }

  /** A withdrawal that waits for the provider is settled by its report of completion. */
  lemma AwaitingSettles(s: State, id: Id)
    requires Inv(s) && id in s.withdrawals && AwaitsProvider(s.withdrawals[id])
    requires MaySettle(s.withdrawals[id], s.events)
    ensures CanSettle(s, id)
  {
    var x := s.withdrawals[id];
    assert Valid(x) && x.accounting == ApprovedByCore;
    var unused := FreshCid(s.events);
    var cid := if x.cid == None then unused else x.cid.value;
    CallbackIsAllOrNothing(x, cid, Code6);
    var t := CallbackStep(s, id, cid, Code6);
    FinalDoesNotReadEvents(x, cid, Code6, s.events);
    CompletedSettles(t, id);
  }

  lemma FinalDoesNotReadEvents(x: Withdrawal, cid: Id, code: FinalCode, events: Events)
    ensures RowNext(x, DoFinal(cid, code), events) == RowNext(x, DoFinal(cid, code), {})
    ensures RowNext(x, DoFinal(cid, code), events).operation == x.operation
  {
  }

  /** A withdrawal Core has approved is started, called for, accepted and reported complete. */
  lemma ApprovedSettles(s: State, id: Id)
    requires Inv(s) && id in s.withdrawals && s.withdrawals[id].custody == Approved
    requires s.withdrawals[id].accounting == ApprovedByCore && s.withdrawals[id].operation == OpProcessing
    ensures CanSettle(s, id)
  {
    var x := s.withdrawals[id];
    assert Valid(x) && x.cid == None;
    var request := UnusedId(s.executors.Keys);
    var cid := FreshCid(s.events);
    var started := Started(s, id, request, true);
    var paid := Paid(started, id, request, cid);
    AwaitingSettles(paid, id);
  }

  /** A request that starts the payout and has the destination address checked. */
  lemma Opened(s: State, id: Id, request: Id) returns (t: State)
    requires Inv(s) && id in s.withdrawals && request !in s.executors
    requires s.withdrawals[id].custody == Approved && s.withdrawals[id].accounting == ApprovedByCore
    ensures Inv(t) && id in t.withdrawals && t.withdrawals[id] == s.withdrawals[id].(custody := Executing)
    ensures t.events == s.events
    ensures request in t.executors && t.executors[request] == Executor(id, CheckingAddress)
    ensures CanSettle(t, id) ==> CanSettle(s, id)
    ensures CanRelease(t, id) ==> CanRelease(s, id)
  {
    t := Next(s, Start(request, id));
    StepKeepsInv(s, Start(request, id));
    Onward(s, Start(request, id), id);
  }

  lemma Started(s: State, id: Id, request: Id, legal: bool) returns (t: State)
    requires Inv(s) && id in s.withdrawals && request !in s.executors
    requires s.withdrawals[id].custody == Approved && s.withdrawals[id].accounting == ApprovedByCore
    ensures Inv(t) && id in t.withdrawals && t.withdrawals[id] == s.withdrawals[id].(custody := Executing)
    ensures t.events == s.events
    ensures request in t.executors
    ensures t.executors[request] == Executor(id, if legal then CallingProvider else Refused)
    ensures CanSettle(t, id) ==> CanSettle(s, id)
    ensures CanRelease(t, id) ==> CanRelease(s, id)
  {
    var u := Opened(s, id, request);
    t := Next(u, AddressChecked(request, legal));
    StepKeepsInv(u, AddressChecked(request, legal));
    Onward(u, AddressChecked(request, legal), id);
  }

  lemma Paid(s: State, id: Id, request: Id, cid: Id) returns (t: State)
    requires Inv(s) && id in s.withdrawals && request in s.executors
    requires s.executors[request] == Executor(id, CallingProvider)
    requires s.withdrawals[id].custody == Executing && s.withdrawals[id].accounting == ApprovedByCore
    ensures Inv(t) && id in t.withdrawals && t.events == s.events
    ensures t.withdrawals[id] == s.withdrawals[id].(custody := SubmittedToCregis, cid := Some(cid))
    ensures CanSettle(t, id) ==> CanSettle(s, id)
  {
    var u := Next(s, CallProvider(request, Accepted(cid)));
    StepKeepsInv(s, CallProvider(request, Accepted(cid)));
    Onward(s, CallProvider(request, Accepted(cid)), id);
    assert u.executors[request] == Executor(id, Answered(Accepted(cid)));
    t := Next(u, Finish(request));
    StepKeepsInv(u, Finish(request));
    Onward(u, Finish(request), id);
  }

  lemma ApprovingPath(x: Withdrawal, events: Events)
    requires Valid(x) && x.accounting in {PendingApproval, Approving} && x.operation == OpSubmitted
    ensures RowNext(RowNext(x, DoClaim, events), DoCoreApprove, events)
         == x.(accounting := ApprovedByCore, operation := OpProcessing)
    ensures x.custody == Approved
  {
  }

  lemma ApprovingSettles(s: State, id: Id)
    requires Inv(s) && id in s.withdrawals && s.withdrawals[id].operation == OpSubmitted
    requires s.withdrawals[id].accounting in {PendingApproval, Approving}
    ensures CanSettle(s, id)
  {
    ApprovingPath(s.withdrawals[id], s.events);
    var t := ActStep(s, id, DoClaim);
    var u := ActStep(t, id, DoCoreApprove);
    ApprovedSettles(u, id);
  }

  lemma ReservedSettles(s: State, id: Id)
    requires Inv(s) && id in s.withdrawals && s.withdrawals[id].operation == OpSubmitted
    requires s.withdrawals[id].accounting == Reserved
    ensures CanSettle(s, id)
  {
    assert Valid(s.withdrawals[id]) && s.withdrawals[id].custody == Submitted;
    var t := ActStep(s, id, DoApprove);
    ApprovingSettles(t, id);
  }

  lemma PendingPath(x: Withdrawal, events: Events)
    requires Valid(x) && x.accounting in {PendingReservation, Reserving}
    ensures RowNext(x, DoClaim, events) == x.(accounting := Reserving)
  {
  }

  lemma PendingSettles(s: State, id: Id)
    requires Inv(s) && id in s.withdrawals && s.withdrawals[id].accounting in {PendingReservation, Reserving}
    ensures CanSettle(s, id)
  {
    PendingPath(s.withdrawals[id], s.events);
    var t := ActStep(s, id, DoClaim);
    ReservingSettles(t, id);
  }

  lemma ReserveStepEnds(s: State, id: Id)
    requires Inv(s) && id in s.withdrawals && ReserveGuard(s, s.withdrawals[id])
    ensures CanSettle(s, id)
  {
    var t := Next(s, CoreReserve(id));
    assert t.withdrawals[id] == Reserve(s.withdrawals[id]);
    StepKeepsInv(s, CoreReserve(id));
    Onward(s, CoreReserve(id), id);
    ReservedSettles(t, id);
  }

  /** A withdrawal still to be reserved is settled once its wallet is credited enough. */
  lemma ReservingSettles(s: State, id: Id)
    requires Inv(s) && id in s.withdrawals && s.withdrawals[id].accounting == Reserving
    ensures CanSettle(s, id)
  {
    CreditedCanReserve(s, id);
    var credit := Credit(s.withdrawals[id].wallet, Atoms(s.withdrawals[id]));
    StepKeepsInv(s, credit);
    Onward(s, credit, id);
    ReserveStepEnds(Next(s, credit), id);
  }

  lemma CreditedCanReserve(s: State, id: Id)
    requires Inv(s) && id in s.withdrawals && s.withdrawals[id].accounting == Reserving
    ensures Atoms(s.withdrawals[id]) >= 0
    ensures var u := Next(s, Credit(s.withdrawals[id].wallet, Atoms(s.withdrawals[id])));
      u.withdrawals == s.withdrawals && ReserveGuard(u, s.withdrawals[id])
  {
    var x := s.withdrawals[id];
    assert Valid(x) && Balanced(s.withdrawals, s.money, x.wallet);
  }

  /**
   From any state in order, some continuation settles a withdrawal exactly if its row and the
   callbacks on file allow it.
   */
  lemma CanSettleIff(s: State, id: Id)
    requires Inv(s) && id in s.withdrawals
    ensures CanSettle(s, id) <==> MaySettle(s.withdrawals[id], s.events)
  {
    var x := s.withdrawals[id];
    assert Valid(x);
    if MaySettle(x, s.events) {
      match x.accounting
      case Settled => AlreadyEnded(s, id);
      case PendingReservation => PendingSettles(s, id);
      case Reserving => PendingSettles(s, id);
      case Reserved => ReservedSettles(s, id);
      case PendingApproval => ApprovingSettles(s, id);
      case Approving => ApprovingSettles(s, id);
      case ApprovedByCore => if x.custody == Approved { ApprovedSettles(s, id); } else { AwaitingSettles(s, id); }
      case PendingSettlement => CompletedSettles(s, id);
      case Settling => CompletedSettles(s, id);
      case _ =>
    } else {
      forall steps ensures !(id in Run(s, steps).withdrawals && Run(s, steps).withdrawals[id].accounting == Settled) {
        RunStaysStuck(s, steps, id);
      }
    }
  }

  // ---- released -----------------------------------------------------------------------------------

  /** The reported failure that a release can still rest on. */
  function MissingFailure(events: Events, cid: Id): FinalCode {
    if Failure(events, cid) then Code7 else Code2
  }

  lemma ReleasePath(x: Withdrawal, events: Events)
    requires Valid(x) && x.accounting in {PendingRelease, Releasing} && x.cid != None && NoClash(x, events)
    ensures var code := MissingFailure(events, x.cid.value); var more := events + {(x.cid.value, code)};
      && RowNext(x, DoFinal(x.cid.value, code), events) == x
      && OnlyOneFailureReported(more, x.cid.value)
  {
  }

  lemma ReleaseClaim(x: Withdrawal, events: Events)
    requires x.accounting in {PendingRelease, Releasing}
    ensures RowNext(x, DoClaim, events) == x.(accounting := Releasing)
  {
  }

  lemma GivenUpReleases(s: State, id: Id)
    requires Inv(s) && id in s.withdrawals && s.withdrawals[id].accounting in {PendingRelease, Releasing}
    requires MayRelease(s.withdrawals[id], s.events)
    ensures CanRelease(s, id)
  {
    var x, t := s.withdrawals[id], s;
    assert Valid(x);
    if x.cid != None {
      ReleasePath(x, s.events);
      t := CallbackStep(s, id, x.cid.value, MissingFailure(s.events, x.cid.value));
    }
    ReleaseClaim(x, t.events);
    var u := ActStep(t, id, DoClaim);
    ReleasingEnds(u, id);
  }

  lemma RejectPath(x: Withdrawal, events: Events)
    requires Valid(x) && x.custody == Submitted
    ensures x.cid == None
    ensures x.accounting in {PendingReservation, Reserving} ==>
      RowNext(x, DoReject, events) == x.(custody := Rejected, accounting := Released)
    ensures x.accounting == Reserved ==>
      RowNext(x, DoReject, events) == x.(custody := Rejected, accounting := PendingRelease)
  {
  }

  /** Every submitted withdrawal still waiting for its reservation is released by one rejection. */
  lemma WaitingReleases(s: State, id: Id)
    requires Inv(s) && id in s.withdrawals && s.withdrawals[id].accounting in {PendingReservation, Reserving}
    ensures var t := Run(s, [Act(id, DoReject)]);
      id in t.withdrawals && t.withdrawals[id].custody == Rejected && t.withdrawals[id].accounting == Released
    ensures CanRelease(s, id)
  {
    assert Valid(s.withdrawals[id]);
    RejectPath(s.withdrawals[id], s.events);
    RunOne(s, Act(id, DoReject));
    var t := ActStep(s, id, DoReject);
    AlreadyEnded(t, id);
  }

  lemma ReservedReleases(s: State, id: Id)
    requires Inv(s) && id in s.withdrawals && s.withdrawals[id].accounting == Reserved
    requires MayRelease(s.withdrawals[id], s.events)
    ensures CanRelease(s, id)
  {
    assert Valid(s.withdrawals[id]);
    RejectPath(s.withdrawals[id], s.events);
    var t := ActStep(s, id, DoReject);
    GivenUpReleases(t, id);
  }

  lemma FailurePath(x: Withdrawal, cid: Id, events: Events)
    requires Valid(x) && AwaitsProvider(x) && (x.cid == None || x.cid == Some(cid))
    requires NoClash(x.(cid := Some(cid)), events)
    ensures var code := MissingFailure(events, cid); var more := events + {(cid, code)};
      var y := RowNext(x, DoFinal(cid, code), events);
      y.accounting == PendingRelease && y.operation == x.operation && y.cid == Some(cid) && NoClash(y, more)
  {
    CallbackIsAllOrNothing(x, cid, MissingFailure(events, cid));
  }

  /** A withdrawal that waits for the provider is released after its report of a failure. */
  lemma AwaitingReleases(s: State, id: Id)
    requires Inv(s) && id in s.withdrawals && AwaitsProvider(s.withdrawals[id])
    requires MayRelease(s.withdrawals[id], s.events)
    ensures CanRelease(s, id)
  {
    var x := s.withdrawals[id];
    var unused := FreshCid(s.events);
    var cid := if x.cid == None then unused else x.cid.value;
    FailurePath(x, cid, s.events);
    var t := CallbackStep(s, id, cid, MissingFailure(s.events, cid));
    GivenUpReleases(t, id);
  }

  /** The request that was told its address is not legal gives the withdrawal up. */
  lemma Abandoned(s: State, id: Id, request: Id) returns (t: State)
    requires Inv(s) && id in s.withdrawals && request in s.executors
    requires s.executors[request] == Executor(id, Refused)
    requires s.withdrawals[id].custody == Executing && s.withdrawals[id].accounting == ApprovedByCore
    ensures Inv(t) && id in t.withdrawals && t.events == s.events
    ensures t.withdrawals[id] == s.withdrawals[id].(custody := Failed, accounting := PendingRelease)
    ensures CanRelease(t, id) ==> CanRelease(s, id)
  {
    t := Next(s, Finish(request));
    StepKeepsInv(s, Finish(request));
    Onward(s, Finish(request), id);
  }

  /** A withdrawal Core has approved is released after its destination address turned out not to be legal. */
  lemma ApprovedReleases(s: State, id: Id)
    requires Inv(s) && id in s.withdrawals && s.withdrawals[id].custody == Approved
    requires s.withdrawals[id].accounting == ApprovedByCore && s.withdrawals[id].operation == OpProcessing
    ensures CanRelease(s, id)
  {
    assert Valid(s.withdrawals[id]) && s.withdrawals[id].cid == None;
    var request := UnusedId(s.executors.Keys);
    var started := Started(s, id, request, false);
    var abandoned := Abandoned(started, id, request);
    GivenUpReleases(abandoned, id);
  }

  lemma ApprovingReleases(s: State, id: Id)
    requires Inv(s) && id in s.withdrawals && s.withdrawals[id].operation == OpSubmitted
    requires s.withdrawals[id].accounting in {PendingApproval, Approving}
    ensures CanRelease(s, id)
  {
    ApprovingPath(s.withdrawals[id], s.events);
    var t := ActStep(s, id, DoClaim);
    var u := ActStep(t, id, DoCoreApprove);
    ApprovedReleases(u, id);
  }

  /**
   From any state in order, some continuation releases a withdrawal exactly if its row and the
   callbacks on file allow it.
   */
  lemma CanReleaseIff(s: State, id: Id)
    requires Inv(s) && id in s.withdrawals
    ensures CanRelease(s, id) <==> MayRelease(s.withdrawals[id], s.events)
  {
    var x := s.withdrawals[id];
    assert Valid(x);
    if MayRelease(x, s.events) {
      match x.accounting
      case Released => AlreadyEnded(s, id);
      case PendingReservation => WaitingReleases(s, id);
      case Reserving => WaitingReleases(s, id);
      case Reserved => ReservedReleases(s, id);
      case PendingApproval => ApprovingReleases(s, id);
      case Approving => ApprovingReleases(s, id);
      case ApprovedByCore => if x.custody == Approved { ApprovedReleases(s, id); } else { AwaitingReleases(s, id); }
      case PendingRelease => GivenUpReleases(s, id);
      case Releasing => GivenUpReleases(s, id);
      case _ =>
    } else {
      forall steps ensures !(id in Run(s, steps).withdrawals && Run(s, steps).withdrawals[id].accounting == Released) {
        RunStaysStuck(s, steps, id);
      }
    }
  }

  /** Neither a settlement nor a release is possible any more. */
  ghost predicate Stuck(s: State, id: Id) { !CanSettle(s, id) && !CanRelease(s, id) }

  /**
   Exactly these withdrawals are stuck: parked ones; ones whose operation was approved by hand
   before their approval, or rejected or executed by hand before their end; ones whose payout
   number has both kinds of failure on file, or a failure together with the completion; and ones
   already on a branch that the reports on file contradict.
   */
  lemma StuckIff(s: State, id: Id)
    requires Inv(s) && id in s.withdrawals
    ensures var x := s.withdrawals[id];
      Stuck(s, id) <==>
        match x.accounting
        case PendingReservation | Reserving | Settled | Released => false
        case AccountingException => true
        case Reserved => x.operation in {OpRejected, OpCompleted}
        case PendingApproval | Approving => x.operation != OpSubmitted
        case ApprovedByCore => x.operation == OpCompleted || (!NoBadReport(x, s.events) && !NoClash(x, s.events))
        case PendingSettlement | Settling => x.operation == OpCompleted || !NoBadReport(x, s.events)
        case PendingRelease | Releasing => x.operation in {OpRejected, OpCompleted} || !NoClash(x, s.events)
  {
    assert Valid(s.withdrawals[id]);
    CanSettleIff(s, id);
    CanReleaseIff(s, id);
  }

  /**
   A withdrawal whose reservation ran short is parked by the worker (the shortage is not retried),
   and from then on nothing settles or releases it.
   */
  lemma ShortIsStuckForGood(s: State, id: Id)
    requires Inv(s) && Short(s, id)
    ensures Stuck(Next(s, Act(id, DoPark)), id)
  {
    var t := Next(s, Act(id, DoPark));
    assert id in t.withdrawals && t.withdrawals[id].accounting == AccountingException;
    StepKeepsInv(s, Act(id, DoPark));
    StuckIff(t, id);
  }
}
