/**
 One withdrawal: the custody row (cregis_withdrawals) joined with its accounting row
 (cregis_withdrawal_accounting) and the Core operation that reserves its funds.
 Every SQL statement that touches a single withdrawal is one function on that joined row:
 the WHERE clause is the guard, and a statement whose guard fails changes nothing.
 */
module Custody {

  import opened Common

  datatype CustodyStatus =
    | Submitted | Approved | Executing | SubmittedToCregis | Exception
    | Completed | Rejected | Failed

  datatype AccountingStatus =
    | PendingReservation | Reserving | Reserved
    | PendingApproval | Approving | ApprovedByCore
    | PendingRelease | Releasing | Released
    | PendingSettlement | Settling | Settled
    | AccountingException

  /** Status of the linked Core Operation/CryptoTransfer pair; NoOperation is a NULL link. */
  datatype OperationStatus =
    | NoOperation | OpSubmitted | OpProcessing | OpCompleted | OpRejected | OpFailed

  /** The provider's final callback codes. */
  datatype FinalCode = Code2 | Code4 | Code6 | Code7

  function Target(code: FinalCode): CustodyStatus {
    match code
    case Code2 => Rejected
    case Code4 => Rejected
    case Code6 => Completed
    case Code7 => Failed
  }

  datatype Withdrawal = Withdrawal(
    wallet: Id, amount: int, fee: int, net: int,
    custody: CustodyStatus, cid: Option<Id>,
    accounting: AccountingStatus, operation: OperationStatus)

  /** Callback events on file, by provider payout number. */
  type Events = set<(Id, FinalCode)>

  predicate OnlyCompletedReported(events: Events, cid: Id) {
    (cid, Code6) in events && (cid, Code2) !in events && (cid, Code4) !in events && (cid, Code7) !in events
  }

  predicate OnlyOneFailureReported(events: Events, cid: Id) {
    && (cid, Code6) !in events
    && ((cid, Code2) in events || (cid, Code4) in events) != ((cid, Code7) in events)
  }

  // ---- statements of the Go API -------------------------------------------------------

  function Approve(x: Withdrawal): Withdrawal {
    if x.custody == Submitted && x.accounting == Reserved
    then x.(custody := Approved, accounting := PendingApproval)
    else x
  }

  function Reject(x: Withdrawal): Withdrawal {
    if x.custody == Submitted && x.accounting in {PendingReservation, Reserving, Reserved}
    then x.(custody := Rejected,
            accounting := if x.operation == NoOperation then Released else PendingRelease)
    else x
  }

  function StartExecution(x: Withdrawal): Withdrawal {
    if x.custody == Approved && x.accounting == ApprovedByCore then x.(custody := Executing) else x
  }

  function PersistSubmission(x: Withdrawal, cid: Id): Withdrawal {
    if x.custody == Executing && x.accounting == ApprovedByCore
    then x.(custody := SubmittedToCregis, cid := Some(cid))
    else x
  }

  function FailForRelease(x: Withdrawal): Withdrawal {
    if x.custody == Executing && x.accounting == ApprovedByCore
    then x.(custody := Failed, accounting := PendingRelease)
    else x
  }

  function MarkException(x: Withdrawal): Withdrawal {
    if x.custody == Executing then x.(custody := Exception) else x
  }

  /** A payout was started and the provider has not reported its end. */
  predicate AwaitsProvider(x: Withdrawal) {
    x.custody in {SubmittedToCregis, Executing, Exception}
  }

  /** Callback whose order does not match the stored withdrawal. */
  function CallbackConflict(x: Withdrawal): Withdrawal {
    if AwaitsProvider(x) then x.(custody := Exception) else x
  }

  /** Second statement of the final-callback batch: record the payout number. */
  function CallbackClaimsCid(x: Withdrawal, cid: Id): Withdrawal {
    if AwaitsProvider(x) && (x.cid == None || x.cid == Some(cid)) then x.(cid := Some(cid)) else x
  }

  /** Third statement: the terminal status, and the accounting branch with it. */
  function CallbackFinishes(x: Withdrawal, cid: Id, code: FinalCode): Withdrawal {
    if AwaitsProvider(x) && x.cid == Some(cid) && x.accounting == ApprovedByCore
    then x.(custody := Target(code),
            accounting := if code == Code6 then PendingSettlement else PendingRelease)
    else x
  }

  function ReconcileSubmitted(x: Withdrawal, cid: Id): Withdrawal {
    if x.custody == Exception && x.cid == None && x.accounting == ApprovedByCore && x.operation != NoOperation
    then x.(custody := SubmittedToCregis, cid := Some(cid))
    else x
  }

  function ReconcileCompleted(x: Withdrawal, cid: Id, events: Events): Withdrawal {
    if x.custody == Exception && x.cid == Some(cid) && x.accounting == ApprovedByCore
       && OnlyCompletedReported(events, cid)
    then x.(custody := Completed, accounting := PendingSettlement)
    else x
  }

  // ---- statements of the Core accounting worker ---------------------------------------

  function Claimed(a: AccountingStatus): AccountingStatus {
    match a
    case PendingReservation => Reserving
    case PendingApproval => Approving
    case PendingRelease => Releasing
    case PendingSettlement => Settling
    case _ => a
  }

  function Unclaimed(a: AccountingStatus): AccountingStatus {
    match a
    case Reserving => PendingReservation
    case Approving => PendingApproval
    case Releasing => PendingRelease
    case Settling => PendingSettlement
    case _ => a
  }

  /** A non-retryable failure, or the eighth retryable one, parks a claimed row. */
  function Parked(a: AccountingStatus): AccountingStatus {
    if Unclaimed(a) != a then AccountingException else a
  }

  function CoreApprove(x: Withdrawal): Withdrawal {
    if x.accounting == Approving && x.custody == Approved && x.operation == OpSubmitted
    then x.(accounting := ApprovedByCore, operation := OpProcessing)
    else x
  }

  /** Links a fresh operation; the caller has moved the funds from available to frozen. */
  function Reserve(x: Withdrawal): Withdrawal {
    x.(accounting := Reserved, operation := OpSubmitted)
  }

  /** crypto-wallets: an administrator approves, rejects or executes the linked transfer by hand. */
  function ApproveTransfer(x: Withdrawal): Withdrawal {
    if x.operation == OpSubmitted then x.(operation := OpProcessing) else x
  }

  function RejectTransfer(x: Withdrawal): Withdrawal { x.(operation := OpRejected) }

  function ExecuteTransfer(x: Withdrawal): Withdrawal { x.(operation := OpCompleted) }

  function ReleaseFunds(x: Withdrawal): Withdrawal {
    x.(accounting := Released,
       operation := if x.operation == OpSubmitted then OpRejected
                    else if x.operation == OpProcessing then OpFailed
                    else x.operation)
  }

  function Settle(x: Withdrawal): Withdrawal {
    x.(accounting := Settled, operation := OpCompleted)
  }

  /** Statements that change one withdrawal and no balance. */
  datatype RowStep =
    | DoApprove | DoReject | DoStart | DoPersist(cid: Id) | DoFail | DoMarkException
    | DoConflict | DoFinal(cid: Id, code: FinalCode)
    | DoReconcileSubmitted(cid: Id) | DoReconcileCompleted(cid: Id)
    | DoClaim | DoUnclaim | DoPark | DoCoreApprove | DoApproveTransfer
  {
    /** Statements only the request that executes the payout issues. */
    predicate ByExecutor() { DoStart? || DoPersist? || DoFail? || DoMarkException? }
  }

  function RowNext(x: Withdrawal, step: RowStep, events: Events): Withdrawal {
    match step
    case DoApprove => Approve(x)
    case DoReject => Reject(x)
    case DoStart => StartExecution(x)
    case DoPersist(cid) => PersistSubmission(x, cid)
    case DoFail => FailForRelease(x)
    case DoMarkException => MarkException(x)
    case DoConflict => CallbackConflict(x)
    case DoFinal(cid, code) => CallbackFinishes(CallbackClaimsCid(x, cid), cid, code)
    case DoReconcileSubmitted(cid) => ReconcileSubmitted(x, cid)
    case DoReconcileCompleted(cid) => ReconcileCompleted(x, cid, events)
    case DoClaim => x.(accounting := Claimed(x.accounting))
    case DoUnclaim => x.(accounting := Unclaimed(x.accounting))
    case DoPark => x.(accounting := Parked(x.accounting))
    case DoCoreApprove => CoreApprove(x)
    case DoApproveTransfer => ApproveTransfer(x)
  }

  // ---- what every reachable withdrawal satisfies --------------------------------------

  /** How far custody may be while accounting is where it is. */
  predicate Coupled(c: CustodyStatus, a: AccountingStatus) {
    match c
    case Submitted => a in {PendingReservation, Reserving, Reserved, AccountingException}
    case Approved => a in {PendingApproval, Approving, ApprovedByCore, AccountingException}
    case Executing | SubmittedToCregis | Exception => a == ApprovedByCore
    case Completed => a in {PendingSettlement, Settling, Settled, AccountingException}
    case Rejected | Failed => a in {PendingRelease, Releasing, Released, AccountingException}
  }

  /** Which Core operation may belong to which accounting status, whoever acts on the operation. */
  predicate Linked(a: AccountingStatus, o: OperationStatus) {
    match a
    case PendingReservation | Reserving => o == NoOperation
    case Reserved | PendingApproval | Approving | PendingRelease | Releasing =>
      o == OpSubmitted || o == OpProcessing || o == OpRejected || o == OpCompleted
    case ApprovedByCore | PendingSettlement | Settling => o == OpProcessing || o == OpCompleted
    case Released => o == NoOperation || o == OpRejected || o == OpFailed
    case Settled => o == OpCompleted
    case AccountingException => o != OpFailed
  }

  predicate CidFits(c: CustodyStatus, cid: Option<Id>) {
    && (c in {Submitted, Approved, Executing} ==> cid == None)
    && (c in {SubmittedToCregis, Completed} ==> cid != None)
  }

  predicate Valid(x: Withdrawal) {
    && 0 <= x.fee && 0 < x.net && x.amount == x.fee + x.net
    && Coupled(x.custody, x.accounting)
    && Linked(x.accounting, x.operation)
    && CidFits(x.custody, x.cid)
  }

  function Rank(x: Withdrawal): nat {
    match x.custody
    case Submitted => 0
    case Approved => 1
    case Executing => 2
    case Exception => if x.cid == None then 3 else 5
    case SubmittedToCregis => 4
    case Completed | Rejected | Failed => 6
  }

  /** Custody has left the statuses from which a payout can still be started. */
  predicate PastApproval(x: Withdrawal) { x.custody !in {Submitted, Approved} }

  /** `y` is a later version of `x`: what no statement of any actor ever undoes. */
  predicate Advances(x: Withdrawal, y: Withdrawal) {
    && (y.wallet, y.amount, y.fee, y.net) == (x.wallet, x.amount, x.fee, x.net)
    && (x.cid != None ==> y.cid == x.cid)
    && Rank(x) <= Rank(y)
    && (x.custody != y.custody ==> Rank(x) < Rank(y))
    && (x.accounting == Settled ==> y.accounting == Settled)
    && (x.accounting == Released ==> y.accounting == Released)
    && (x.operation == OpCompleted ==> y.operation == OpCompleted)
  }

  lemma AdvancesTransitively(x: Withdrawal, y: Withdrawal, z: Withdrawal)
    requires Advances(x, y) && Advances(y, z)
    ensures Advances(x, z)
  {
    if x.custody == z.custody && x.custody != y.custody {
      assert Rank(x) < Rank(y) <= Rank(z);
    }
  }

  /** Amount still to be reserved by Core: the rows the balance guard subtracts. */
  function Unreserved(x: Withdrawal): int {
    if x.accounting in {PendingReservation, Reserving} then x.amount else 0
  }

  /** Amount Core holds frozen for this withdrawal. */
  function Held(x: Withdrawal): int {
    if x.operation in {OpSubmitted, OpProcessing} then x.amount else 0
  }

  /** Amount paid out of the wallet for good. */
  function PaidOut(x: Withdrawal): int {
    if x.operation == OpCompleted then x.amount else 0
  }

  /**
   Every single-row statement, on any valid withdrawal and any events, keeps it valid,
   only advances it, never adds to the amount waiting for a reservation, and moves no money.
   */
  lemma RowStepKeeps(x: Withdrawal, step: RowStep, events: Events)
    requires Valid(x)
    ensures var y := RowNext(x, step, events);
      && Valid(y) && Advances(x, y)
      && 0 <= Unreserved(y) <= Unreserved(x)
      && Held(y) == Held(x) && PaidOut(y) == PaidOut(x)
  {
    match step
    case DoFinal(cid, code) =>
      var named := CallbackClaimsCid(x, cid);
      assert named != x ==> AwaitsProvider(x) && x.accounting == ApprovedByCore;
    case _ =>
  }

  /**
   The final-callback batch is all or nothing: its second statement alone never takes
   effect on a valid withdrawal, although the two statements test different conditions.
   */
  lemma CallbackIsAllOrNothing(x: Withdrawal, cid: Id, code: FinalCode)
    requires Valid(x)
    ensures var y := RowNext(x, DoFinal(cid, code), {});
      if AwaitsProvider(x) && (x.cid == None || x.cid == Some(cid))
      then y.custody == Target(code) && y.cid == Some(cid)
           && y.accounting == (if Target(code) == Completed then PendingSettlement else PendingRelease)
      else y == x
  {
  }

  // ---- the life cycle, status by status -----------------------------------------------------

  /** The provider's final report for a payout number, and the branch the accounting takes. */
  function Ended(x: Withdrawal, cid: Id, code: FinalCode): Withdrawal {
    match code
    case Code6 => x.(cid := Some(cid), custody := Completed, accounting := PendingSettlement)
    case Code7 => x.(cid := Some(cid), custody := Failed, accounting := PendingRelease)
    case Code2 | Code4 => x.(cid := Some(cid), custody := Rejected, accounting := PendingRelease)
  }

  /** From the approval by Core to the end of the payout. */
  function PayoutCycle(x: Withdrawal, row: RowStep, events: Events): Withdrawal {
    match (x.custody, row)
    case (Approved, DoStart) => x.(custody := Executing)
    case (Executing, DoPersist(cid)) => x.(custody := SubmittedToCregis, cid := Some(cid))
    case (Executing, DoFail) => x.(custody := Failed, accounting := PendingRelease)
    case (Executing, DoMarkException) => x.(custody := Exception)
    case (Executing, DoConflict) => x.(custody := Exception)
    case (SubmittedToCregis, DoConflict) => x.(custody := Exception)
    case (Executing, DoFinal(cid, code)) => Ended(x, cid, code)
    case (SubmittedToCregis, DoFinal(cid, code)) => if x.cid == Some(cid) then Ended(x, cid, code) else x
    case (Exception, DoFinal(cid, code)) => if x.cid in {None, Some(cid)} then Ended(x, cid, code) else x
    case (Exception, DoReconcileSubmitted(cid)) =>
      if x.cid == None then x.(custody := SubmittedToCregis, cid := Some(cid)) else x
    case (Exception, DoReconcileCompleted(cid)) =>
      if x.cid == Some(cid) && {(cid, Code2), (cid, Code4), (cid, Code6), (cid, Code7)} * events == {(cid, Code6)}
      then Ended(x, cid, Code6) else x
    case _ => x
  }

  /** What may become of a withdrawal, by the status of its accounting. */
  function LifeCycle(x: Withdrawal, row: RowStep, events: Events): Withdrawal {
    match (x.accounting, row)
    case (_, DoApproveTransfer) => if x.operation == OpSubmitted then x.(operation := OpProcessing) else x
    case (PendingReservation, DoClaim) => x.(accounting := Reserving)
    case (PendingReservation, DoReject) => x.(custody := Rejected, accounting := Released)
    case (Reserving, DoUnclaim) => x.(accounting := PendingReservation)
    case (Reserving, DoReject) => x.(custody := Rejected, accounting := Released)
    case (Reserving, DoPark) => x.(accounting := AccountingException)
    case (Reserved, DoApprove) => x.(custody := Approved, accounting := PendingApproval)
    case (Reserved, DoReject) => x.(custody := Rejected, accounting := PendingRelease)
    case (PendingApproval, DoClaim) => x.(accounting := Approving)
    case (Approving, DoUnclaim) => x.(accounting := PendingApproval)
    case (Approving, DoPark) => x.(accounting := AccountingException)
    case (Approving, DoCoreApprove) =>
      if x.operation == OpSubmitted then x.(accounting := ApprovedByCore, operation := OpProcessing) else x
    case (ApprovedByCore, _) => PayoutCycle(x, row, events)
    case (PendingRelease, DoClaim) => x.(accounting := Releasing)
    case (Releasing, DoUnclaim) => x.(accounting := PendingRelease)
    case (Releasing, DoPark) => x.(accounting := AccountingException)
    case (PendingSettlement, DoClaim) => x.(accounting := Settling)
    case (Settling, DoUnclaim) => x.(accounting := PendingSettlement)
    case (Settling, DoPark) => x.(accounting := AccountingException)
    case _ => x
  }

  lemma OnlyCompletedIsOnFile(events: Events, cid: Id)
    ensures OnlyCompletedReported(events, cid) <==>
      {(cid, Code2), (cid, Code4), (cid, Code6), (cid, Code7)} * events == {(cid, Code6)}
  {
    var mine := {(cid, Code2), (cid, Code4), (cid, Code6), (cid, Code7)} * events;
    assert (cid, Code2) in mine <==> (cid, Code2) in events;
    assert (cid, Code4) in mine <==> (cid, Code4) in events;
    assert (cid, Code6) in mine <==> (cid, Code6) in events;
    assert (cid, Code7) in mine <==> (cid, Code7) in events;
    if OnlyCompletedReported(events, cid) { assert mine == {(cid, Code6)}; }
  }

  /**
   On every valid withdrawal the statements, each with its own WHERE clause over two or three
   columns, amount to one life cycle: nothing else ever happens to a row, and each of these does.
   */
  lemma StatementsFollowLifeCycle(x: Withdrawal, row: RowStep, events: Events)
    requires Valid(x)
    ensures RowNext(x, row, events) == LifeCycle(x, row, events)
  {
    match row
    case DoReconcileCompleted(cid) => OnlyCompletedIsOnFile(events, cid);
    case _ =>
  }

  /**
   Even on a row that is not in order, such as one restored from elsewhere, a statement takes effect
   only where custody and accounting agree with each other.
   */
  lemma GuardsTestBothRows(x: Withdrawal, cid: Id, code: FinalCode, events: Events)
    ensures Approve(x) != x ==> x.custody == Submitted && x.accounting == Reserved
    ensures Reject(x) != x ==> x.custody == Submitted && x.accounting in {PendingReservation, Reserving, Reserved}
    ensures StartExecution(x) != x ==> x.custody == Approved && x.accounting == ApprovedByCore
    ensures PersistSubmission(x, cid) != x ==> x.custody == Executing && x.accounting == ApprovedByCore
    ensures FailForRelease(x) != x ==> x.custody == Executing && x.accounting == ApprovedByCore
    ensures CallbackClaimsCid(x, cid) != x ==>
      x.custody in {Executing, SubmittedToCregis, Exception} && x.cid == None
    ensures CallbackFinishes(x, cid, code) != x ==>
      x.custody in {Executing, SubmittedToCregis, Exception} && x.cid == Some(cid) && x.accounting == ApprovedByCore
    ensures ReconcileSubmitted(x, cid) != x ==>
      x.custody == Exception && x.cid == None && x.accounting == ApprovedByCore && x.operation != NoOperation
    ensures ReconcileCompleted(x, cid, events) != x ==>
      x.custody == Exception && x.cid == Some(cid) && x.accounting == ApprovedByCore
    ensures CoreApprove(x) != x ==> x.accounting == Approving && x.custody == Approved && x.operation == OpSubmitted
  {
  }

  /** The funds of a withdrawal are frozen or have gone out, or Core itself has released them. */
  predicate Committed(x: Withdrawal) {
    x.operation == OpProcessing || x.operation == OpCompleted || x.operation == OpFailed
  }

  /** The money-moving statements, under their own guards, keep the row valid too. */
  lemma MoneyStepKeeps(x: Withdrawal)
    requires Valid(x)
    ensures x.accounting == Reserving && x.custody == Submitted ==>
      Valid(Reserve(x)) && Advances(x, Reserve(x))
    ensures x.accounting == Releasing && (x.operation == OpSubmitted || x.operation == OpProcessing) ==>
      Valid(ReleaseFunds(x)) && Advances(x, ReleaseFunds(x))
    ensures x.accounting == Settling && x.operation == OpProcessing ==>
      Valid(Settle(x)) && Advances(x, Settle(x))
    ensures x.operation == OpSubmitted ==> Valid(RejectTransfer(x)) && Advances(x, RejectTransfer(x))
    ensures x.operation == OpProcessing ==> Valid(ExecuteTransfer(x)) && Advances(x, ExecuteTransfer(x))
  {
  }
}
