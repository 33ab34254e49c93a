/**
 The API handlers that write withdrawal rows: each runs its statements one after the other,
 looks only at what they changed, and falls back on re-reading the row. Their answers are
 proved to depend on the resulting row alone, so a repeated request gets the same answer.
 */
module CustodyHandlers {
  import opened Common
  import opened Custody

  datatype Reply = Accept | Conflict | Review | Unknown

  /** The accounting statuses a row passes through on the way to what `pending` asks for. */
  predicate Queued(pending: AccountingStatus, a: AccountingStatus) {
    match pending
    case PendingApproval => a in {PendingApproval, Approving, ApprovedByCore}
    case PendingRelease => a in {PendingRelease, Releasing, Released}
    case PendingSettlement => a in {PendingSettlement, Settling, Settled}
    case _ => false
  }

  function BranchOf(code: FinalCode): AccountingStatus {
    if Target(code) == Completed then PendingSettlement else PendingRelease
  }

  /** The row was refused before any payout: what is left to do about its funds is in `accounting`. */
  predicate RejectedTo(before: Withdrawal, after: Withdrawal, accounting: AccountingStatus) {
    after == before.(custody := Rejected, accounting := accounting)
  }

  class CustodyStore {
    var withdrawals: map<Id, Withdrawal>
    var events: Events

    ghost predicate Valid() reads this {
      forall id :: id in withdrawals ==> Custody.Valid(withdrawals[id])
    }

    constructor ()
      ensures Valid() && withdrawals == map[] && events == {}
    {
      withdrawals, events := map[], {};
    }

    /** Runs one statement against one row and tells whether it changed the row. */
    method Execute(id: Id, after: Withdrawal) returns (changed: bool)
      requires id in withdrawals
      modifies this`withdrawals
      ensures withdrawals == old(withdrawals)[id := after]
      ensures changed <==> after != old(withdrawals[id])
    {
      changed := after != withdrawals[id];
      withdrawals := withdrawals[id := after];
    }

    method ApproveWithdrawal(id: Id) returns (reply: Reply)
      requires Valid()
      modifies this`withdrawals
      ensures Valid()
      ensures id in old(withdrawals) ==> withdrawals == old(withdrawals)[id := Approve(old(withdrawals[id]))]
      ensures id !in old(withdrawals) ==> withdrawals == old(withdrawals)
      ensures reply == Accept <==>
        id in withdrawals && withdrawals[id].custody == Approved && Queued(PendingApproval, withdrawals[id].accounting)
      ensures id in old(withdrawals) ==>
        if old(withdrawals[id]).custody == Submitted && old(withdrawals[id]).accounting == Reserved
        then reply == Accept
             && withdrawals[id] == old(withdrawals[id]).(custody := Approved, accounting := PendingApproval)
        else withdrawals == old(withdrawals)
    {
      if id !in withdrawals { return Conflict; }
      RowStepKeeps(withdrawals[id], DoApprove, events);
      var changed := Execute(id, Approve(withdrawals[id]));
      if changed { return Accept; }
      var existing := withdrawals[id];
      reply := if existing.custody == Approved && Queued(PendingApproval, existing.accounting)
               then Accept else Conflict;
    }

    /**
     A submitted withdrawal is rejected in whatever state its reservation is: one that Core has not
     reserved is released at once, a reserved one is queued for its release.
     */
    method RejectWithdrawal(id: Id) returns (reply: Reply)
      requires Valid()
      modifies this`withdrawals
      ensures Valid()
      ensures id in old(withdrawals) ==> withdrawals == old(withdrawals)[id := Reject(old(withdrawals[id]))]
      ensures id !in old(withdrawals) ==> withdrawals == old(withdrawals)
      ensures reply == Accept <==>
        id in withdrawals && withdrawals[id].custody == Rejected && Queued(PendingRelease, withdrawals[id].accounting)
      ensures id in old(withdrawals) && old(withdrawals[id]).custody == Submitted ==>
        match old(withdrawals[id]).accounting
        case PendingReservation | Reserving =>
          reply == Accept && RejectedTo(old(withdrawals[id]), withdrawals[id], Released)
          && withdrawals[id].operation == NoOperation
        case Reserved => reply == Accept && RejectedTo(old(withdrawals[id]), withdrawals[id], PendingRelease)
        case _ => reply == Conflict && withdrawals == old(withdrawals)
      ensures id in old(withdrawals) && old(withdrawals[id]).custody != Submitted ==> withdrawals == old(withdrawals)
    {
      if id !in withdrawals { return Conflict; }
      RowStepKeeps(withdrawals[id], DoReject, events);
      var changed := Execute(id, Reject(withdrawals[id]));
      if changed { return Accept; }
      var existing := withdrawals[id];
      reply := if existing.custody == Rejected && Queued(PendingRelease, existing.accounting) then Accept else Conflict;
    }

    /**
     The payout request stores the number the provider answered with. When a callback came
     first, the request still succeeds exactly if the callback named the same payout.
     */
    method PersistPayout(id: Id, cid: Id) returns (reply: Reply)
      requires Valid() && id in withdrawals
      modifies this`withdrawals
      ensures Valid()
      ensures withdrawals == old(withdrawals)[id := PersistSubmission(old(withdrawals[id]), cid)]
      ensures reply == Accept <==> withdrawals[id].cid == Some(cid) && withdrawals[id].custody != Exception
      ensures if old(withdrawals[id]).custody == Executing
              then reply == Accept
                   && withdrawals[id] == old(withdrawals[id]).(custody := SubmittedToCregis, cid := Some(cid))
              else withdrawals == old(withdrawals)
    {
      RowStepKeeps(withdrawals[id], DoPersist(cid), events);
      var changed := Execute(id, PersistSubmission(withdrawals[id], cid));
      var stored := withdrawals[id];
      if stored.cid != Some(cid)
         || (!changed && stored.custody !in {SubmittedToCregis, Completed, Rejected, Failed}) {
        return Conflict;
      }
      reply := Accept;
    }

    /** The final callback's second and third statement. */
    method FinishPayout(id: Id, cid: Id, code: FinalCode) returns (reply: Reply)
      requires Valid() && id in withdrawals
      modifies this`withdrawals
      ensures withdrawals == old(withdrawals)[id := RowNext(old(withdrawals[id]), DoFinal(cid, code), events)]
      ensures reply == Accept <==>
        && withdrawals[id].custody == Target(code) && withdrawals[id].cid == Some(cid)
        && Queued(BranchOf(code), withdrawals[id].accounting)
      ensures reply == Accept || reply == Review
      ensures var x := old(withdrawals[id]);
        if AwaitsProvider(x) && (x.cid == None || x.cid == Some(cid))
        then reply == Accept && withdrawals[id] == Ended(x, cid, code)
        else withdrawals == old(withdrawals)
    {
      var claimed := Execute(id, CallbackClaimsCid(withdrawals[id], cid));
      var finished := Execute(id, CallbackFinishes(withdrawals[id], cid, code));
      if finished { return Accept; }
      var row := withdrawals[id];
      reply := if row.custody == Target(code) && row.cid == Some(cid) && Queued(BranchOf(code), row.accounting)
               then Accept else Review;
    }

    /** `exact` is the outcome of comparing the callback with the provider's order. */
    method PayoutCallback(id: Id, cid: Id, code: FinalCode, exact: bool) returns (reply: Reply)
      requires Valid()
      modifies this
      ensures Valid()
      ensures id !in old(withdrawals) ==> reply == Unknown && withdrawals == old(withdrawals) && events == old(events)
      ensures id in old(withdrawals) ==>
        && events == old(events) + {(cid, code)}
        && withdrawals == old(withdrawals)[id :=
             RowNext(old(withdrawals[id]), if exact then DoFinal(cid, code) else DoConflict, old(events))]
      ensures id in withdrawals ==>
        (reply == Accept <==>
          && exact && withdrawals[id].custody == Target(code) && withdrawals[id].cid == Some(cid)
          && Queued(BranchOf(code), withdrawals[id].accounting))
      ensures id in old(withdrawals) ==>
        var x := old(withdrawals[id]);
        if !AwaitsProvider(x) then withdrawals == old(withdrawals)
        else if !exact then withdrawals[id] == x.(custody := Exception)
        else if x.cid == None || x.cid == Some(cid)
        then reply == Accept && withdrawals[id] == Ended(x, cid, code)
        else withdrawals == old(withdrawals)
    {
      if id !in withdrawals { return Unknown; }
      RowStepKeeps(withdrawals[id], if exact then DoFinal(cid, code) else DoConflict, events);
      events := events + {(cid, code)};
      if exact {
        reply := FinishPayout(id, cid, code);
      } else {
        var conflicted := Execute(id, CallbackConflict(withdrawals[id]));
        reply := Review;
      }
    }
  }

  /**
   Of several final callbacks for one payout number the first decides: none that follows,
   with whatever code, changes the withdrawal any more.
   */
  lemma FirstReportWins(x: Withdrawal, cid: Id, first: FinalCode, second: FinalCode, events: Events)
    requires Custody.Valid(x)
    ensures var once := RowNext(x, DoFinal(cid, first), events);
      RowNext(once, DoFinal(cid, second), events) == once
  {
    CallbackIsAllOrNothing(x, cid, first);
    CallbackIsAllOrNothing(RowNext(x, DoFinal(cid, first), events), cid, second);
  }
}
