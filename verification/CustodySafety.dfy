/**
 What holds of the withdrawal protocol over every run: statuses, payouts and the journal,
 whatever the order in which the actors' steps interleave.
 */
module CustodySafety {
  import opened Common
  import opened Custody
  import opened CustodyProtocol
  import opened Sums

  lemma EmptyKeepsInv()
    ensures Inv(Empty)
  {
    forall w ensures Balanced(Empty.withdrawals, Empty.money, w) {
      TotalOfZeroes(Empty.withdrawals, HeldOf(w));
      TotalOfZeroes(Empty.withdrawals, PaidOutOf(w));
      TotalOfZeroes(Empty.money.holds, HoldOf(w));
    }
  }

  /** From any state in order, every run stays in order and only advances the withdrawals. */
  lemma {:induction false} RunKeepsInv(s: State, steps: seq<Step>)
    requires Inv(s)
    ensures Inv(Run(s, steps)) && AllAdvance(s.withdrawals, Run(s, steps).withdrawals)
  {
    if steps != [] {
      var before := Run(s, steps[..|steps| - 1]);
      RunKeepsInv(s, steps[..|steps| - 1]);
      StepKeepsInv(before, steps[|steps| - 1]);
      forall id | id in s.withdrawals
        ensures id in Run(s, steps).withdrawals && Advances(s.withdrawals[id], Run(s, steps).withdrawals[id])
      {
        AdvancesTransitively(s.withdrawals[id], before.withdrawals[id], Run(s, steps).withdrawals[id]);
      }
    }
  }

  /** Running on from the end of a run. */
  lemma {:induction false} RunAppends(s: State, first: seq<Step>, rest: seq<Step>)
    ensures Run(s, first + rest) == Run(Run(s, first), rest)
  {
    if rest == [] {
      assert first + rest == first;
    } else {
      var shorter := rest[..|rest| - 1];
      RunAppends(s, first, shorter);
      assert (first + rest)[..|first + rest| - 1] == first + shorter;
    }
  }

  lemma RunOne(s: State, step: Step)
    ensures Run(s, [step]) == Next(s, step)
  {
    assert Run(s, [step][..0]) == s;
  }

  lemma ReachableInv(s: State)
    requires Reachable(s)
    ensures Inv(s)
  {
    var steps :| s == Run(Empty, steps);
    EmptyKeepsInv();
    RunKeepsInv(Empty, steps);
  }

  // ---- statuses ---------------------------------------------------------------------------

  /** The custody status bounds the accounting status, in every reachable state. */
  lemma StatusesAreCoupled(s: State, id: Id)
    requires Reachable(s) && id in s.withdrawals
    ensures var x := s.withdrawals[id];
      && (x.custody in {Executing, SubmittedToCregis, Exception} ==> x.accounting == ApprovedByCore)
      && (x.accounting == Settled ==> x.custody == Completed && x.operation == OpCompleted)
      && (x.accounting == Released ==>
           x.custody in {Rejected, Failed} && x.operation in {NoOperation, OpRejected, OpFailed})
      && (x.custody in {SubmittedToCregis, Completed} ==> x.cid != None)
  {
    ReachableInv(s);
    ValidIsCoupled(s.withdrawals[id]);
  }

  lemma ValidIsCoupled(x: Withdrawal)
    requires Valid(x)
    ensures x.custody in {Executing, SubmittedToCregis, Exception} ==> x.accounting == ApprovedByCore
    ensures x.accounting == Settled ==> x.custody == Completed && x.operation == OpCompleted
    ensures x.accounting == Released ==>
      x.custody in {Rejected, Failed} && x.operation in {NoOperation, OpRejected, OpFailed}
    ensures x.custody in {SubmittedToCregis, Completed} ==> x.cid != None
  {
  }

  /** A withdrawal once settled is never released in any continuation, and the other way round. */
  lemma NeverSettledAndReleased(s: State, steps: seq<Step>, id: Id)
    requires Reachable(s) && id in s.withdrawals
    ensures var later := Run(s, steps).withdrawals;
      && id in later
      && !(s.withdrawals[id].accounting == Settled && later[id].accounting == Released)
      && !(s.withdrawals[id].accounting == Released && later[id].accounting == Settled)
  {
    ReachableInv(s);
    RunKeepsInv(s, steps);
    assert Advances(s.withdrawals[id], Run(s, steps).withdrawals[id]);
  }

  /** Completed, rejected and failed are final: no continuation of any run leaves them. */
  lemma TerminalStatusIsFinal(s: State, steps: seq<Step>, id: Id)
    requires Reachable(s) && id in s.withdrawals && s.withdrawals[id].custody in {Completed, Rejected, Failed}
    ensures id in Run(s, steps).withdrawals && Run(s, steps).withdrawals[id].custody == s.withdrawals[id].custody
  {
    ReachableInv(s);
    RunKeepsInv(s, steps);
    assert Advances(s.withdrawals[id], Run(s, steps).withdrawals[id]);
  }

  /** Times the custody status of one withdrawal changes along a run. */
  ghost function StatusChanges(s: State, steps: seq<Step>, id: Id): nat {
    if steps == [] then 0
    else
      var before, after := Run(s, steps[..|steps| - 1]), Run(s, steps);
      StatusChanges(s, steps[..|steps| - 1], id)
      + (if id in before.withdrawals && id in after.withdrawals
            && before.withdrawals[id].custody != after.withdrawals[id].custody then 1 else 0)
  }

  lemma {:induction false} ChangesRaiseRank(s: State, steps: seq<Step>, id: Id)
    requires Inv(s)
    ensures var later := Run(s, steps).withdrawals;
      if id !in later then StatusChanges(s, steps, id) == 0
      else Rank(later[id]) >= StatusChanges(s, steps, id) + (if id in s.withdrawals then Rank(s.withdrawals[id]) else 0)
  {
    if steps != [] {
      var earlier := steps[..|steps| - 1];
      ChangesRaiseRank(s, earlier, id);
      RunKeepsInv(s, earlier);
      StepKeepsInv(Run(s, earlier), steps[|steps| - 1]);
    }
  }

  /**
   However often exception and submitted_to_cregis alternate in appearance, a withdrawal
   changes its custody status at most six times over any run.
   */
  lemma StatusChangesAreBounded(steps: seq<Step>, id: Id)
    ensures StatusChanges(Empty, steps, id) <= 6
  {
    EmptyKeepsInv();
    ChangesRaiseRank(Empty, steps, id);
  }

  // ---- payouts ----------------------------------------------------------------------------

  /** Over every run the provider's payout endpoint is called at most once per withdrawal. */
  lemma PayoutCalledAtMostOnce(s: State)
    requires Reachable(s)
    ensures forall i, j :: 0 <= i < j < |s.payouts| ==> s.payouts[i].withdrawal != s.payouts[j].withdrawal
  {
    ReachableInv(s);
  }

  /** A payout number once recorded stays: no callback, reconciler or late answer rewrites it. */
  lemma CidIsWriteOnce(s: State, steps: seq<Step>, id: Id)
    requires Reachable(s) && id in s.withdrawals && s.withdrawals[id].cid != None
    ensures id in Run(s, steps).withdrawals && Run(s, steps).withdrawals[id].cid == s.withdrawals[id].cid
  {
    ReachableInv(s);
    RunKeepsInv(s, steps);
    assert Advances(s.withdrawals[id], Run(s, steps).withdrawals[id]);
  }

  /**
   Funds go back to the customer after a payout call only on the provider's word: it refused
   the address, or its number is on file with exactly one kind of failure reported for it
   at the moment Core releases.
   */
  lemma ReleaseAfterPayoutHasEvidence(s: State, i: nat, id: Id)
    requires Reachable(s) && id in s.withdrawals
    requires i < |s.payouts| && s.payouts[i].withdrawal == id
    requires ReleaseStep(s, id) != s
    ensures s.payouts[i].answer == InvalidAddress
         || (s.withdrawals[id].cid != None && OnlyOneFailureReported(s.events, s.withdrawals[id].cid.value))
  {
    ReachableInv(s);
    assert ReleaseGuard(s, s.withdrawals[id]);
    assert Valid(s.withdrawals[id]);
  }

  /** Once a payout was called, no administrator can free the funds by hand: they stay committed. */
  lemma PaidStaysCommitted(s: State, steps: seq<Step>, i: nat)
    requires Reachable(s) && i < |s.payouts|
    ensures var later := Run(s, steps).withdrawals;
      s.payouts[i].withdrawal in later && Committed(later[s.payouts[i].withdrawal])
  {
    ReachableInv(s);
    RunKeepsInv(s, steps);
    PayoutsStay(s, steps);
    assert Run(s, steps).payouts[i] == s.payouts[i];
  }

  lemma {:induction false} PayoutsStay(s: State, steps: seq<Step>)
    ensures |s.payouts| <= |Run(s, steps).payouts|
    ensures forall i :: 0 <= i < |s.payouts| ==> Run(s, steps).payouts[i] == s.payouts[i]
  {
    if steps != [] {
      PayoutsStay(s, steps[..|steps| - 1]);
    }
  }

  /**
   The journal holds one entry per completed operation, whoever completed it, and its lines add
   up to the amount taken; in particular every settled withdrawal has its entry.
   */
  lemma JournalMatchesCompletions(s: State, id: Id)
    requires Reachable(s) && id in s.withdrawals
    ensures s.withdrawals[id].operation == OpCompleted <==> Journaled(s.journal, id)
    ensures s.withdrawals[id].accounting == Settled ==> Journaled(s.journal, id)
    ensures s.withdrawals[id].accounting == Released ==> !Journaled(s.journal, id)
    ensures forall i, j :: 0 <= i < j < |s.journal| ==> s.journal[i].withdrawal != s.journal[j].withdrawal
    ensures forall i :: 0 <= i < |s.journal| && s.journal[i].withdrawal == id ==>
              s.journal[i].principal + s.journal[i].fee == PaidOut(s.withdrawals[id])
  {
    ReachableInv(s);
    assert Valid(s.withdrawals[id]);
  }

  // ---- the provider's reports ---------------------------------------------------------------

  /** One statement on the row; a final callback is put on file together with it. */
  predicate ByStatement(x: Withdrawal, row: RowStep, events: Events, later: Events, y: Withdrawal) {
    y == RowNext(x, row, events) && (row.DoFinal? ==> (row.cid, row.code) in later)
  }

  /** The versions of a row one step can lead to. */
  ghost predicate Happens(s: State, later: Events, x: Withdrawal, y: Withdrawal) {
    || y == x
    || (exists row :: ByStatement(x, row, s.events, later, y))
    || (ReserveGuard(s, x) && y == Reserve(x))
    || (ReleaseGuard(s, x) && y == ReleaseFunds(x))
    || (SettleGuard(s, x) && y == Settle(x))
    || (x.operation == OpSubmitted && y == RejectTransfer(x))
    || (x.operation == OpProcessing && y == ExecuteTransfer(x))
  }

  lemma OperationHappens(s: State, step: Step, id: Id)
    requires OnOperation(step) && id in s.withdrawals
    ensures var t := Next(s, step);
      id in t.withdrawals && Happens(s, t.events, s.withdrawals[id], t.withdrawals[id]) && t.events == s.events
  {
  }

  lemma StepHappens(s: State, step: Step, id: Id)
    requires id in s.withdrawals
    ensures var t := Next(s, step);
      id in t.withdrawals && Happens(s, t.events, s.withdrawals[id], t.withdrawals[id]) && s.events <= t.events
  {
    var x, t := s.withdrawals[id], Next(s, step);
    match step
    case Act(_, row) => assert t.withdrawals[id] == x || ByStatement(x, row, s.events, t.events, t.withdrawals[id]);
    case Callback(_, cid, code, exact) =>
      var row := if exact then DoFinal(cid, code) else DoConflict;
      assert t.withdrawals[id] == x || ByStatement(x, row, s.events, t.events, t.withdrawals[id]);
    case Start(_, _) => assert t.withdrawals[id] == x || ByStatement(x, DoStart, s.events, t.events, t.withdrawals[id]);
    case Finish(request) =>
      if t != s {
        var row := Conclusion(s.executors[request].phase).value;
        assert t.withdrawals[id] == x || ByStatement(x, row, s.events, t.events, t.withdrawals[id]);
      }
    case _ => if OnOperation(step) { OperationHappens(s, step, id); }
  }

  /** An outcome that names a payout number rests on a report of that outcome for that number. */
  predicate Reported(x: Withdrawal, events: Events) {
    match x.custody
    case Completed => x.cid != None && (x.cid.value, Code6) in events
    case Failed => x.cid != None ==> (x.cid.value, Code7) in events
    case Rejected => x.cid != None ==> (x.cid.value, Code2) in events || (x.cid.value, Code4) in events
    case _ => true
  }

  lemma StatementKeepsReport(x: Withdrawal, row: RowStep, events: Events, later: Events, y: Withdrawal)
    requires Valid(x) && Reported(x, events) && events <= later && ByStatement(x, row, events, later, y)
    ensures Reported(y, later)
  {
    if row.DoFinal? { CallbackIsAllOrNothing(x, row.cid, row.code); }
  }

  lemma RowKeepsReport(s: State, later: Events, x: Withdrawal, y: Withdrawal)
    requires Valid(x) && Reported(x, s.events) && s.events <= later && Happens(s, later, x, y)
    ensures Reported(y, later)
  {
    if row :| ByStatement(x, row, s.events, later, y) {
      StatementKeepsReport(x, row, s.events, later, y);
    }
  }

  lemma NewRowsAreSubmitted(s: State, step: Step, id: Id)
    requires id !in s.withdrawals && id in Next(s, step).withdrawals
    ensures Next(s, step).withdrawals[id].custody == Submitted
  {
  }

  lemma {:induction false} RunKeepsReports(steps: seq<Step>, id: Id)
    ensures var s := Run(Empty, steps); id in s.withdrawals ==> Reported(s.withdrawals[id], s.events)
  {
    if steps != [] {
      var before, step := Run(Empty, steps[..|steps| - 1]), steps[|steps| - 1];
      RunKeepsReports(steps[..|steps| - 1], id);
      EmptyKeepsInv();
      RunKeepsInv(Empty, steps[..|steps| - 1]);
      if id in before.withdrawals {
        StepHappens(before, step, id);
        RowKeepsReport(before, Next(before, step).events, before.withdrawals[id], Next(before, step).withdrawals[id]);
      } else if id in Next(before, step).withdrawals {
        NewRowsAreSubmitted(before, step, id);
      }
    }
  }

  /**
   In every reachable state a completed withdrawal has the provider's report of completion on file
   for its payout number, and one that failed or was rejected after a number was recorded has the
   report of that outcome, whether a callback or the reconciler ended it.
   */
  lemma OutcomesAreReported(s: State, id: Id)
    requires Reachable(s) && id in s.withdrawals
    ensures var x := s.withdrawals[id];
      && (x.custody == Completed ==> x.cid != None && (x.cid.value, Code6) in s.events)
      && (x.custody == Failed && x.cid != None ==> (x.cid.value, Code7) in s.events)
      && (x.custody == Rejected && x.cid != None ==>
            (x.cid.value, Code2) in s.events || (x.cid.value, Code4) in s.events)
  {
    var steps :| s == Run(Empty, steps);
    RunKeepsReports(steps, id);
  }
}
